/** The resolution repository: resolutions and report-entry types, each
    stored under the caller's id. Resolutions are only created, read and
    removed, never updated. */
module ResolucaoRepositorio {
  import opened Dominio
  import opened Colecoes

  /** What a resolution document holds: everything but the id, which
      becomes the document key; the date is kept to the second. */
  datatype ResolucaoDoc = ResolucaoDoc(nome: string, descricao: string, dataAprovacao: int, regras: seq<Regra>)

  /** What a type document holds: everything but the id. */
  datatype TipoDoc = TipoDoc(nome: string, descricao: string, atributos: set<Atributo>)

  /** A date in milliseconds as Gson's default date format writes it:
      to the whole second, the milliseconds dropped (towards the earlier
      second for dates before the epoch as well). */
  function AoSegundo(ms: int): (s: int)
    ensures s % 1000 == 0 && s <= ms < s + 1000
    ensures s == ms <==> ms % 1000 == 0
  {
    ms - ms % 1000
  }

  /** A resolution as written to its document: the date keeps only whole
      seconds. */
  function ResolucaoParaDoc(r: Resolucao): ResolucaoDoc
  {
    ResolucaoDoc(r.nome, r.descricao, AoSegundo(r.dataAprovacao), r.regras)
  }

  /** A resolution read back: the key is copied into the id. */
  function ResolucaoDeDoc(id: string, doc: ResolucaoDoc): Resolucao
  {
    Resolucao(id, doc.nome, doc.descricao, doc.dataAprovacao, doc.regras)
  }

  function TipoParaDoc(t: Tipo): TipoDoc
  {
    TipoDoc(t.nome, t.descricao, t.atributos)
  }

  /** A type read by its code: the key is copied into the id. */
  function TipoDeDoc(id: string, doc: TipoDoc): Tipo
  {
    Tipo(id, doc.nome, doc.descricao, doc.atributos)
  }

  /** Writing a resolution under its id and reading it back by that id
      gives the same resolution, rules included, except that the date
      comes back to the second; it comes back unchanged exactly when it
      already was on a whole second. */
  lemma ResolucaoRoundTrip(r: Resolucao)
    ensures ResolucaoDeDoc(r.id, ResolucaoParaDoc(r)) == r.(dataAprovacao := AoSegundo(r.dataAprovacao))
    ensures ResolucaoDeDoc(r.id, ResolucaoParaDoc(r)) == r <==> r.dataAprovacao % 1000 == 0
  {
  }

  /** A resolution read back and stored again is written exactly as
      before: the truncation of the date happens once. */
  lemma ResolucaoReescrita(id: string, doc: ResolucaoDoc)
    requires doc.dataAprovacao % 1000 == 0
    ensures ResolucaoParaDoc(ResolucaoDeDoc(id, doc)) == doc
  {
  }

  /** Writing a type under its code and reading it back by that code gives
      the same type. */
  lemma TipoRoundTrip(t: Tipo)
    ensures TipoDeDoc(t.id, TipoParaDoc(t)) == t
  {
  }

  class ResolucaoRepositoryManager {
    var resolucoes: map<string, ResolucaoDoc>
    var tipos: map<string, TipoDoc>

    /** A repository over an empty store. */
    constructor ()
      ensures resolucoes == map[] && tipos == map[]
    {
      resolucoes, tipos := map[], map[];
    }

    /** Reads a resolution by id; an unknown id gives no resolution. */
    method ById(id: Option<string>) returns (r: Result<Option<Resolucao>>)
      ensures id.None? ==> r == Failure(CampoExigidoNaoFornecido("id"))
      ensures id.Some? && id.value !in resolucoes ==> r == Success(None)
      ensures id.Some? && id.value in resolucoes ==>
        r == Success(Some(ResolucaoDeDoc(id.value, resolucoes[id.value])))
    {
      if id.None? {
        return Failure(CampoExigidoNaoFornecido("id"));
      }
      if id.value in resolucoes {
        r := Success(Some(ResolucaoDeDoc(id.value, resolucoes[id.value])));
      } else {
        r := Success(None);
      }
    }

    /** Stores a resolution under its own id and returns that id. */
    method Persiste(resolucao: Option<Resolucao>) returns (r: Result<string>)
      requires resolucao.Some? ==> resolucao.value.id !in resolucoes
      modifies this
      ensures resolucao.None? ==> r == Failure(CampoExigidoNaoFornecido("resolucao")) && unchanged(this)
      ensures resolucao.Some? ==>
        && r == Success(resolucao.value.id)
        && resolucoes == old(resolucoes)[resolucao.value.id := ResolucaoParaDoc(resolucao.value)]
        && tipos == old(tipos)
    {
      if resolucao.None? {
        return Failure(CampoExigidoNaoFornecido("resolucao"));
      }
      resolucoes := resolucoes[resolucao.value.id := ResolucaoParaDoc(resolucao.value)];
      r := Success(resolucao.value.id);
    }

    /** Removes a resolution; the answer says whether one was removed. An
        unknown id is not an error. */
    method Remove(identificador: Option<string>) returns (r: Result<bool>)
      modifies this
      ensures identificador.None? ==> r == Failure(CampoExigidoNaoFornecido("identificador")) && unchanged(this)
      ensures identificador.Some? ==>
        && r == Success(identificador.value in old(resolucoes))
        && resolucoes == old(resolucoes) - {identificador.value}
        && tipos == old(tipos)
      ensures identificador.Some? && identificador.value !in old(resolucoes) ==> resolucoes == old(resolucoes)
    {
      if identificador.None? {
        return Failure(CampoExigidoNaoFornecido("identificador"));
      }
      var deletedCount := if identificador.value in resolucoes then 1 else 0;
      resolucoes := resolucoes - {identificador.value};
      r := Success(deletedCount > 0);
    }

    /** Lists the ids of the stored resolutions, in the store's order: each
        stored id exactly once. */
    method Resolucoes() returns (ids: seq<string>)
      ensures forall id :: id in ids <==> id in resolucoes
      ensures Distinct(ids)
      ensures |ids| == |resolucoes|
    {
      var pending := resolucoes.Keys;
      ids := [];
      while pending != {}
        invariant pending <= resolucoes.Keys
        invariant forall id :: id in ids <==> id in resolucoes && id !in pending
        invariant Distinct(ids)
        invariant |ids| + |pending| == |resolucoes|
        decreases pending
      {
        var id :| id in pending;
        ids := ids + [id];
        pending := pending - {id};
      }
    }

    /** Stores a type under its own code. */
    method PersisteTipo(tipo: Option<Tipo>) returns (out: Outcome)
      requires tipo.Some? ==> tipo.value.id !in tipos
      modifies this
      ensures tipo.None? ==> out == Fail(CampoExigidoNaoFornecido("tipo")) && unchanged(this)
      ensures tipo.Some? ==>
        && out.Pass?
        && tipos == old(tipos)[tipo.value.id := TipoParaDoc(tipo.value)]
        && resolucoes == old(resolucoes)
    {
      if tipo.None? {
        return Fail(CampoExigidoNaoFornecido("tipo"));
      }
      tipos := tipos[tipo.value.id := TipoParaDoc(tipo.value)];
      out := Pass;
    }

    /** Removes a type, whether or not a resolution uses it; an unknown code
        changes nothing. */
    method RemoveTipo(codigo: Option<string>) returns (out: Outcome)
      modifies this
      ensures codigo.None? ==> out == Fail(CampoExigidoNaoFornecido("codigo")) && unchanged(this)
      ensures codigo.Some? ==>
        && out.Pass?
        && tipos == old(tipos) - {codigo.value}
        && resolucoes == old(resolucoes)
      ensures codigo.Some? && codigo.value !in old(tipos) ==> tipos == old(tipos)
    {
      if codigo.None? {
        return Fail(CampoExigidoNaoFornecido("codigo"));
      }
      tipos := tipos - {codigo.value};
      out := Pass;
    }

    /** Reads a type by its code; an unknown code gives no type. */
    method TipoPeloCodigo(codigo: Option<string>) returns (r: Result<Option<Tipo>>)
      ensures codigo.None? ==> r == Failure(CampoExigidoNaoFornecido("codigo"))
      ensures codigo.Some? && codigo.value !in tipos ==> r == Success(None)
      ensures codigo.Some? && codigo.value in tipos ==>
        r == Success(Some(TipoDeDoc(codigo.value, tipos[codigo.value])))
    {
      if codigo.None? {
        return Failure(CampoExigidoNaoFornecido("codigo"));
      }
      if codigo.value in tipos {
        r := Success(Some(TipoDeDoc(codigo.value, tipos[codigo.value])));
      } else {
        r := Success(None);
      }
    }

    /** Lists the stored types, in the store's order (`order` names their
        codes in the order returned). The name is only checked for null:
        every stored type is returned, whatever its name. The records come
        back without their codes. */
    method TiposPeloNome(nome: Option<string>) returns (r: Result<seq<TipoDoc>>, ghost order: seq<string>)
      ensures nome.None? ==> r == Failure(CampoExigidoNaoFornecido("nome"))
      ensures nome.Some? ==>
        && r.Success?
        && |r.value| == |order| == |tipos|
        && (forall c :: c in order <==> c in tipos)
        && Distinct(order)
        && (forall i :: 0 <= i < |order| ==> r.value[i] == tipos[order[i]])
    {
      order := [];
      if nome.None? {
        return Failure(CampoExigidoNaoFornecido("nome")), order;
      }
      var pending := tipos.Keys;
      var listTipos: seq<TipoDoc> := [];
      while pending != {}
        invariant pending <= tipos.Keys
        invariant forall c :: c in order <==> c in tipos && c !in pending
        invariant Distinct(order)
        invariant |listTipos| == |order| && |order| + |pending| == |tipos|
        invariant forall i :: 0 <= i < |order| ==> listTipos[i] == tipos[order[i]]
        decreases pending
      {
        var c :| c in pending;
        listTipos := listTipos + [tipos[c]];
        order := order + [c];
        pending := pending - {c};
      }
      r := Success(listTipos);
    }
  }
}
