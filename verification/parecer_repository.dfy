/** The opinion repository: opinions with their notes, and the dossier
    cache with its activity reports. The store holds four collections:
    `pareceres` and `radocs` are keyed by the caller's id, `notas` and
    `relatos` by keys that the store generates, here drawn from a counter.
    Each note carries the id of its opinion and each report the id of its
    dossier; reads rebuild an opinion's notes and a dossier's reports from
    those back-references, not from the key lists the parents cache. */
module ParecerRepositorio {
  import opened Dominio
  import opened Avaliacao
  import opened Colecoes

  /** What an opinion document holds besides its id and its note keys. */
  datatype ParecerCampos = ParecerCampos(
    resolucao: string,
    radocs: seq<string>,
    pontuacoes: seq<Pontuacao>,
    fundamentacao: string)

  /** What a dossier document holds besides its id and its report keys. */
  datatype RadocCampos = RadocCampos(anoBase: int)

  /** The document written for an opinion: its id and notes removed. */
  function CamposDe(p: Parecer): ParecerCampos
  {
    ParecerCampos(p.resolucao, p.radocs, p.pontuacoes, p.fundamentacao)
  }

  /** The opinion read back: the id copied from the key, the notes given. */
  function MontaParecer(id: string, campos: ParecerCampos, notas: seq<Nota>): Parecer
  {
    Parecer(id, campos.resolucao, campos.radocs, campos.pontuacoes, campos.fundamentacao, notas)
  }

  function MontaRadoc(id: string, campos: RadocCampos, relatos: seq<Relato>): Radoc
  {
    Radoc(id, campos.anoBase, relatos)
  }

  /** Storing an opinion's fields and reading them back, with its own id
      and notes, gives the opinion again. */
  lemma ParecerRoundTrip(p: Parecer)
    ensures MontaParecer(p.id, CamposDe(p), p.notas) == p
  {
  }

  /** The notes of opinion `id` whose stored original compares equal to
      `original`. */
  function Matching(notas: map<ObjectId, Child<Nota>>, id: string, original: Avaliavel): (gone: set<ObjectId>)
    ensures gone <= ChildKeys(notas, id)
  {
    set k | k in notas && notas[k].owner == id && CompareAvaliavel(notas[k].payload.original, original)
  }

  /** The removal cursor has still to visit `pending`, has deleted
      `removed` (the matches among the notes already visited), and the
      notes left are the initial ones without `removed`. */
  ghost predicate Swept(notas0: map<ObjectId, Child<Nota>>, id: string, original: Avaliavel,
                        pending: set<ObjectId>, removed: set<ObjectId>, notas: map<ObjectId, Child<Nota>>)
  {
    && pending <= ChildKeys(notas0, id)
    && removed == Matching(notas0, id, original) - pending
    && notas == notas0 - removed
  }

  /** Visiting one more pending note keeps the removal's bookkeeping,
      whether or not the note matches; once nothing is pending, exactly
      the matches are gone. */
  lemma SweepStep(notas0: map<ObjectId, Child<Nota>>, id: string, original: Avaliavel,
                  pending: set<ObjectId>, removed: set<ObjectId>, notas: map<ObjectId, Child<Nota>>, k: ObjectId)
    requires Swept(notas0, id, original, pending, removed, notas) && k in pending
    ensures k in notas && notas[k] == notas0[k]
    ensures CompareAvaliavel(notas[k].payload.original, original) ==>
      Swept(notas0, id, original, pending - {k}, removed + {k}, notas - {k})
    ensures !CompareAvaliavel(notas[k].payload.original, original) ==>
      Swept(notas0, id, original, pending - {k}, removed, notas)
  {
  }

  /** The cursor loop of note removal: visits every note of opinion `id`,
      in some order, and drops each one whose stored original compares
      equal to `original`, pulling its key from the opinion's key list.
      Exactly the matching notes are gone from both. */
  method SweepNotes(notas: map<ObjectId, Child<Nota>>, keys: seq<ObjectId>, id: string, original: Avaliavel)
    returns (restantes: map<ObjectId, Child<Nota>>, resto: seq<ObjectId>)
    ensures restantes == notas - Matching(notas, id, original)
    ensures resto == Without(keys, Matching(notas, id, original))
  {
    ghost var removed: set<ObjectId> := {};
    WithoutNothing(keys);
    restantes, resto := notas, keys;
    var pending := ChildKeys(notas, id);
    while pending != {}
      invariant Swept(notas, id, original, pending, removed, restantes)
      invariant resto == Without(keys, removed)
      decreases pending
    {
      var k :| k in pending;
      SweepStep(notas, id, original, pending, removed, restantes, k);
      pending := pending - {k};
      if CompareAvaliavel(restantes[k].payload.original, original) {
        PullWithout(keys, removed, k);
        restantes := restantes - {k};
        resto := Pull(resto, k);
        removed := removed + {k};
      }
    }
    assert removed == Matching(notas, id, original);
  }

  class ParecerRepositoryManager {
    var pareceres: map<string, Parent<ParecerCampos>>
    var notas: map<ObjectId, Child<Nota>>
    var radocs: map<string, Parent<RadocCampos>>
    var relatos: map<ObjectId, Child<Relato>>
    /** The next key the store hands out to an inserted child document. */
    var nextId: ObjectId

    /** Every note belongs to a stored opinion and every report to a stored
        dossier, the parents' key lists name exactly their children, and
        the counter is ahead of every key in use. */
    ghost predicate Valid()
      reads this
    {
      && Mirrored(pareceres, notas)
      && Mirrored(radocs, relatos)
      && Fresh(notas, nextId)
      && Fresh(relatos, nextId)
    }

    /** A repository over an empty store. */
    constructor ()
      ensures Valid()
      ensures pareceres == map[] && notas == map[] && radocs == map[] && relatos == map[]
    {
      pareceres, notas, radocs, relatos := map[], map[], map[], map[];
      nextId := 0;
    }

    /** Reads an opinion. Its notes are every note whose back-reference is
        `id`, in the store's order (`order` names the note keys in the
        order returned); the key list in the opinion document is not used. */
    method ById(id: Option<string>) returns (r: Result<Option<Parecer>>, ghost order: seq<ObjectId>)
      ensures id.None? ==> r == Failure(CampoExigidoNaoFornecido("id"))
      ensures id.Some? && id.value !in pareceres ==> r == Success(None)
      ensures id.Some? && id.value in pareceres ==>
        && Enumerates(order, notas, id.value)
        && (forall k :: k in order ==> k in notas)
        && r == Success(Some(MontaParecer(id.value, pareceres[id.value].fields, Payloads(notas, order))))
        && |r.value.value.notas| == |ChildKeys(notas, id.value)|
    {
      order := [];
      if id.None? {
        return Failure(CampoExigidoNaoFornecido("id")), order;
      }
      if id.value !in pareceres {
        return Success(None), order;
      }
      var doc := pareceres[id.value];
      var found;
      found, order := Gather(notas, id.value);
      r := Success(Some(MontaParecer(id.value, doc.fields, found)));
    }

    /** Adds a note to an opinion: the note is inserted as a new child
        document tagged with the opinion id, and then its new key is pushed
        onto the opinion's key list. An earlier note on the same item is
        kept. */
    method AdicionaNota(id: Option<string>, nota: Option<Nota>) returns (out: Outcome)
      requires Valid()
      modifies this
      ensures Valid()
      ensures id.None? ==> out == Fail(CampoExigidoNaoFornecido("id"))
      ensures id.Some? && nota.None? ==> out == Fail(CampoExigidoNaoFornecido("nota"))
      ensures id.Some? && nota.Some? && id.value !in old(pareceres) ==> out == Fail(ParecerNaoEncontrado(id.value))
      ensures out.Fail? ==> unchanged(this)
      ensures id.Some? && nota.Some? && id.value in old(pareceres) ==>
        var k := old(nextId);
        && out.Pass?
        && k !in old(notas)
        && notas == old(notas)[k := Child(nota.value, id.value)]
        && pareceres == old(pareceres)[id.value := old(pareceres)[id.value].(keys := old(pareceres)[id.value].keys + [k])]
        && radocs == old(radocs) && relatos == old(relatos) && nextId == k + 1
    {
      if id.None? {
        return Fail(CampoExigidoNaoFornecido("id"));
      }
      if nota.None? {
        return Fail(CampoExigidoNaoFornecido("nota"));
      }
      if id.value !in pareceres {
        return Fail(ParecerNaoEncontrado(id.value));
      }
      var key := nextId;
      AddChildKeepsMirrored(pareceres, notas, id.value, key, nota.value);
      notas := notas[key := Child(nota.value, id.value)];
      nextId := nextId + 1;
      pareceres := pareceres[id.value := pareceres[id.value].(keys := pareceres[id.value].keys + [key])];
      out := Pass;
    }

    /** Removes the notes of an opinion whose stored original compares
        equal to `original`: the cursor visits every note of the opinion,
        and each match is deleted and its key pulled from the opinion's key
        list. No match is not an error. */
    method RemoveNota(id: Option<string>, original: Option<Avaliavel>) returns (out: Outcome)
      requires Valid()
      modifies this
      ensures Valid()
      ensures id.None? ==> out == Fail(CampoExigidoNaoFornecido("id"))
      ensures id.Some? && original.None? ==> out == Fail(CampoExigidoNaoFornecido("original"))
      ensures id.Some? && original.Some? && id.value !in old(pareceres) ==> out == Fail(ParecerNaoEncontrado(id.value))
      ensures out.Fail? ==> unchanged(this)
      ensures id.Some? && original.Some? && id.value in old(pareceres) ==>
        var gone := Matching(old(notas), id.value, original.value);
        && out.Pass?
        && notas == old(notas) - gone
        && pareceres == old(pareceres)[id.value := old(pareceres)[id.value].(keys := Without(old(pareceres)[id.value].keys, gone))]
        && radocs == old(radocs) && relatos == old(relatos) && nextId == old(nextId)
        && ChildKeys(notas, id.value) == ChildKeys(old(notas), id.value) - gone
        && (gone == {} ==> notas == old(notas) && pareceres == old(pareceres))
    {
      if id.None? {
        return Fail(CampoExigidoNaoFornecido("id"));
      }
      if original.None? {
        return Fail(CampoExigidoNaoFornecido("original"));
      }
      if id.value !in pareceres {
        return Fail(ParecerNaoEncontrado(id.value));
      }
      ghost var gone := Matching(notas, id.value, original.value);
      DropChildrenKeepsMirrored(pareceres, notas, id.value, gone);
      WithoutNothing(pareceres[id.value].keys);
      var restantes, keys := SweepNotes(notas, pareceres[id.value].keys, id.value, original.value);
      notas := restantes;
      pareceres := pareceres[id.value := pareceres[id.value].(keys := keys)];
      out := Pass;
    }

    /** Stores an opinion under its id without inline notes, then adds its
        initial notes one by one, in list order. */
    method PersisteParecer(parecer: Option<Parecer>) returns (out: Outcome)
      requires Valid()
      requires parecer.Some? ==> parecer.value.id !in pareceres
      modifies this
      ensures Valid()
      ensures parecer.None? ==> out == Fail(CampoExigidoNaoFornecido("parecer")) && unchanged(this)
      ensures parecer.Some? ==>
        var p, start := parecer.value, old(nextId);
        && out.Pass?
        && pareceres == old(pareceres)[p.id := Parent(CamposDe(p), KeyRange(start, |p.notas|))]
        && notas == old(notas) + Tagged(start, p.notas, |p.notas|, p.id)
        && radocs == old(radocs) && relatos == old(relatos) && nextId == start + |p.notas|
        && |ChildKeys(notas, p.id)| == |p.notas|
    {
      if parecer.None? {
        return Fail(CampoExigidoNaoFornecido("parecer"));
      }
      var p := parecer.value;
      AddParentKeepsMirrored(pareceres, notas, p.id, CamposDe(p));
      pareceres := pareceres[p.id := Parent(CamposDe(p), [])];
      ghost var start := nextId;
      for i := 0 to |p.notas|
        invariant Valid()
        invariant pareceres == old(pareceres)[p.id := Parent(CamposDe(p), KeyRange(start, i))]
        invariant notas == old(notas) + Tagged(start, p.notas, i, p.id)
        invariant radocs == old(radocs) && relatos == old(relatos) && nextId == start + i
      {
        var added := AdicionaNota(Some(p.id), Some(p.notas[i]));
        UnionUpdate(old(notas), Tagged(start, p.notas, i, p.id), start + i, Child(p.notas[i], p.id));
      }
      CachedKeysCountChildren(pareceres, notas, p.id);
      KeyRangeShape(start, |p.notas|);
      out := Pass;
    }

    /** Replaces the grounding text of an opinion; nothing else changes. */
    method AtualizaFundamentacao(parecer: Option<string>, fundamentacao: Option<string>) returns (out: Outcome)
      requires Valid()
      modifies this
      ensures Valid()
      ensures parecer.None? ==> out == Fail(CampoExigidoNaoFornecido("parecer"))
      ensures parecer.Some? && fundamentacao.None? ==> out == Fail(CampoExigidoNaoFornecido("fundamentacao"))
      ensures parecer.Some? && fundamentacao.Some? && parecer.value !in old(pareceres) ==>
        out == Fail(ParecerNaoEncontrado(parecer.value))
      ensures out.Fail? ==> unchanged(this)
      ensures parecer.Some? && fundamentacao.Some? && parecer.value in old(pareceres) ==>
        var doc := old(pareceres)[parecer.value];
        && out.Pass?
        && pareceres == old(pareceres)[parecer.value := doc.(fields := doc.fields.(fundamentacao := fundamentacao.value))]
        && notas == old(notas) && radocs == old(radocs) && relatos == old(relatos) && nextId == old(nextId)
    {
      if parecer.None? {
        return Fail(CampoExigidoNaoFornecido("parecer"));
      }
      if fundamentacao.None? {
        return Fail(CampoExigidoNaoFornecido("fundamentacao"));
      }
      if parecer.value in pareceres {
        var doc := pareceres[parecer.value];
        UpdateFieldsKeepsMirrored(pareceres, notas, parecer.value, doc.fields.(fundamentacao := fundamentacao.value));
        pareceres := pareceres[parecer.value := doc.(fields := doc.fields.(fundamentacao := fundamentacao.value))];
        out := Pass;
      } else {
        out := Fail(ParecerNaoEncontrado(parecer.value));
      }
    }

    /** Removes an opinion: every note whose back-reference is its id, then
        the opinion document. An unknown id is an error. */
    method RemoveParecer(id: Option<string>) returns (out: Outcome)
      requires Valid()
      modifies this
      ensures Valid()
      ensures id.None? ==> out == Fail(CampoExigidoNaoFornecido("id"))
      ensures id.Some? && id.value !in old(pareceres) ==> out == Fail(ParecerNaoEncontrado(id.value))
      ensures out.Fail? ==> unchanged(this)
      ensures id.Some? && id.value in old(pareceres) ==>
        && out.Pass?
        && pareceres == old(pareceres) - {id.value}
        && notas == old(notas) - ChildKeys(old(notas), id.value)
        && radocs == old(radocs) && relatos == old(relatos) && nextId == old(nextId)
        && ChildKeys(notas, id.value) == {}
    {
      if id.None? {
        return Fail(CampoExigidoNaoFornecido("id"));
      }
      if id.value !in pareceres {
        return Fail(ParecerNaoEncontrado(id.value));
      }
      CascadeKeepsMirrored(pareceres, notas, id.value);
      notas := notas - ChildKeys(notas, id.value);
      pareceres := pareceres - {id.value};
      out := Pass;
    }

    /** Reads a dossier, its reports rebuilt from their back-references. */
    method RadocById(identificador: Option<string>) returns (r: Result<Option<Radoc>>, ghost order: seq<ObjectId>)
      ensures identificador.None? ==> r == Failure(CampoExigidoNaoFornecido("identificador"))
      ensures identificador.Some? && identificador.value !in radocs ==> r == Success(None)
      ensures identificador.Some? && identificador.value in radocs ==>
        && Enumerates(order, relatos, identificador.value)
        && (forall k :: k in order ==> k in relatos)
        && r == Success(Some(MontaRadoc(identificador.value, radocs[identificador.value].fields, Payloads(relatos, order))))
        && |r.value.value.relatos| == |ChildKeys(relatos, identificador.value)|
    {
      order := [];
      if identificador.None? {
        return Failure(CampoExigidoNaoFornecido("identificador")), order;
      }
      if identificador.value !in radocs {
        return Success(None), order;
      }
      var doc := radocs[identificador.value];
      var found;
      found, order := Gather(relatos, identificador.value);
      r := Success(Some(MontaRadoc(identificador.value, doc.fields, found)));
    }

    /** Stores a dossier: each report is inserted as a child document
        tagged with the dossier id, then the dossier is stored with the new
        keys in report order. Returns the dossier id. */
    method PersisteRadoc(radoc: Option<Radoc>) returns (r: Result<string>)
      requires Valid()
      requires radoc.Some? ==> radoc.value.id !in radocs
      modifies this
      ensures Valid()
      ensures radoc.None? ==> r == Failure(CampoExigidoNaoFornecido("radoc")) && unchanged(this)
      ensures radoc.Some? ==>
        var d, start := radoc.value, old(nextId);
        && r == Success(d.id)
        && radocs == old(radocs)[d.id := Parent(RadocCampos(d.anoBase), KeyRange(start, |d.relatos|))]
        && relatos == old(relatos) + Tagged(start, d.relatos, |d.relatos|, d.id)
        && pareceres == old(pareceres) && notas == old(notas) && nextId == start + |d.relatos|
        && ChildKeys(relatos, d.id) == Elements(KeyRange(start, |d.relatos|))
    {
      if radoc.None? {
        return Failure(CampoExigidoNaoFornecido("radoc"));
      }
      var d := radoc.value;
      ghost var start := nextId;
      var relatosObjId: seq<ObjectId> := [];
      for i := 0 to |d.relatos|
        invariant relatosObjId == KeyRange(start, i)
        invariant relatos == old(relatos) + Tagged(start, d.relatos, i, d.id)
        invariant pareceres == old(pareceres) && notas == old(notas) && radocs == old(radocs)
        invariant nextId == start + i
      {
        var key := nextId;
        relatos := relatos[key := Child(d.relatos[i], d.id)];
        nextId := nextId + 1;
        relatosObjId := relatosObjId + [key];
        UnionUpdate(old(relatos), Tagged(start, d.relatos, i, d.id), start + i, Child(d.relatos[i], d.id));
      }
      TaggedShape(start, d.relatos, |d.relatos|, d.id);
      AdoptKeepsMirrored(old(radocs), old(relatos), d.id, RadocCampos(d.anoBase), start, d.relatos);
      radocs := radocs[d.id := Parent(RadocCampos(d.anoBase), relatosObjId)];
      r := Success(d.id);
    }

    /** Removes a dossier: every report whose back-reference is its id,
        then the dossier document. An unknown id is an error; opinions that
        list the dossier do not block the removal. */
    method RemoveRadoc(identificador: Option<string>) returns (out: Outcome)
      requires Valid()
      modifies this
      ensures Valid()
      ensures identificador.None? ==> out == Fail(CampoExigidoNaoFornecido("identificador"))
      ensures identificador.Some? && identificador.value !in old(radocs) ==>
        out == Fail(RadocNaoEncontrado(identificador.value))
      ensures out.Fail? ==> unchanged(this)
      ensures identificador.Some? && identificador.value in old(radocs) ==>
        && out.Pass?
        && radocs == old(radocs) - {identificador.value}
        && relatos == old(relatos) - ChildKeys(old(relatos), identificador.value)
        && pareceres == old(pareceres) && notas == old(notas) && nextId == old(nextId)
        && ChildKeys(relatos, identificador.value) == {}
    {
      if identificador.None? {
        return Fail(CampoExigidoNaoFornecido("identificador"));
      }
      if identificador.value !in radocs {
        return Fail(RadocNaoEncontrado(identificador.value));
      }
      CascadeKeepsMirrored(radocs, relatos, identificador.value);
      relatos := relatos - ChildKeys(relatos, identificador.value);
      radocs := radocs - {identificador.value};
      out := Pass;
    }
  }
}
