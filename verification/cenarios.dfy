/** How the repository operations combine: each method here runs a write
    followed by the read that observes it, as a client of the repositories
    does, and states what the read then returns. */
module Cenarios {
  import opened Dominio
  import opened Colecoes
  import opened Avaliacao
  import opened ParecerRepositorio
  import opened ResolucaoRepositorio

  /** Removing a subset of an owner's children leaves that many fewer. */
  lemma RemovedCount(before: set<ObjectId>, gone: set<ObjectId>)
    requires gone <= before
    ensures |before - gone| == |before| - |gone|
  {
    assert before == (before - gone) + gone;
  }

  /** A note added under a fresh key is among the notes its own original
      selects, besides those selected before. */
  lemma AddedNoteMatchesItself(notas: map<ObjectId, Child<Nota>>, id: string, k: ObjectId, nota: Nota)
    requires k !in notas
    ensures Matching(notas[k := Child(nota, id)], id, nota.original) == Matching(notas, id, nota.original) + {k}
    ensures |Matching(notas[k := Child(nota, id)], id, nota.original)| == |Matching(notas, id, nota.original)| + 1
  {
    CompareIsEquivalence(nota.original, nota.original, nota.original);
  }

  /** A stored opinion reads back with its own fields and with the notes it
      was stored with, each as often as it was given, in the store's order. */
  method PersisteParecerEntaoLe(repo: ParecerRepositoryManager, p: Parecer) returns (lido: Parecer)
    requires repo.Valid() && p.id !in repo.pareceres
    modifies repo
    ensures repo.Valid()
    ensures lido.id == p.id && CamposDe(lido) == CamposDe(p)
    ensures multiset(lido.notas) == multiset(p.notas)
    ensures |lido.notas| == |p.notas|
  {
    NoChildrenYet(repo.pareceres, repo.notas, p.id);
    ghost var notas0, start := repo.notas, repo.nextId;
    var out := repo.PersisteParecer(Some(p));
    var r, order := repo.ById(Some(p.id));
    lido := r.value.value;
    ReadBackIsPermutation(notas0, p.id, start, p.notas, order);
  }

  /** Adding a note to an existing opinion makes its next read return one
      note more. */
  method AdicionaNotaUmaAMais(repo: ParecerRepositoryManager, id: string, nota: Nota) returns (antes: nat, depois: nat)
    requires repo.Valid() && id in repo.pareceres
    modifies repo
    ensures repo.Valid()
    ensures depois == antes + 1
  {
    var r, order := repo.ById(Some(id));
    antes := |r.value.value.notas|;
    AddChildGrowsByOne(repo.notas, id, repo.nextId, nota);
    var out := repo.AdicionaNota(Some(id), Some(nota));
    r, order := repo.ById(Some(id));
    depois := |r.value.value.notas|;
  }

  /** Removing notes by an original makes the next read return as many
      notes fewer as matched it. */
  method RemoveNotaMenosAsIguais(repo: ParecerRepositoryManager, id: string, original: Avaliavel)
    returns (antes: nat, removidas: nat, depois: nat)
    requires repo.Valid() && id in repo.pareceres
    modifies repo
    ensures repo.Valid()
    ensures removidas == |Matching(old(repo.notas), id, original)|
    ensures depois == antes - removidas
  {
    var r, order := repo.ById(Some(id));
    antes := |r.value.value.notas|;
    var gone := Matching(repo.notas, id, original);
    removidas := |gone|;
    RemovedCount(ChildKeys(repo.notas, id), gone);
    var out := repo.RemoveNota(Some(id), Some(original));
    r, order := repo.ById(Some(id));
    depois := |r.value.value.notas|;
  }

  /** A note added and then removed by its own original leaves the opinion
      with the notes it had, when none of those compared equal to that
      original; otherwise those go too. */
  method AdicionaERemoveNota(repo: ParecerRepositoryManager, id: string, nota: Nota) returns (antes: nat, meio: nat, depois: nat)
    requires repo.Valid() && id in repo.pareceres
    modifies repo
    ensures repo.Valid()
    ensures meio == antes + 1
    ensures depois == antes - |Matching(old(repo.notas), id, nota.original)|
    ensures Matching(old(repo.notas), id, nota.original) == {} ==> depois == antes
  {
    var r, order := repo.ById(Some(id));
    antes := |r.value.value.notas|;
    ghost var notas0, k := repo.notas, repo.nextId;
    AddChildGrowsByOne(repo.notas, id, k, nota);
    var out := repo.AdicionaNota(Some(id), Some(nota));
    r, order := repo.ById(Some(id));
    meio := |r.value.value.notas|;
    AddedNoteMatchesItself(notas0, id, k, nota);
    var gone := Matching(repo.notas, id, nota.original);
    RemovedCount(ChildKeys(repo.notas, id), gone);
    out := repo.RemoveNota(Some(id), Some(nota.original));
    r, order := repo.ById(Some(id));
    depois := |r.value.value.notas|;
  }

  /** After the new grounding text is written, the opinion reads back with
      that text. */
  method AtualizaFundamentacaoEntaoLe(repo: ParecerRepositoryManager, id: string, texto: string) returns (lido: Parecer)
    requires repo.Valid() && id in repo.pareceres
    modifies repo
    ensures repo.Valid()
    ensures lido.fundamentacao == texto
    ensures lido.id == id && CamposDe(lido) == old(repo.pareceres[id].fields).(fundamentacao := texto)
    ensures |lido.notas| == old(|ChildKeys(repo.notas, id)|)
  {
    var out := repo.AtualizaFundamentacao(Some(id), Some(texto));
    var r, order := repo.ById(Some(id));
    lido := r.value.value;
  }

  /** After an opinion is removed, reading it gives no opinion. */
  method RemoveParecerEntaoNulo(repo: ParecerRepositoryManager, id: string) returns (r: Result<Option<Parecer>>)
    requires repo.Valid() && id in repo.pareceres
    modifies repo
    ensures repo.Valid()
    ensures r == Success(None)
  {
    var out := repo.RemoveParecer(Some(id));
    ghost var order;
    r, order := repo.ById(Some(id));
  }

  /** A stored dossier reads back with its base year and with the reports
      it was stored with, each as often as it was given, in the store's
      order. */
  method PersisteRadocEntaoLe(repo: ParecerRepositoryManager, d: Radoc) returns (lido: Radoc)
    requires repo.Valid() && d.id !in repo.radocs
    modifies repo
    ensures repo.Valid()
    ensures lido.id == d.id && lido.anoBase == d.anoBase
    ensures multiset(lido.relatos) == multiset(d.relatos)
    ensures |lido.relatos| == |d.relatos|
  {
    NoChildrenYet(repo.radocs, repo.relatos, d.id);
    ghost var relatos0, start := repo.relatos, repo.nextId;
    var id := repo.PersisteRadoc(Some(d));
    var r, order := repo.RadocById(Some(d.id));
    lido := r.value.value;
    ReadBackIsPermutation(relatos0, d.id, start, d.relatos, order);
  }

  /** After a dossier is removed, reading it gives no dossier. */
  method RemoveRadocEntaoNulo(repo: ParecerRepositoryManager, id: string) returns (r: Result<Option<Radoc>>)
    requires repo.Valid() && id in repo.radocs
    modifies repo
    ensures repo.Valid()
    ensures r == Success(None)
  {
    var out := repo.RemoveRadoc(Some(id));
    ghost var order;
    r, order := repo.RadocById(Some(id));
  }

  /** A stored resolution reads back with its date cut to the second, and
      unchanged when the date was on a whole second; once removed it reads
      as absent, and a second removal reports that nothing was removed. */
  method ResolucaoCicloDeVida(repo: ResolucaoRepositoryManager, res: Resolucao)
    returns (lida: Result<Option<Resolucao>>, primeira: Result<bool>, depois: Result<Option<Resolucao>>, segunda: Result<bool>)
    requires res.id !in repo.resolucoes
    modifies repo
    ensures lida == Success(Some(res.(dataAprovacao := AoSegundo(res.dataAprovacao))))
    ensures res.dataAprovacao % 1000 == 0 ==> lida == Success(Some(res))
    ensures primeira == Success(true) && depois == Success(None) && segunda == Success(false)
  {
    var id := repo.Persiste(Some(res));
    ResolucaoRoundTrip(res);
    lida := repo.ById(Some(res.id));
    primeira := repo.Remove(Some(res.id));
    depois := repo.ById(Some(res.id));
    segunda := repo.Remove(Some(res.id));
  }

  /** A stored type reads back by its code; once removed it reads as
      absent. */
  method TipoCicloDeVida(repo: ResolucaoRepositoryManager, t: Tipo)
    returns (lido: Result<Option<Tipo>>, depois: Result<Option<Tipo>>)
    requires t.id !in repo.tipos
    modifies repo
    ensures lido == Success(Some(t)) && depois == Success(None)
  {
    var out := repo.PersisteTipo(Some(t));
    TipoRoundTrip(t);
    lido := repo.TipoPeloCodigo(Some(t.id));
    out := repo.RemoveTipo(Some(t.id));
    depois := repo.TipoPeloCodigo(Some(t.id));
  }

  /** Three types stored in an empty repository are all listed by a name
      search, whatever name is searched for. */
  method TresTiposListados(a: Tipo, b: Tipo, c: Tipo, nome: string) returns (n: nat)
    requires a.id != b.id && a.id != c.id && b.id != c.id
    ensures n == 3
  {
    var repo := new ResolucaoRepositoryManager();
    var out := repo.PersisteTipo(Some(a));
    out := repo.PersisteTipo(Some(b));
    out := repo.PersisteTipo(Some(c));
    assert repo.tipos.Keys == {a.id, b.id, c.id};
    var r, order := repo.TiposPeloNome(Some(nome));
    n := |r.value|;
  }
}
