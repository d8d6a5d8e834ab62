# SAEP persistence layer — a Dafny model

This project models the two repository managers of the SAEP sandbox, which
store the evaluation data of faculty reports in a document store:

- **The opinion repository** (`ParecerRepositoryManager`). It keeps four
  collections. `pareceres` holds opinions and `radocs` holds dossiers; both
  are keyed by the caller's id. `notas` holds the notes attached to opinions
  and `relatos` holds the activity reports of dossiers; both are keyed by
  store-generated object ids. Each child document carries the id of its
  parent (`id_parecer`, `id_radoc`). Each parent document caches the list of
  its children's keys. Reads rebuild an opinion's notes and a dossier's
  reports from the back-references; the cached list is not read.
- **Item equality** (`compareAvaliavel`, `equalValorAvaliavel`). This decides
  which notes a removal selects. The variant is picked by the stored side:
  a `tipo` field means a report entry, otherwise a score.
- **The resolution repository** (`ResolucaoRepositoryManager`). It keeps two
  collections, resolutions and report-entry types, each keyed by the
  caller's id. It offers create, read, delete and two listings.

The store is abstract state: one Dafny `map` per collection, held as fields
of a `class` per manager. Each manager method becomes a `method` that
reassigns those fields. Store-generated object ids are drawn from a counter
(`nextId`). A Java `null` argument is `Option.None`. A thrown exception is a
`Fail`/`Failure` outcome carrying the same error, and the state is then
unchanged. A date is a count of milliseconds. A resolution's approval
date is written to its document to the whole second, because the manager's
Gson has no date format of its own and its default text has no
milliseconds (`AoSegundo`).

Files:

- `dominio.dfy` — entities (`Parecer`, `Nota`, `Avaliavel`, `Radoc`,
  `Relato`, `Resolucao`, `Tipo`, ...), errors and outcomes.
- `avaliacao.dfy` — item and value equality, with the intended value
  equality beside the implemented one.
- `colecoes.dfy` — the generic parent/child layout shared by opinions/notes
  and dossiers/reports. It defines the invariant `Mirrored`: no child is
  orphaned, and each parent's cached key list names exactly its children,
  without repetition. It also holds the array push/pull operations, the
  cursor walk `Gather`, and the lemmas that each store step keeps the
  invariant.
- `parecer_repository.dfy` — the opinion repository class.
- `resolucao_repository.dfy` — the resolution repository class.
- `cenarios.dfy` — write-then-read sequences, as a client performs them,
  with what the read returns.

### Where the code and its comments disagree

The model follows the code in each of these places.

- `adicionaNota` (comment at ParecerRepositoryManager.java:83-85) promises
  that a note on an item that already has one replaces it. The code only
  inserts, so both notes are kept (`AdicionaNota`).
- `removeParecer` (comment at 285-287) says an unknown id is not an error.
  The code raises `ParecerNaoEncontrado` (`RemoveParecer`).
- `removeRadoc` (comment at 418-421) promises to refuse a dossier that an
  opinion references. The code has no such check (`RemoveRadoc`).
- `removeTipo` (comment at ResolucaoRepositoryManager.java:197-198)
  promises to refuse a type that a resolution uses. The code has no such
  check (`RemoveTipo`).
- `tiposPeloNome` (comment at 240-252) promises a substring filter on the
  name. The code returns every stored type, and never copies the key into
  the `id` field of the result (`TiposPeloNome`).
- `equalValorAvaliavel` computes a text verdict and then overwrites it, so
  texts never influence the result (`EqualValorAvaliavel`,
  `TextMismatchIsMasked`).

## Model

| member | source | states |
|---|---|---|
| Avaliacao.EqualValorAvaliavel | src/main/java/br/ufg/inf/es/saep/sandbox/persistencia/ParecerRepositoryManager.java:485-502 | two values are equal iff they agree once their texts are erased: the boolean and numeric payloads alone decide |
| Avaliacao.CompareAvaliavel | src/main/java/br/ufg/inf/es/saep/sandbox/persistencia/ParecerRepositoryManager.java:456-474 | items of different variants never compare equal; a stored report entry equals exactly the same report entry; a stored score equals a score iff the attributes match and the values match ignoring text |
| Avaliacao.EqualValorIgnoresText | src/main/java/br/ufg/inf/es/saep/sandbox/persistencia/ParecerRepositoryManager.java:488-499 | replacing either value's text by anything never changes the verdict |
| Avaliacao.EqualValorVersusIntended | src/main/java/br/ufg/inf/es/saep/sandbox/persistencia/ParecerRepositoryManager.java:476-502 | the implemented equality accepts every pair the intended one (javadoc at 476-484, overwritten check at 488-492) accepts; the only other pairs it accepts are those with equal boolean and numeric payloads whose texts are both present and differ |
| Avaliacao.TextMismatchIsMasked | src/main/java/br/ufg/inf/es/saep/sandbox/persistencia/ParecerRepositoryManager.java:488-499 | two scores with the same attribute whose values differ only in text are unequal by the intended rule (javadoc at 476-484, overwritten check at 488-492) and yet compare equal |
| Avaliacao.CompareIsEquivalence | src/main/java/br/ufg/inf/es/saep/sandbox/persistencia/ParecerRepositoryManager.java:456-474 | item comparison is reflexive, symmetric and transitive |
| Colecoes.Payloads | src/main/java/br/ufg/inf/es/saep/sandbox/persistencia/ParecerRepositoryManager.java:267-273 | the list built from a key order has one payload per key, the payload stored under that key, in that order |
| Colecoes.KeyRangeShape | src/main/java/br/ufg/inf/es/saep/sandbox/persistencia/ParecerRepositoryManager.java:389-404 | `n` inserts in a row hand out `n` keys, `start + i` at position `i` |
| Colecoes.TaggedShape | src/main/java/br/ufg/inf/es/saep/sandbox/persistencia/ParecerRepositoryManager.java:392-402 | inserting the first `n` items in a row occupies exactly keys `start` to `start + n - 1`, the `i`-th holding item `i` tagged with the owner |
| Colecoes.Snoc | src/main/java/br/ufg/inf/es/saep/sandbox/persistencia/ParecerRepositoryManager.java:116-119 | pushing a key adds exactly that key to the list's elements, and the list stays repetition-free iff the key was absent |
| Colecoes.Pull | src/main/java/br/ufg/inf/es/saep/sandbox/persistencia/ParecerRepositoryManager.java:157-159 | the array pull removes exactly that key from the list's elements, keeps a repetition-free list so, and leaves a list without the key unchanged |
| Colecoes.Without | src/main/java/br/ufg/inf/es/saep/sandbox/persistencia/ParecerRepositoryManager.java:147-161 | filtering a set of keys out of a list removes exactly those keys from its elements and keeps it repetition-free |
| Colecoes.PullWithout | src/main/java/br/ufg/inf/es/saep/sandbox/persistencia/ParecerRepositoryManager.java:147-161 | pulling one key after filtering out a set equals filtering out the set with that key, so pulls in any order filter out all of them |
| Colecoes.WithoutNothing | src/main/java/br/ufg/inf/es/saep/sandbox/persistencia/ParecerRepositoryManager.java:147-161 | a removal that matches nothing leaves the key list as it was |
| Colecoes.DistinctCard | src/main/java/br/ufg/inf/es/saep/sandbox/persistencia/ParecerRepositoryManager.java:389-404 | a repetition-free key list has as many entries as distinct keys |
| Colecoes.CachedKeysCountChildren | src/main/java/br/ufg/inf/es/saep/sandbox/persistencia/ParecerRepositoryManager.java:259-273 | under the invariant, a parent's cached key list is exactly as long as the list of children a read rebuilds |
| Colecoes.UpdateFieldsKeepsMirrored | src/main/java/br/ufg/inf/es/saep/sandbox/persistencia/ParecerRepositoryManager.java:226-230 | rewriting a parent's own fields keeps the invariant |
| Colecoes.AddParentKeepsMirrored | src/main/java/br/ufg/inf/es/saep/sandbox/persistencia/ParecerRepositoryManager.java:181-186 | storing a new parent with no keys keeps the invariant |
| Colecoes.AddChildKeepsMirrored | src/main/java/br/ufg/inf/es/saep/sandbox/persistencia/ParecerRepositoryManager.java:113-119 | inserting a child under a fresh key and pushing that key onto its parent keeps the invariant, and gives that parent exactly that one more child |
| Colecoes.AddChildGrowsByOne | src/main/java/br/ufg/inf/es/saep/sandbox/persistencia/ParecerRepositoryManager.java:113-115 | a child inserted under a fresh key gives its owner exactly one more child |
| Colecoes.DropChildrenKeepsMirrored | src/main/java/br/ufg/inf/es/saep/sandbox/persistencia/ParecerRepositoryManager.java:147-161 | deleting some children of one parent and filtering their keys out of its list keeps the invariant; that parent loses exactly those children |
| Colecoes.CascadeKeepsMirrored | src/main/java/br/ufg/inf/es/saep/sandbox/persistencia/ParecerRepositoryManager.java:303-307 | deleting every child of a parent and then the parent keeps the invariant, and leaves no child pointing to that id |
| Colecoes.AdoptedChildKeys | src/main/java/br/ufg/inf/es/saep/sandbox/persistencia/ParecerRepositoryManager.java:392-402 | a run of fresh children tagged with a childless id gives it exactly the run's keys and changes no other owner's children |
| Colecoes.AdoptKeepsMirrored | src/main/java/br/ufg/inf/es/saep/sandbox/persistencia/ParecerRepositoryManager.java:388-407 | inserting a run of fresh children and then storing a new parent with their keys in order keeps the invariant |
| Colecoes.VisitStep | src/main/java/br/ufg/inf/es/saep/sandbox/persistencia/ParecerRepositoryManager.java:267-271 | visiting one more pending child keeps the cursor's bookkeeping (order visited, children pending, payloads collected) |
| Colecoes.Gather | src/main/java/br/ufg/inf/es/saep/sandbox/persistencia/ParecerRepositoryManager.java:264-271 | the cursor walk returns the payload of every child of the id exactly once, in some order of their keys, so as many items as the id has children |
| Colecoes.PayloadsPermutation | src/main/java/br/ufg/inf/es/saep/sandbox/persistencia/ParecerRepositoryManager.java:264-271 | two cursor orders over the same keys collect the same payloads, each as often, whatever the order |
| Colecoes.RunPayloads | src/main/java/br/ufg/inf/es/saep/sandbox/persistencia/ParecerRepositoryManager.java:389-402 | reading a run of inserts back by its keys in insertion order gives exactly the inserted items, in order |
| Colecoes.ReadBackIsPermutation | src/main/java/br/ufg/inf/es/saep/sandbox/persistencia/ParecerRepositoryManager.java:264-271 | whatever order a read visits the children of a freshly stored parent in, the payloads it returns are exactly the items stored, each as often as stored |
| Colecoes.NoChildrenYet | src/main/java/br/ufg/inf/es/saep/sandbox/persistencia/ParecerRepositoryManager.java:181-186 | under the invariant, an id that names no stored parent has no children yet, so a new parent starts without any |
| ParecerRepositorio.ParecerRoundTrip | src/main/java/br/ufg/inf/es/saep/sandbox/persistencia/ParecerRepositoryManager.java:181-186 | an opinion written without id and notes and rebuilt from its key and its notes is the same opinion |
| ParecerRepositorio.Matching | src/main/java/br/ufg/inf/es/saep/sandbox/persistencia/ParecerRepositoryManager.java:147-152 | the notes a removal selects are notes of that opinion |
| ParecerRepositorio.SweepStep | src/main/java/br/ufg/inf/es/saep/sandbox/persistencia/ParecerRepositoryManager.java:147-160 | visiting one more note keeps the removal's bookkeeping whether or not it matches: what was deleted is exactly the matches among the notes visited |
| ParecerRepositorio.SweepNotes | src/main/java/br/ufg/inf/es/saep/sandbox/persistencia/ParecerRepositoryManager.java:146-161 | after the cursor loop, exactly the matching notes are gone from the note collection and their keys from the opinion's list; everything else stays |
| ParecerRepositorio.ParecerRepositoryManager.constructor | src/main/java/br/ufg/inf/es/saep/sandbox/persistencia/ParecerRepositoryManager.java:71-80 | a repository over an empty store, which satisfies the invariant |
| ParecerRepositorio.ParecerRepositoryManager.ById | src/main/java/br/ufg/inf/es/saep/sandbox/persistencia/ParecerRepositoryManager.java:244-280 | null id raises; unknown id gives null; otherwise the stored fields, the id from the key, and as notes exactly the notes whose back-reference is the id, each once |
| ParecerRepositorio.ParecerRepositoryManager.AdicionaNota | src/main/java/br/ufg/inf/es/saep/sandbox/persistencia/ParecerRepositoryManager.java:95-120 | null id or note, or unknown opinion, raises and changes nothing; otherwise one fresh note tagged with the id is inserted, its key is appended to that opinion's list, nothing else changes, and the invariant holds |
| ParecerRepositorio.ParecerRepositoryManager.RemoveNota | src/main/java/br/ufg/inf/es/saep/sandbox/persistencia/ParecerRepositoryManager.java:130-163 | null arguments or unknown opinion raise and change nothing; otherwise exactly the opinion's notes matching the original are deleted and their keys pulled, the rest stays, no match changes nothing, and the invariant holds |
| ParecerRepositorio.ParecerRepositoryManager.PersisteParecer | src/main/java/br/ufg/inf/es/saep/sandbox/persistencia/ParecerRepositoryManager.java:175-194 | null raises; otherwise the opinion is stored under its id and each initial note is added in list order under consecutive fresh keys, so the opinion has exactly as many notes as supplied, and the invariant holds |
| ParecerRepositorio.ParecerRepositoryManager.AtualizaFundamentacao | src/main/java/br/ufg/inf/es/saep/sandbox/persistencia/ParecerRepositoryManager.java:214-234 | null arguments or unknown opinion raise and change nothing; otherwise only that opinion's grounding text changes, to the new text |
| ParecerRepositorio.ParecerRepositoryManager.RemoveParecer | src/main/java/br/ufg/inf/es/saep/sandbox/persistencia/ParecerRepositoryManager.java:291-308 | null or unknown id raises and changes nothing; otherwise every note of the opinion and the opinion are deleted, nothing else changes, and the invariant holds |
| ParecerRepositorio.ParecerRepositoryManager.RadocById | src/main/java/br/ufg/inf/es/saep/sandbox/persistencia/ParecerRepositoryManager.java:319-354 | null id raises; unknown id gives null; otherwise the base year, the id from the key, and as reports exactly the reports whose back-reference is the id, each once |
| ParecerRepositorio.ParecerRepositoryManager.PersisteRadoc | src/main/java/br/ufg/inf/es/saep/sandbox/persistencia/ParecerRepositoryManager.java:374-410 | null raises; otherwise one report per input report is inserted tagged with the dossier id, the dossier is stored with their keys in input order, the dossier id is returned, and the invariant holds |
| ParecerRepositorio.ParecerRepositoryManager.RemoveRadoc | src/main/java/br/ufg/inf/es/saep/sandbox/persistencia/ParecerRepositoryManager.java:427-445 | null or unknown id raises and changes nothing; otherwise every report of the dossier and the dossier are deleted, opinions are untouched, and the invariant holds |
| ResolucaoRepositorio.AoSegundo | src/main/java/br/ufg/inf/es/saep/sandbox/persistencia/ResolucaoRepositoryManager.java:54-59 | the Gson built here has no date format of its own, so a date is written to the second: the result is a whole second, at most the date and less than a second before it, and equals the date exactly when the date already was a whole second |
| ResolucaoRepositorio.ResolucaoRoundTrip | src/main/java/br/ufg/inf/es/saep/sandbox/persistencia/ResolucaoRepositoryManager.java:118-121 | a resolution stored under its id and read back with the key as id is the same resolution, rules included, but with its approval date cut to the second; it is identical exactly when that date was a whole second |
| ResolucaoRepositorio.ResolucaoReescrita | src/main/java/br/ufg/inf/es/saep/sandbox/persistencia/ResolucaoRepositoryManager.java:118-121 | a resolution read back from a document and stored again gives that same document: the date is cut only once |
| ResolucaoRepositorio.TipoRoundTrip | src/main/java/br/ufg/inf/es/saep/sandbox/persistencia/ResolucaoRepositoryManager.java:185-188 | a type stored under its code and read back with the key as code is the same type |
| ResolucaoRepositorio.ResolucaoRepositoryManager.constructor | src/main/java/br/ufg/inf/es/saep/sandbox/persistencia/ResolucaoRepositoryManager.java:51-60 | a repository starts with no resolutions and no types |
| ResolucaoRepositorio.ResolucaoRepositoryManager.ById | src/main/java/br/ufg/inf/es/saep/sandbox/persistencia/ResolucaoRepositoryManager.java:73-93 | null id raises; unknown id gives null, not an error; otherwise the stored resolution with the key as id |
| ResolucaoRepositorio.ResolucaoRepositoryManager.Persiste | src/main/java/br/ufg/inf/es/saep/sandbox/persistencia/ResolucaoRepositoryManager.java:112-125 | null raises and changes nothing; otherwise the resolution is stored under its id (its date to the second), the id is returned, and types are untouched |
| ResolucaoRepositorio.ResolucaoRepositoryManager.Remove | src/main/java/br/ufg/inf/es/saep/sandbox/persistencia/ResolucaoRepositoryManager.java:138-151 | null raises; otherwise the answer is true iff a resolution had that id, which is then gone, and an unknown id changes nothing |
| ResolucaoRepositorio.ResolucaoRepositoryManager.Resolucoes | src/main/java/br/ufg/inf/es/saep/sandbox/persistencia/ResolucaoRepositoryManager.java:159-171 | the list holds every stored resolution id exactly once and nothing else, so its length is the number of resolutions |
| ResolucaoRepositorio.ResolucaoRepositoryManager.PersisteTipo | src/main/java/br/ufg/inf/es/saep/sandbox/persistencia/ResolucaoRepositoryManager.java:180-190 | null raises and changes nothing; otherwise the type is stored under its code and resolutions are untouched |
| ResolucaoRepositorio.ResolucaoRepositoryManager.RemoveTipo | src/main/java/br/ufg/inf/es/saep/sandbox/persistencia/ResolucaoRepositoryManager.java:200-208 | null raises; otherwise the type is deleted whether or not a resolution uses it, and an unknown code changes nothing |
| ResolucaoRepositorio.ResolucaoRepositoryManager.TipoPeloCodigo | src/main/java/br/ufg/inf/es/saep/sandbox/persistencia/ResolucaoRepositoryManager.java:218-237 | null code raises; unknown code gives null; otherwise the stored type with the key as code |
| ResolucaoRepositorio.ResolucaoRepositoryManager.TiposPeloNome | src/main/java/br/ufg/inf/es/saep/sandbox/persistencia/ResolucaoRepositoryManager.java:254-270 | null name raises; otherwise one record per stored type, each type exactly once, whatever the name |
| Cenarios.AddedNoteMatchesItself | src/test/java/br/ufg/inf/es/saep/sandbox/persistencia/ParecerRepositoryTest.java:63-70 | a note added under a fresh key is selected by a removal with its own original, besides the notes selected before |
| Cenarios.PersisteParecerEntaoLe | src/test/java/br/ufg/inf/es/saep/sandbox/persistencia/ParecerRepositoryTest.java:17-25 | a stored opinion reads back with its own id and fields and with exactly the notes it was given, each as often as given (a permutation of them, in the store's order) |
| Cenarios.AdicionaNotaUmaAMais | src/test/java/br/ufg/inf/es/saep/sandbox/persistencia/ParecerRepositoryTest.java:27-41 | adding a note makes the next read return exactly one note more |
| Cenarios.RemoveNotaMenosAsIguais | src/test/java/br/ufg/inf/es/saep/sandbox/persistencia/ParecerRepositoryTest.java:69-72 | removing by an original makes the next read return exactly as many notes fewer as matched it |
| Cenarios.AdicionaERemoveNota | src/test/java/br/ufg/inf/es/saep/sandbox/persistencia/ParecerRepositoryTest.java:48-73 | add then remove by the note's own original: one note more in between; at the end, as many fewer than at the start as earlier notes matched, so the count is back where it was iff none did |
| Cenarios.AtualizaFundamentacaoEntaoLe | src/test/java/br/ufg/inf/es/saep/sandbox/persistencia/ParecerRepositoryTest.java:80-93 | after the update the opinion reads back with the new grounding text, every other stored field as before, and as many notes as it had |
| Cenarios.RemoveParecerEntaoNulo | src/test/java/br/ufg/inf/es/saep/sandbox/persistencia/ParecerRepositoryTest.java:95-107 | after a removal the opinion reads as null |
| Cenarios.PersisteRadocEntaoLe | src/test/java/br/ufg/inf/es/saep/sandbox/persistencia/ParecerRepositoryTest.java:109-117 | a stored dossier reads back with its id, base year and exactly the reports it was given, each as often as given (a permutation of them, in the store's order) |
| Cenarios.RemoveRadocEntaoNulo | src/test/java/br/ufg/inf/es/saep/sandbox/persistencia/ParecerRepositoryTest.java:119-131 | after a removal the dossier reads as null |
| Cenarios.ResolucaoCicloDeVida | src/test/java/br/ufg/inf/es/saep/sandbox/persistencia/ResolucaoRepositoryTest.java:34-47 | a stored resolution reads back with its approval date cut to the second, so unchanged when that date was a whole second; the first removal answers true, the read then gives null, a second removal answers false |
| Cenarios.TipoCicloDeVida | src/test/java/br/ufg/inf/es/saep/sandbox/persistencia/ResolucaoRepositoryTest.java:72-84 | a stored type reads back by its code; after removal it reads as null |
| Cenarios.TresTiposListados | src/test/java/br/ufg/inf/es/saep/sandbox/persistencia/ResolucaoRepositoryTest.java:59-70 | three types with distinct codes stored in an empty repository are all returned by a name search, whatever the name |

## Left out

- The document-store client, connections, collection handles and the JSON
  (de)serialisation are not modelled. Documents are Dafny datatypes, and
  each store call is its effect on a map. The `tipo` discriminator of the
  item serialiser is what `CompareAvaliavel` tests.
- `limparBancoDeDados` (drops the database; used only by the tests) is not
  modelled.
- Store order is not modelled. Reads and listings return children and
  records in some order: the model picks them one at a time from the
  pending set, and states which order it chose as a ghost result.
- Object ids come from a counter. The model does not capture the store's
  timestamps or randomness.
- Inserting a document whose key already exists raises in the store, and
  the code has no check of its own. `Persiste`, `PersisteTipo`,
  `PersisteParecer` and `PersisteRadoc` instead require that the key is not
  in use. The crash halfway through `persisteRadoc` (reports inserted,
  dossier rejected) is therefore not modelled.
- The multi-step writes are not atomic, and concurrent callers could
  interleave with them. The model is sequential and has no crash windows.
- `RemoveNota` runs its cursor loop (`SweepNotes`) over the collection
  values and writes both collections back once at the end, not after each
  match. The final state is the same. What differs is only the
  intermediate state a crash or a concurrent reader could observe.
- `byId(id) == null` as an existence test in `adicionaNota`, `removeNota`
  and `removeParecer` is modelled as membership of the id in the opinion
  collection. This is what that read decides.
- Fields inside the stored objects (ids, names, the `relatos` and `notas`
  lists, list elements) are never null in the model. The code throws a
  null-pointer exception on a null report list in `persisteRadoc`, and
  treats a null note list in `persisteParecer` like an empty one, which is
  what an empty `seq` gives.
- `Relato.equals` is not part of this model. It is taken to be structural
  equality of type and values. If the class did not override it, the
  comparison would be identity and a stored report entry would never match
  a freshly parsed one. The members below rest on the structural reading.
- Avaliacao.CompareAvaliavel: its report-entry clause (a stored report entry
  equals exactly the same report entry) assumes structural `Relato.equals`.
- Avaliacao.CompareIsEquivalence: reflexivity for report entries assumes
  structural `Relato.equals`.
- Cenarios.AddedNoteMatchesItself: for a report-entry original, the new
  note matches itself only under structural `Relato.equals`.
- Cenarios.AdicionaERemoveNota: for a report-entry original, the count
  after the removal relies on the new note matching itself, so on
  structural `Relato.equals`.
- ParecerRepositorio.ParecerRepositoryManager.constructor: the model starts
  from an empty store. The Java constructor attaches to the existing
  database and clears nothing; only the tests empty it. So `Valid()` and
  everything proved from it cover stores built from nothing by the modelled
  operations. They do not cover a store left inconsistent by earlier runs,
  for example reports left without a listing dossier by a `persisteRadoc`
  whose dossier insert was rejected.
- ResolucaoRepositorio.ResolucaoRepositoryManager.constructor: the model
  starts from an empty store. The Java constructor attaches to the existing
  database and clears nothing. The resolution operations assume no
  invariant, so only the starting contents differ.
- A value's numeric payload is a `real` compared with `==`. IEEE float
  details (NaN, signed zero, rounding through JSON) are not modelled. The
  approval date of a resolution is an `int` count of milliseconds.
- Reading a type by name returns records without their code. That is the
  code's behaviour, since it never copies the key into `id`.
- Cenarios.AdicionaERemoveNota: the final count equals the start count only
  when no earlier note matched the original. The test's expectation of
  exactly one fewer holds only under that condition, so the contract states
  the general count instead.
- ResolucaoRepositorio.AoSegundo: Gson's default date text is local
  wall-clock time. The model treats it as the same instant cut to the
  second. A read under another time zone than the write, or a date in the
  repeated hour when daylight saving time ends, can come back shifted by
  whole hours; this is not modelled.
- ResolucaoRepositorio.ResolucaoRoundTrip: the round trip holds up to the
  second only under the time-zone assumption stated for `AoSegundo`.
- Cenarios.ResolucaoCicloDeVida: the read-back is exact up to the second only
  under the same time-zone assumption.
