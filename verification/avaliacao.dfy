/** Value-level equality of evaluable items, used by note removal to find
    the notes whose stored original matches a given item. */
module Avaliacao {
  import opened Dominio

  /** Equality of two values as the repository decides it. The text check
      is computed first and then discarded: the verdict is taken from the
      boolean and numeric payloads alone. */
  function EqualValorAvaliavel(notaOriginal: Valor, original: Valor): (equal: bool)
    ensures equal <==> notaOriginal.(text := None) == original.(text := None)
  {
    var textVerdict :=
      !(notaOriginal.text.Some? && original.text.Some? && notaOriginal.text.value != original.text.value);
    var equalValor := notaOriginal.boolean == original.boolean && notaOriginal.number == original.number;
    equalValor
  }

  /** Compares the original item stored in a note with a given one. The
      variant is chosen by the stored side: with a `tipo` field both sides
      are read as report entries and compared field by field; without it
      both are read as scores. A report entry read as a score has no
      attribute name, and a score read as a report entry has no `tipo`, so
      items of different variants never compare equal. */
  function CompareAvaliavel(docNotaOriginal: Avaliavel, docOriginal: Avaliavel): (equal: bool)
    ensures equal ==> docNotaOriginal.HasTipo() == docOriginal.HasTipo()
    ensures docNotaOriginal.HasTipo() ==> (equal <==> docNotaOriginal == docOriginal)
    ensures !docNotaOriginal.HasTipo() && docOriginal.AvPontuacao? ==>
      (equal <==> docNotaOriginal.pontuacao.atributo == docOriginal.pontuacao.atributo
                  && docNotaOriginal.pontuacao.valor.(text := None) == docOriginal.pontuacao.valor.(text := None))
  {
    if docNotaOriginal.HasTipo() then
      docOriginal.AvRelato? && docNotaOriginal.relato == docOriginal.relato
    else
      docOriginal.AvPontuacao?
      && docNotaOriginal.pontuacao.atributo == docOriginal.pontuacao.atributo
      && EqualValorAvaliavel(docNotaOriginal.pontuacao.valor, docOriginal.pontuacao.valor)
  }

  /** The value equality that the overwritten text check at
      ParecerRepositoryManager.java:488-492 was evidently meant to give:
      equal boolean and numeric payloads, and equal texts whenever both
      sides carry one. */
  predicate IntendedValorEqual(a: Valor, b: Valor)
  {
    && a.boolean == b.boolean
    && a.number == b.number
    && (a.text.Some? && b.text.Some? ==> a.text.value == b.text.value)
  }

  /** The text payloads never influence the verdict. */
  lemma EqualValorIgnoresText(a: Valor, b: Valor, s: Option<string>, t: Option<string>)
    ensures EqualValorAvaliavel(a.(text := s), b.(text := t)) == EqualValorAvaliavel(a, b)
  {
  }

  /** The repository's equality accepts everything the intended one does,
      and differs from it exactly on values whose texts are both present
      and differ. */
  lemma EqualValorVersusIntended(a: Valor, b: Valor)
    ensures IntendedValorEqual(a, b) ==> EqualValorAvaliavel(a, b)
    ensures EqualValorAvaliavel(a, b) && !IntendedValorEqual(a, b) <==>
      EqualValorAvaliavel(a, b) && a.text.Some? && b.text.Some? && a.text.value != b.text.value
  {
  }

  /** Two scores whose values differ only in their texts are reported
      equal, so removing a note by one of them removes the other. */
  lemma TextMismatchIsMasked(atributo: string, x: string, y: string, flag: bool, n: real)
    requires x != y
    ensures var a := Valor(Some(x), flag, n);
            var b := Valor(Some(y), flag, n);
            !IntendedValorEqual(a, b)
            && CompareAvaliavel(AvPontuacao(Pontuacao(atributo, a)), AvPontuacao(Pontuacao(atributo, b)))
  {
  }

  /** Item comparison is an equivalence relation, so the set of notes a
      removal selects does not depend on which side is stored. */
  lemma CompareIsEquivalence(x: Avaliavel, y: Avaliavel, z: Avaliavel)
    ensures CompareAvaliavel(x, x)
    ensures CompareAvaliavel(x, y) ==> CompareAvaliavel(y, x)
    ensures CompareAvaliavel(x, y) && CompareAvaliavel(y, z) ==> CompareAvaliavel(x, z)
  {
  }
}
