/** utils/message_to_users.py, get_word_declension: "N слово / слова / слов", the Russian plural
    of "word" agreeing with a count. Python's `%` with a positive divisor never returns a negative
    remainder, exactly as Dafny's `%` on `int`, so the remainders below are the source's. */
module Declension {
  import Text

  /** The three grammatical numbers the plural rule distinguishes. */
  datatype Form = Singular | Paucal | Plural

  /** The form a count takes: 1, 21, 31, … singular; 2–4, 22–24, … paucal; everything else plural. */
  function FormOf(count: int): (f: Form)
    ensures f == Singular <==> count % 10 == 1 && count % 100 != 11
    ensures f == Paucal <==> 2 <= count % 10 <= 4 && !(12 <= count % 100 <= 14)
  {
    if count % 10 == 1 && count % 100 != 11 then Singular
    else if 2 <= count % 10 <= 4 && !(12 <= count % 100 <= 14) then Paucal
    else Plural
  }

  /** The word "слово" in the given form. */
  function WordForm(f: Form): string
  {
    match f
    case Singular => "слово"
    case Paucal => "слова"
    case Plural => "слов"
  }

  /** get_word_declension. */
  function WordDeclension(count: int): (r: string)
    ensures count % 10 == 1 && count % 100 != 11 ==> r == Text.IntToString(count) + " слово"
    ensures 2 <= count % 10 <= 4 && !(12 <= count % 100 <= 14) ==> r == Text.IntToString(count) + " слова"
    ensures !(count % 10 == 1 && count % 100 != 11) && !(2 <= count % 10 <= 4 && !(12 <= count % 100 <= 14))
            ==> r == Text.IntToString(count) + " слов"
  {
    Text.IntToString(count) + " " + WordForm(FormOf(count))
  }

  /** Counts ending in 11–14 are never singular or paucal. */
  lemma TeensArePlural(count: int)
    requires 11 <= count % 100 <= 14
    ensures WordDeclension(count) == Text.IntToString(count) + " слов"
  {
    Mod10OfMod100(count);
  }

  /** The form depends only on the last two digits. */
  lemma FormByLastTwoDigits(count: int)
    ensures FormOf(count) == FormOf(count % 100)
  {
    Mod10OfMod100(count);
  }

  /** Examples of each branch, including zero and a negative count (Python's −1 % 10 is 9). */
  lemma DeclensionExamples()
    ensures WordDeclension(1) == "1 слово"
    ensures WordDeclension(21) == "21 слово"
    ensures WordDeclension(3) == "3 слова"
    ensures WordDeclension(11) == "11 слов"
    ensures WordDeclension(0) == "0 слов"
    ensures FormOf(-1) == Plural && FormOf(-9) == Singular
  {
    assert Text.IntToString(1) == "1";
    assert Text.IntToString(3) == "3";
    assert Text.IntToString(0) == "0";
    assert Text.IntToString(11) == Text.NatToString(1) + [Text.DigitChar(1)];
    assert Text.IntToString(21) == Text.NatToString(2) + [Text.DigitChar(1)];
  }

  /** The count reads back from the text: the part before the first space parses to it. */
  lemma CountReadsBack(count: int)
    ensures Text.Split(WordDeclension(count), " ") == [Text.IntToString(count), WordForm(FormOf(count))]
    ensures Text.ParseInt(Text.Split(WordDeclension(count), " ")[0]) == count
  {
    var digits := Text.IntToString(count);
    var word := WordForm(FormOf(count));
    assert ' ' !in digits by {
      if count < 0 {
        assert digits == [digits[0]] + digits[1..];
      }
    }
    Text.SplitAfterPrefix(digits, " ", word);
    FreeOfSpace(word);
    Text.SplitFree(word, " ");
    Text.ParseIntToString(count);
  }

  lemma {:induction false} FreeOfSpace(s: string)
    requires ' ' !in s
    ensures Text.Free(s, " ")
  {
    if |s| >= 1 {
      assert s[..1] == [s[0]];
      FreeOfSpace(s[1..]);
    }
  }

  /** (n % 100) % 10 == n % 10. */
  lemma Mod10OfMod100(n: int)
    ensures (n % 100) % 10 == n % 10
  {
    var q := n / 100;
    assert n == 100 * q + n % 100;
    assert n % 100 == n - 10 * (10 * q);
    ModShift(n % 100, 10 * q);
  }

  lemma ModShift(a: int, k: int)
    ensures (a + 10 * k) % 10 == a % 10
  {
  }
}
