/**
  The tables of mms_strings.c that pair protocol words with numbers. Their contents are data; what the
  codecs need of them is that no word (whatever its case) and no number occurs twice.
 */
module StringTable {
  import opened Wrappers
  import opened Text

  datatype Row = Row(word: string, number: int)

  type Table = seq<Row>

  /** number_to_cstr: the word for a number, if the table has it. */
  function WordOf(t: Table, n: int): Option<string> {
    if t == [] then None
    else if t[0].number == n then Some(t[0].word)
    else WordOf(t[1..], n)
  }

  /** string_to_number: the number for a word, ignoring case, or -1. */
  function NumberOf(t: Table, w: string): int {
    if t == [] then -1
    else if EqNoCase(w, t[0].word) then t[0].number
    else NumberOf(t[1..], w)
  }

  ghost predicate Lawful(t: Table) {
    && (forall i :: 0 <= i < |t| ==> t[i].number >= 0 && t[i].word != "")
    && (forall i, j :: 0 <= i < |t| && 0 <= j < |t| && i != j ==>
          t[i].number != t[j].number && !EqNoCase(t[i].word, t[j].word))
  }

  lemma {:induction false} WordIsInTable(t: Table, n: int) returns (i: nat)
    requires WordOf(t, n).Some?
    ensures i < |t| && t[i] == Row(WordOf(t, n).value, n)
  {
    if t[0].number == n {
      i := 0;
    } else {
      var j := WordIsInTable(t[1..], n);
      i := j + 1;
    }
  }

  lemma {:induction false} NumberFound(t: Table, w: string, i: nat)
    requires Lawful(t) && i < |t| && EqNoCase(w, t[i].word)
    ensures NumberOf(t, w) == t[i].number
  {
    if i > 0 {
      assert !EqNoCase(t[i].word, t[0].word);
      assert Lawful(t[1..]) by {
        forall a, b | 0 <= a < |t| - 1 && 0 <= b < |t| - 1 && a != b
          ensures t[1..][a].number != t[1..][b].number && !EqNoCase(t[1..][a].word, t[1..][b].word)
        {
          assert t[1..][a] == t[a + 1] && t[1..][b] == t[b + 1];
        }
      }
      NumberFound(t[1..], w, i - 1);
    }
  }

  lemma {:induction false} NumberMissing(t: Table, w: string)
    requires forall i :: 0 <= i < |t| ==> !EqNoCase(w, t[i].word)
    ensures NumberOf(t, w) == -1
  {
    if t != [] {
      NumberMissing(t[1..], w);
    }
  }

  /** Looking a number up and its word back returns the number. */
  lemma WordRoundTrip(t: Table, n: int)
    requires Lawful(t) && WordOf(t, n).Some?
    ensures NumberOf(t, WordOf(t, n).value) == n
  {
    var i := WordIsInTable(t, n);
    NumberFound(t, WordOf(t, n).value, i);
  }
}
