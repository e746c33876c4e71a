/** Normalisation of market symbol names (`normalize_symbol_name`). */
module Symbols {

  /** Upper-casing of one ASCII character; any other character is kept. */
  function Upper(c: char): char
  {
    if 'a' <= c <= 'z' then (c as int - 32) as char else c
  }

  function UpperAll(s: string): string
  {
    seq(|s|, i requires 0 <= i < |s| => Upper(s[i]))
  }

  /** The pair part of a symbol: a 7-character name that starts with a lower-case
      `t` loses that `t`; any other name is kept whole. */
  function PairName(sym: string): string
  {
    if |sym| == 7 && sym[0] == 't' then sym[1..] else sym
  }

  /** The marker `t` followed by the upper-cased pair name. */
  function Normalize(sym: string): (r: string)
    ensures |r| > 0 && r[0] == 't'
    ensures |r| == if |sym| == 7 && sym[0] == 't' then 7 else |sym| + 1
    ensures r[1..] == UpperAll(sym[|sym| + 1 - |r|..])
    ensures forall i :: 1 <= i < |r| ==> !('a' <= r[i] <= 'z')
  {
    "t" + UpperAll(PairName(sym))
  }

  lemma UpperAllIdempotent(s: string)
    ensures UpperAll(UpperAll(s)) == UpperAll(s)
  {
  }

  /** Normalising a normalised name changes nothing exactly when the first result
      has 7 characters, that is for 6-character names and for 7-character names
      that start with `t`. */
  lemma {:induction false} NormalizeIdempotentIff(sym: string)
    ensures Normalize(Normalize(sym)) == Normalize(sym) <==> |Normalize(sym)| == 7
    ensures |Normalize(sym)| == 7 <==> |sym| == 6 || (|sym| == 7 && sym[0] == 't')
  {
    var n := Normalize(sym);
    if |n| == 7 {
      UpperAllIdempotent(n[1..]);
      assert PairName(n) == n[1..];
      assert n == "t" + n[1..];
    }
  }

  /** An 8-character name is prefixed once more on each normalisation. */
  lemma NormalizeNotIdempotentExample()
    ensures Normalize("abcdefgh") == "tABCDEFGH"
    ensures Normalize(Normalize("abcdefgh")) == "tTABCDEFGH"
  {
    var u := UpperAll("abcdefgh");
    assert u[0] == 'A' && u[1] == 'B' && u[2] == 'C' && u[3] == 'D';
    assert u[4] == 'E' && u[5] == 'F' && u[6] == 'G' && u[7] == 'H';
    assert u == "ABCDEFGH";
    assert PairName("abcdefgh") == "abcdefgh";
    var v := UpperAll("tABCDEFGH");
    assert v[0] == 'T' && v[1] == 'A' && v[2] == 'B' && v[3] == 'C' && v[4] == 'D';
    assert v[5] == 'E' && v[6] == 'F' && v[7] == 'G' && v[8] == 'H';
    assert v == "TABCDEFGH";
    assert PairName("tABCDEFGH") == "tABCDEFGH";
  }
}
