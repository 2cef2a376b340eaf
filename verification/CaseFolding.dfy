/**
 * Lower-casing of a text as the code's `to_lowercase` does it: character by character, to one or
 * more characters, except for a capital sigma, whose small form depends on what stands around it.
 */
module CaseFolding {

  /** Lower case of single characters, and which characters decide where a word ends. */
  datatype Alphabet = Alphabet(low: char -> string, cased: char -> bool, ignorable: char -> bool)

  const SIGMA := '\U{3A3}'
  const SMALL_SIGMA := '\U{3C3}'
  const FINAL_SIGMA := '\U{3C2}'

  /** The next character that is not to be ignored is a cased one. */
  predicate CasedNext(al: Alphabet, s: string) {
    s != "" && if al.ignorable(s[0]) then CasedNext(al, s[1..]) else al.cased(s[0])
  }

  predicate CasedBefore(al: Alphabet, s: string) {
    s != "" &&
    var last := s[|s| - 1];
    if al.ignorable(last) then CasedBefore(al, s[..|s| - 1]) else al.cased(last)
  }

  function LowerAt(al: Alphabet, before: string, c: char, after: string): string {
    if c != SIGMA then al.low(c)
    else if CasedBefore(al, before) && !CasedNext(al, after) then [FINAL_SIGMA]
    else [SMALL_SIGMA]
  }

  /** The lower case of `s` where it stands. */
  function FoldIn(al: Alphabet, before: string, s: string, after: string): string
    decreases |s|
  {
    if s == "" then ""
    else LowerAt(al, before, s[0], s[1..] + after) + FoldIn(al, before + [s[0]], s[1..], after)
  }

  function Fold(al: Alphabet, s: string): string {
    FoldIn(al, "", s, "")
  }

  function LowSize(al: Alphabet, s: string): nat {
    if s == "" then 0 else (if s[0] == SIGMA then 1 else |al.low(s[0])|) + LowSize(al, s[1..])
  }

  /** How long a text gets does not depend on where it stands. */
  lemma {:induction false} FoldSize(al: Alphabet, before: string, s: string, after: string)
    ensures |FoldIn(al, before, s, after)| == LowSize(al, s)
    decreases |s|
  {
    if s != "" {
      FoldSize(al, before + [s[0]], s[1..], after);
    }
  }

  lemma {:induction false} FoldSplit(al: Alphabet, before: string, a: string, b: string, after: string)
    ensures FoldIn(al, before, a + b, after) == FoldIn(al, before, a, b + after) + FoldIn(al, before + a, b, after)
    decreases |a|
  {
    if a == "" {
      assert a + b == b && before + a == before;
    } else {
      assert (a + b)[0] == a[0] && (a + b)[1..] == a[1..] + b;
      assert a[1..] + b + after == a[1..] + (b + after);
      assert before + [a[0]] + a[1..] == before + a;
      FoldSplit(al, before + [a[0]], a[1..], b, after);
    }
  }

  // ---- Bars ------------------------------------------------------------------------------------

  /** A character that words do not reach across. */
  predicate Bar(al: Alphabet, c: char) {
    !al.cased(c) && !al.ignorable(c) && c != SIGMA
  }

  lemma {:induction false} NextStops(al: Alphabet, s: string, c: char, after: string)
    requires Bar(al, c)
    ensures CasedNext(al, s + ([c] + after)) == CasedNext(al, s)
    decreases |s|
  {
    if s == "" {
      assert s + ([c] + after) == [c] + after;
    } else {
      assert (s + ([c] + after))[1..] == s[1..] + ([c] + after);
      NextStops(al, s[1..], c, after);
    }
  }

  lemma {:induction false} BeforeStops(al: Alphabet, before: string, c: char, s: string)
    requires Bar(al, c)
    ensures CasedBefore(al, before + [c] + s) == CasedBefore(al, s)
    decreases |s|
  {
    var all := before + [c] + s;
    if s == "" {
      assert all[|all| - 1] == c;
    } else {
      assert all[..|all| - 1] == before + [c] + s[..|s| - 1];
      BeforeStops(al, before, c, s[..|s| - 1]);
    }
  }

  lemma {:induction false} FoldBefore(al: Alphabet, before: string, s: string, c: char, after: string)
    requires Bar(al, c)
    ensures FoldIn(al, before, s, [c] + after) == FoldIn(al, before, s, "")
    decreases |s|
  {
    if s != "" {
      NextStops(al, s[1..], c, after);
      assert s[1..] + "" == s[1..];
      FoldBefore(al, before + [s[0]], s[1..], c, after);
    }
  }

  lemma {:induction false} FoldAfter(al: Alphabet, before: string, c: char, done: string, s: string, after: string)
    requires Bar(al, c)
    ensures FoldIn(al, before + [c] + done, s, after) == FoldIn(al, done, s, after)
    decreases |s|
  {
    if s != "" {
      BeforeStops(al, before, c, done);
      assert before + [c] + done + [s[0]] == before + [c] + (done + [s[0]]);
      FoldAfter(al, before, c, done + [s[0]], s[1..], after);
    }
  }

  /** What stands on two sides of a bar is folded independently. */
  lemma FoldBar(al: Alphabet, a: string, c: char, b: string)
    requires Bar(al, c)
    ensures Fold(al, a + [c] + b) == Fold(al, a) + al.low(c) + Fold(al, b)
  {
    FoldSplit(al, "", a + [c], b, "");
    FoldSplit(al, "", a, [c], b);
    assert "" + a == a && "" + (a + [c]) == a + [c] && b + "" == b;
    FoldBefore(al, "", a, c, b);
    FoldOne(al, a, c, b);
    assert a + [c] + "" == a + [c];
    FoldAfter(al, a, c, "", b, "");
  }

  lemma FoldOne(al: Alphabet, before: string, c: char, after: string)
    requires c != SIGMA
    ensures FoldIn(al, before, [c], after) == al.low(c)
  {
    assert [c][1..] == "";
    assert FoldIn(al, before + [c], "", after) == "";
    assert al.low(c) + "" == al.low(c);
  }

  // ---- Without sigma ---------------------------------------------------------------------------

  /** Without a capital sigma a text folds alike wherever it stands. */
  lemma {:induction false} FoldAnywhere(al: Alphabet, before: string, s: string, after: string, other: string,
                                        rest: string)
    requires SIGMA !in s
    ensures FoldIn(al, before, s, after) == FoldIn(al, other, s, rest)
    decreases |s|
  {
    if s != "" {
      assert s[0] in s;
      FoldAnywhere(al, before + [s[0]], s[1..], after, other + [s[0]], rest);
    }
  }

  lemma FoldParts(al: Alphabet, a: string, b: string)
    ensures Fold(al, a + b) == FoldIn(al, "", a, b) + FoldIn(al, a, b, "")
    ensures SIGMA !in a ==> FoldIn(al, "", a, b) == Fold(al, a)
    ensures SIGMA !in b ==> FoldIn(al, a, b, "") == Fold(al, b)
    ensures |FoldIn(al, "", a, b)| == |Fold(al, a)| && |FoldIn(al, a, b, "")| == |Fold(al, b)|
  {
    FoldSplit(al, "", a, b, "");
    assert "" + a == a && b + "" == b;
    FoldSize(al, "", a, b);
    FoldSize(al, "", a, "");
    FoldSize(al, a, b, "");
    FoldSize(al, "", b, "");
    if SIGMA !in a {
      FoldAnywhere(al, "", a, b, "", "");
    }
    if SIGMA !in b {
      FoldAnywhere(al, a, b, "", "", "");
    }
  }

  // ---- Marks -----------------------------------------------------------------------------------

  /** A character that folds to itself and that nothing else folds to or into. */
  ghost predicate Mark(al: Alphabet, c: char) {
    c != SIGMA && c != SMALL_SIGMA && c != FINAL_SIGMA && al.low(c) == [c] && forall x | x != c :: c !in al.low(x)
  }

  lemma {:induction false} MarkStays(al: Alphabet, before: string, s: string, after: string, c: char)
    requires Mark(al, c)
    ensures c in FoldIn(al, before, s, after) <==> c in s
    decreases |s|
  {
    if s != "" {
      MarkStays(al, before + [s[0]], s[1..], after, c);
      assert c in s <==> c == s[0] || c in s[1..];
    }
  }

  /** Every character folds to something. */
  ghost predicate Lasting(al: Alphabet) {
    forall c :: al.low(c) != ""
  }

  lemma FoldEmpty(al: Alphabet, s: string)
    requires Lasting(al)
    ensures Fold(al, s) == "" <==> s == ""
  {
    FoldSize(al, "", s, "");
  }
}
