/**
 * How keys compare: what lower-casing does to a variant, and which attempts of which claims ask for the
 * same key up to case.
 */
module KeyFolding {
  import opened CaseFolding
  import opened Decimal
  import opened StableLayout
  import opened Wrappers

  /** What lower-casing does to the characters that keys are built with. */
  ghost predicate Casing(al: Alphabet) {
    && Lasting(al) && Mark(al, '.') && Mark(al, '/') && Bar(al, '/')
    && (forall c | IsDigit(c) || c == '_' :: Bar(al, c) && al.low(c) == [c])
    && (forall c | c in "dup" :: al.low(c) == [c])
    && (forall c :: SIGMA !in al.low(c))
  }

  // ---- Folding a variant -----------------------------------------------------------------------

  lemma {:induction false} DigitsFold(al: Alphabet, digits: string, rest: string)
    requires Casing(al) && forall c | c in digits :: IsDigit(c)
    ensures Fold(al, digits + rest) == digits + Fold(al, rest)
    decreases |digits|
  {
    if digits == "" {
      assert "" + rest == rest;
    } else {
      assert digits[0] in digits;
      DigitsFold(al, digits[1..], rest);
      assert digits + rest == "" + [digits[0]] + (digits[1..] + rest);
      FoldBar(al, "", digits[0], digits[1..] + rest);
    }
  }

  lemma DupLetters(al: Alphabet)
    requires Casing(al)
    ensures Fold(al, "dup") == "dup"
  {
    FoldSplit(al, "", "d", "up", "");
    FoldSplit(al, "d", "u", "p", "");
    assert "d" + "up" == "dup" && "u" + "p" == "up";
    FoldOne(al, "", 'd', "up");
    FoldOne(al, "d", 'u', "p");
    FoldOne(al, "du", 'p', "");
  }

  lemma DupParts(stem: string, digits: string, tail: string)
    requires digits != ""
    ensures stem + "__dup" + digits + tail == stem + ['_'] + ("" + ['_'] + ("dup" + [digits[0]] + (digits[1..] + tail)))
  {
    assert "__dup" == ['_'] + ['_'] + "dup";
    assert digits == [digits[0]] + digits[1..];
  }

  lemma DupJoins(stem: string, digits: string, tail: string)
    requires digits != ""
    ensures stem + ['_'] + ("" + ['_'] + ("dup" + [digits[0]] + (digits[1..] + tail))) == stem + "__dup" + digits + tail
  {
    DupParts(stem, digits, tail);
  }

  lemma DupFolds(al: Alphabet, stem: string, n: nat, tail: string)
    requires Casing(al)
    ensures Fold(al, stem + "__dup" + Numeral(n) + tail) == Fold(al, stem) + "__dup" + Numeral(n) + Fold(al, tail)
  {
    var digits := Numeral(n);
    assert digits[0] in digits;
    var rest := digits[1..] + tail;
    DupParts(stem, digits, tail);
    FoldBar(al, stem, '_', "" + ['_'] + ("dup" + [digits[0]] + rest));
    FoldBar(al, "", '_', "dup" + [digits[0]] + rest);
    FoldBar(al, "dup", digits[0], rest);
    DupLetters(al);
    DigitsFold(al, digits[1..], tail);
    DupJoins(Fold(al, stem), digits, Fold(al, tail));
  }

  /** Stem and dotted extension of a key. */
  function Stem(key: string): string {
    SplitKey(key).0
  }

  function Dotted(key: string): string {
    Suffix(SplitKey(key).1)
  }

  lemma VariantFolds(al: Alphabet, key: string, n: nat)
    requires Casing(al) && n > 1
    ensures Fold(al, Variant(key, n)) == Fold(al, Stem(key)) + "__dup" + Numeral(n) + Fold(al, Dotted(key))
  {
    VariantParts(Stem(key), n, SplitKey(key).1);
    DupFolds(al, Stem(key), n, Dotted(key));
  }

  lemma MiddleEqual(p: string, x: string, y: string, s: string)
    requires p + x + s == p + y + s
    ensures x == y
  {
    assert |p + x + s| == |p + y + s|;
    assert x == (p + x + s)[|p|..|p| + |x|];
    assert y == (p + y + s)[|p|..|p| + |y|];
  }

  lemma FileParts(file: string)
    ensures var (s, e) := SplitExt(file); file == s + Suffix(e) || file == s + "."
  {
  }

  lemma Regrouped(a: string, b: string, c: string)
    ensures a + (b + c) == a + b + c
  {
  }

  /** A key is its stem and its dotted extension, up to a last dot. */
  lemma KeyParts(key: string)
    ensures key == Stem(key) + Dotted(key) || key == Stem(key) + "."
  {
    KeyApart(key);
    FileParts(LastPart(key));
    var (s, e) := SplitExt(LastPart(key));
    Regrouped(Dir(key), s, Suffix(e));
    Regrouped(Dir(key), s, ".");
  }

  /** No two attempts of one claim ask for the same folded key. */
  lemma VariantsDiffer(al: Alphabet, key: string, n: nat, m: nat)
    requires Casing(al) && 1 <= n < m
    ensures Fold(al, Variant(key, n)) != Fold(al, Variant(key, m))
  {
    VariantFolds(al, key, m);
    if n > 1 {
      VariantFolds(al, key, n);
      if Fold(al, Variant(key, n)) == Fold(al, Variant(key, m)) {
        MiddleEqual(Fold(al, Stem(key)) + "__dup", Numeral(n), Numeral(m), Fold(al, Dotted(key)));
        NumeralInjective(n, m);
      }
    } else {
      KeyParts(key);
      FoldParts(al, Stem(key), Dotted(key));
      FoldParts(al, Stem(key), ".");
      FoldOne(al, "", '.', "");
    }
  }

  // ---- Where a folded key splits ---------------------------------------------------------------

  lemma {:induction false} LastIndexIs(s: string, c: char, i: nat)
    requires i < |s| && s[i] == c && forall k | i < k < |s| :: s[k] != c
    ensures LastIndex(s, c) == Some(i)
  {
  }

  lemma NoIndex(s: string, c: char)
    requires c !in s
    ensures LastIndex(s, c) == None
  {
  }

  /** A directory and a file name put together come apart again. */
  lemma Rejoined(dir: string, file: string)
    requires '/' !in file && (dir == "" || dir[|dir| - 1] == '/')
    ensures Dir(dir + file) == dir && LastPart(dir + file) == file
  {
    var key := dir + file;
    if dir == "" {
      assert key == file;
      NoIndex(key, '/');
    } else {
      LastIndexIs(key, '/', |dir| - 1);
      assert key[..|dir| - 1] + "/" == dir;
    }
  }

  lemma KeyApart(key: string)
    ensures key == Dir(key) + LastPart(key) && '/' !in LastPart(key)
    ensures Dir(key) == "" || Dir(key)[|Dir(key)| - 1] == '/'
  {
  }

  lemma FoldSlash(al: Alphabet, init: string, file: string)
    requires Casing(al)
    ensures Fold(al, init + "/" + file) == Fold(al, init) + "/" + Fold(al, file)
  {
    FoldBar(al, init, '/', file);
  }

  lemma FoldClosed(al: Alphabet, init: string)
    requires Casing(al)
    ensures Fold(al, init + "/") == Fold(al, init) + "/"
  {
    FoldSlash(al, init, "");
    assert init + "/" + "" == init + "/";
    assert Fold(al, "") == "" && Fold(al, init) + "/" + "" == Fold(al, init) + "/";
  }

  /** A slash keeps directory and file name apart, so each is folded by itself. */
  lemma FoldApart(al: Alphabet, dir: string, file: string)
    requires Casing(al) && '/' !in file && (dir == "" || dir[|dir| - 1] == '/')
    ensures Fold(al, dir + file) == Fold(al, dir) + Fold(al, file)
    ensures '/' !in Fold(al, file) && (Fold(al, dir) == "" || Fold(al, dir)[|Fold(al, dir)| - 1] == '/')
  {
    MarkStays(al, "", file, "", '/');
    if dir == "" {
      assert dir + file == file && Fold(al, "") + Fold(al, file) == Fold(al, file);
    } else {
      var init := dir[..|dir| - 1];
      assert dir == init + "/";
      FoldClosed(al, init);
      FoldSlash(al, init, file);
    }
  }

  lemma NoDotFolds(al: Alphabet, file: string)
    requires Casing(al) && LastIndex(file, '.') == None
    ensures SplitExt(file) == (file, "") && SplitExt(Fold(al, file)) == (Fold(al, file), "")
  {
    MarkStays(al, "", file, "", '.');
    NoIndex(Fold(al, file), '.');
  }

  /** A name that is all extension has none. */
  lemma DotFirstFolds(al: Alphabet, e: string)
    requires Casing(al) && '.' !in e
    ensures SplitExt("." + e) == ("." + e, "") && SplitExt(Fold(al, "." + e)) == (Fold(al, "." + e), "")
  {
    DotFolds(al, "", e);
    assert "" + "." + e == "." + e;
    LastIndexIs("." + e, '.', 0);
  }

  lemma SplitAtDot(file: string, i: nat)
    requires LastIndex(file, '.') == Some(i) && i > 0
    ensures SplitExt(file) == (file[..i], file[i + 1..])
  {
  }

  lemma DotInsideFolds(al: Alphabet, s: string, e: string)
    requires Casing(al) && '.' !in e && s != ""
    ensures SplitExt(s + "." + e) == (s, e)
    ensures SplitExt(Fold(al, s + "." + e)) == (FoldIn(al, "", s, "." + e), FoldIn(al, s + ".", e, ""))
  {
    DotFolds(al, s, e);
    DotApart(s, e);
    FoldEmpty(al, s);
    SplitAtDot(s + "." + e, |s|);
    SplitAtDot(Fold(al, s + "." + e), |Fold(al, s)|);
  }

  /** What the parts of a folded name have to do with the folded parts. */
  lemma InsideParts(al: Alphabet, s: string, e: string)
    requires Casing(al)
    ensures |FoldIn(al, "", s, "." + e)| == |Fold(al, s)| && (FoldIn(al, s + ".", e, "") == "" <==> e == "")
    ensures SIGMA !in s ==> FoldIn(al, "", s, "." + e) == Fold(al, s)
    ensures SIGMA !in e ==> FoldIn(al, s + ".", e, "") == Fold(al, e)
  {
    FoldEmpty(al, e);
    FoldParts(al, s + ".", e);
    FoldParts(al, s, "." + e);
  }

  /** The extension of a folded file name starts where the folded stem ends. */
  lemma SplitExtFolds(al: Alphabet, file: string)
    requires Casing(al)
    ensures var ((s, e), (fs, fe)) := (SplitExt(file), SplitExt(Fold(al, file)));
            && |fs| == |Fold(al, s)| && (fe == "" <==> e == "")
            && (SIGMA !in file ==> fs == Fold(al, s) && fe == Fold(al, e))
  {
    assert Fold(al, "") == "";
    match LastIndex(file, '.')
    case None => NoDotFolds(al, file);
    case Some(i) =>
      var s, e := file[..i], file[i + 1..];
      assert file == s + "." + e;
      if i == 0 {
        assert file == "." + e;
        DotFirstFolds(al, e);
      } else {
        DotInsideFolds(al, s, e);
        InsideParts(al, s, e);
      }
  }

  lemma DotApart(x: string, y: string)
    requires '.' !in y
    ensures var f := x + "." + y; LastIndex(f, '.') == Some(|x|) && f[..|x|] == x && f[|x| + 1..] == y
  {
    LastIndexIs(x + "." + y, '.', |x|);
  }

  /** Folding around the last dot. */
  lemma DotFolds(al: Alphabet, s: string, e: string)
    requires Casing(al) && '.' !in e
    ensures var f := Fold(al, s + "." + e);
            && LastIndex(f, '.') == Some(|Fold(al, s)|)
            && f[..|Fold(al, s)|] == FoldIn(al, "", s, "." + e)
            && f[|Fold(al, s)| + 1..] == FoldIn(al, s + ".", e, "")
  {
    var x, y := FoldIn(al, "", s, "." + e), FoldIn(al, s + ".", e, "");
    FoldSplit(al, "", s + ".", e, "");
    FoldSplit(al, "", s, ".", e);
    assert "" + s == s && "" + (s + ".") == s + "." && e + "" == e;
    FoldOne(al, s, '.', e);
    FoldSize(al, "", s, "." + e);
    FoldSize(al, "", s, "");
    MarkStays(al, s + ".", e, "", '.');
    DotApart(x, y);
  }

  /** The stem of a folded key is as long as the folded stem; without a capital sigma it is the folded stem. */
  lemma SplitKeyFolds(al: Alphabet, key: string)
    requires Casing(al)
    ensures |Stem(Fold(al, key))| == |Fold(al, Stem(key))|
    ensures SIGMA !in key ==>
            Stem(Fold(al, key)) == Fold(al, Stem(key)) && Dotted(Fold(al, key)) == Fold(al, Dotted(key))
  {
    var dir, file := Dir(key), LastPart(key);
    var (s, e) := SplitExt(file);
    KeyApart(key);
    FoldApart(al, dir, file);
    Rejoined(Fold(al, dir), Fold(al, file));
    SplitExtFolds(al, file);
    assert '/' !in s;
    FoldApart(al, dir, s);
    if SIGMA !in key {
      assert SIGMA !in file && SIGMA !in e;
      FoldParts(al, ".", e);
      FoldOne(al, "", '.', "");
      assert Fold(al, "") == "";
    }
  }

  // ---- The naming scheme of a plan -------------------------------------------------------------

  /** How keys are compared, which key the attempts of a claim ask for, and which keys may be claimed. */
  datatype Scheme = Scheme(fold: string -> string, variant: (string, nat) -> string, valid: string -> bool)

  function Naming(al: Alphabet): Scheme {
    Scheme(s => Fold(al, s), (key, n: nat) => Variant(key, n), key => ValidKey(key))
  }

  /** The key that attempt `n` of a claim asks for, as it is compared. */
  function Asked(k: Scheme, key: string, n: nat): string {
    k.fold(k.variant(key, n))
  }

  /** No two attempts of a claim ask for the same key. */
  ghost predicate Separating(k: Scheme) {
    forall key, n: nat, m: nat | 1 <= n < m :: Asked(k, key, n) != Asked(k, key, m)
  }

  /** Two keys ask for the same keys at every attempt. */
  ghost predicate Alike(k: Scheme, a: string, b: string) {
    forall n: nat :: Asked(k, a, n) == Asked(k, b, n)
  }

  lemma NamingSeparates(al: Alphabet)
    requires Casing(al)
    ensures Separating(Naming(al)) && forall key :: Naming(al).variant(key, 1) == key
  {
    var k := Naming(al);
    forall key, n: nat, m: nat | 1 <= n < m ensures Asked(k, key, n) != Asked(k, key, m) {
      VariantsDiffer(al, key, n, m);
    }
  }

  lemma SameEnds(a: string, b: string, x: string, c: string, d: string)
    requires a + x + c == b + x + d && |a| == |b|
    ensures a == b && c == d
  {
    assert a == (a + x + c)[..|a|] && b == (b + x + d)[..|b|];
    assert c == (a + x + c)[|a| + |x|..] && d == (b + x + d)[|b| + |x|..];
  }

  /** Stem and extension compare equal. */
  predicate PartsEqual(al: Alphabet, a: string, b: string) {
    Fold(al, Stem(a)) == Fold(al, Stem(b)) && Fold(al, Dotted(a)) == Fold(al, Dotted(b))
  }

  lemma PartsAsk(al: Alphabet, a: string, b: string, n: nat)
    requires Casing(al) && Fold(al, a) == Fold(al, b) && PartsEqual(al, a, b)
    ensures Fold(al, Variant(a, n)) == Fold(al, Variant(b, n))
  {
    if n > 1 {
      VariantFolds(al, a, n);
      VariantFolds(al, b, n);
    }
  }

  lemma SecondAsks(al: Alphabet, a: string, b: string)
    requires Casing(al) && Fold(al, a) == Fold(al, b) && Fold(al, Variant(a, 2)) == Fold(al, Variant(b, 2))
    ensures PartsEqual(al, a, b)
  {
    VariantFolds(al, a, 2);
    VariantFolds(al, b, 2);
    SplitKeyFolds(al, a);
    SplitKeyFolds(al, b);
    var x, y := Fold(al, Stem(a)), Fold(al, Stem(b));
    Regrouped(x, "__dup", Numeral(2));
    Regrouped(y, "__dup", Numeral(2));
    SameEnds(x, y, "__dup" + Numeral(2), Fold(al, Dotted(a)), Fold(al, Dotted(b)));
  }

  /** Keys that are equal up to case are alike exactly when their stems and their extensions are. */
  lemma AlikeExactly(al: Alphabet, a: string, b: string)
    requires Casing(al) && Fold(al, a) == Fold(al, b)
    ensures Alike(Naming(al), a, b) <==> PartsEqual(al, a, b)
  {
    var k := Naming(al);
    if PartsEqual(al, a, b) {
      forall n: nat ensures Asked(k, a, n) == Asked(k, b, n) {
        PartsAsk(al, a, b, n);
      }
    }
    if Alike(k, a, b) {
      assert Asked(k, a, 2) == Asked(k, b, 2);
      SecondAsks(al, a, b);
    }
  }

  /** Without a capital sigma, keys that are equal up to case are alike. */
  lemma PlainAlike(al: Alphabet, a: string, b: string)
    requires Casing(al) && Fold(al, a) == Fold(al, b) && SIGMA !in a && SIGMA !in b
    ensures Alike(Naming(al), a, b)
  {
    SplitKeyFolds(al, a);
    SplitKeyFolds(al, b);
    AlikeExactly(al, a, b);
  }

  lemma {:induction false} NoSigmaLeft(al: Alphabet, before: string, s: string, after: string)
    requires Casing(al)
    ensures SIGMA !in FoldIn(al, before, s, after)
    decreases |s|
  {
    if s != "" {
      NoSigmaLeft(al, before + [s[0]], s[1..], after);
    }
  }

  /** So are all keys that were lower-cased before they were claimed. */
  lemma LoweredAlike(al: Alphabet, x: string, y: string)
    requires Casing(al)
    ensures var a, b := Fold(al, x), Fold(al, y); Fold(al, a) == Fold(al, b) ==> Alike(Naming(al), a, b)
  {
    NoSigmaLeft(al, "", x, "");
    NoSigmaLeft(al, "", y, "");
    if Fold(al, Fold(al, x)) == Fold(al, Fold(al, y)) {
      PlainAlike(al, Fold(al, x), Fold(al, y));
    }
  }

  // ---- The capital sigma -----------------------------------------------------------------------

  predicate Letter(c: char) {
    'A' <= c <= 'Z' || 'a' <= c <= 'z' || c == SIGMA || c == SMALL_SIGMA || c == FINAL_SIGMA
  }

  /** ASCII and the sigmas. */
  function Sample(): Alphabet {
    Alphabet(c => if 'A' <= c <= 'Z' then [c - 'A' + 'a'] else if c == SIGMA then [SMALL_SIGMA] else [c],
             c => Letter(c), c => c == '.')
  }

  const CAPITAL := ['a', SIGMA, '.', 'b']
  const SMALL := ['a', SMALL_SIGMA, '.', 'b']

  lemma SampleCasing()
    ensures Casing(Sample())
  {
  }

  lemma FoldNext(al: Alphabet, before: string, c: char, s: string, after: string)
    ensures FoldIn(al, before, [c] + s, after) == LowerAt(al, before, c, s + after) + FoldIn(al, before + [c], s, after)
  {
    assert ([c] + s)[1..] == s;
  }

  /** A letter, a sigma and whatever follows. */
  lemma SampleFolds(sigma: char, rest: string)
    requires sigma == SIGMA || sigma == SMALL_SIGMA
    ensures var al, inside := Sample(), sigma == SMALL_SIGMA || CasedNext(Sample(), rest);
            Fold(al, ['a'] + ([sigma] + rest)) ==
            ['a'] + ([if inside then SMALL_SIGMA else FINAL_SIGMA] + FoldIn(al, ['a', sigma], rest, ""))
  {
    var al := Sample();
    FoldNext(al, "", 'a', [sigma] + rest, "");
    FoldNext(al, ['a'], sigma, rest, "");
    assert "" + ['a'] == ['a'] && ['a'] + [sigma] == ['a', sigma] && rest + "" == rest;
    assert CasedBefore(al, ['a']);
  }

  lemma DotLetter(before: string)
    ensures FoldIn(Sample(), before, ['.', 'b'], "") == ['.', 'b'] && CasedNext(Sample(), ['.', 'b'])
  {
    var al := Sample();
    assert ['.', 'b'] == ['.'] + (['b'] + []) && ['.', 'b'][1..] == ['b'];
    FoldNext(al, before, '.', ['b'] + [], "");
    FoldNext(al, before + ['.'], 'b', [], "");
  }

  lemma SampleKeys()
    ensures Fold(Sample(), CAPITAL) == Fold(Sample(), SMALL)
    ensures Fold(Sample(), ['a', SIGMA]) != Fold(Sample(), ['a', SMALL_SIGMA])
  {
    assert CAPITAL == ['a'] + ([SIGMA] + ['.', 'b']) && SMALL == ['a'] + ([SMALL_SIGMA] + ['.', 'b']);
    SampleFolds(SIGMA, ['.', 'b']);
    SampleFolds(SMALL_SIGMA, ['.', 'b']);
    DotLetter(['a', SIGMA]);
    DotLetter(['a', SMALL_SIGMA]);
    assert ['a', SIGMA] == ['a'] + ([SIGMA] + []) && ['a', SMALL_SIGMA] == ['a'] + ([SMALL_SIGMA] + []);
    assert !CasedNext(Sample(), []);
    SampleFolds(SIGMA, []);
    SampleFolds(SMALL_SIGMA, []);
    assert Fold(Sample(), ['a', SIGMA])[1] == FINAL_SIGMA && Fold(Sample(), ['a', SMALL_SIGMA])[1] == SMALL_SIGMA;
  }

  lemma SampleStem(sigma: char)
    requires sigma == SIGMA || sigma == SMALL_SIGMA
    ensures Stem(['a', sigma, '.', 'b']) == ['a', sigma]
  {
    var key := ['a', sigma, '.', 'b'];
    NoIndex(key, '/');
    LastIndexIs(key, '.', 2);
    assert key[..2] == ['a', sigma];
  }

  /** Before `.b` a capital sigma is inside a word, before `__dup` it ends one. */
  lemma SigmaSplits()
    ensures Casing(Sample()) && Fold(Sample(), CAPITAL) == Fold(Sample(), SMALL) &&
            !PartsEqual(Sample(), CAPITAL, SMALL)
  {
    SampleCasing();
    SampleKeys();
    SampleStem(SIGMA);
    SampleStem(SMALL_SIGMA);
  }
}
