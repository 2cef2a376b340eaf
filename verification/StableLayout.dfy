/**
 * Stable keys for published files: how a key splits into directory, stem and extension, the variants a
 * claim tries, and which of them may be published.
 */
module StableLayout {
  import opened Wrappers
  import opened Decimal
  import opened Paths

  // ---- Keys and their variants -----------------------------------------------------------------

  function LastIndex(s: string, c: char): (r: Option<nat>)
    ensures r.Some? ==> r.value < |s| && s[r.value] == c && forall k | r.value < k < |s| :: s[k] != c
    ensures r.None? ==> forall k | 0 <= k < |s| :: s[k] != c
  {
    if s == "" then None
    else if s[|s| - 1] == c then Some(|s| - 1)
    else LastIndex(s[..|s| - 1], c)
  }

  /** Stem and extension of a file name; a leading dot starts no extension. */
  function SplitExt(file: string): (string, string) {
    match LastIndex(file, '.')
    case Some(i) => if i == 0 then (file, "") else (file[..i], file[i + 1..])
    case None => (file, "")
  }

  function JoinExt(stem: string, ext: string): string {
    if ext == "" then stem else stem + "." + ext
  }

  /** The directory of a key with its slash, and the component after it. */
  function Dir(key: string): string {
    match LastIndex(key, '/')
    case Some(i) => key[..i] + "/"
    case None => ""
  }

  function LastPart(key: string): string {
    match LastIndex(key, '/')
    case Some(i) => key[i + 1..]
    case None => key
  }

  /** The key without the extension of its last component, and that extension. */
  function SplitKey(key: string): (string, string) {
    var (s, e) := SplitExt(LastPart(key));
    (Dir(key) + s, e)
  }

  /** The key tried at attempt `n`, counted from one. */
  function Variant(key: string, n: nat): string {
    if n <= 1 then key
    else
      var (stem, ext) := SplitKey(key);
      JoinExt(stem + "__dup" + Numeral(n), ext)
  }

  function Suffix(ext: string): string {
    if ext == "" then "" else "." + ext
  }

  lemma VariantParts(stem: string, n: nat, ext: string)
    ensures JoinExt(stem + "__dup" + Numeral(n), ext) == stem + "__dup" + Numeral(n) + Suffix(ext)
  {
  }

  lemma NumeralInjective(n: nat, m: nat)
    requires Numeral(n) == Numeral(m)
    ensures n == m
  {
    NumeralParses(n);
    NumeralParses(m);
  }

  // ---- Which keys are publishable --------------------------------------------------------------

  predicate PlainChars(s: string) {
    forall i | 0 <= i < |s| :: s[i] != '\\' && !IsControl(s[i])
  }

  /** Every component is a name of its own, and no character is special. */
  predicate SafeKey(key: string) {
    key != "" && PlainChars(key) && forall part | part in Split(key) :: SafePart(part)
  }

  predicate ValidKey(key: string) {
    SafeKey(key) && Size(key) <= 1024 && forall part | part in Split(key) :: Size(part) <= 255
  }

  lemma {:induction false} SplitPlain(file: string)
    requires '/' !in file
    ensures Split(file) == [file]
  {
    if file != "" {
      SplitPlain(file[1..]);
      assert [file[0]] + file[1..] == file;
    }
  }

  lemma {:induction false} SplitLast(dir: string, file: string)
    requires '/' !in file
    ensures Split(dir + "/" + file) == Split(dir) + [file]
  {
    var key := dir + "/" + file;
    if dir == "" {
      assert key[1..] == file;
      SplitPlain(file);
    } else {
      assert key[1..] == dir[1..] + "/" + file;
      SplitLast(dir[1..], file);
    }
  }

  /** The components of a key before its last. */
  function Parents(key: string): seq<string> {
    match LastIndex(key, '/')
    case Some(i) => Split(key[..i])
    case None => []
  }

  lemma SplitDir(key: string, file: string)
    requires '/' !in file
    ensures Split(Dir(key) + file) == Parents(key) + [file]
    ensures key == Dir(key) + LastPart(key) && '/' !in LastPart(key)
  {
    match LastIndex(key, '/')
    case Some(i) => SplitLast(key[..i], file);
    case None =>
      SplitPlain(file);
      assert Dir(key) + file == file;
  }

  /** The last component of variant `n`. */
  function Tail(file: string, n: nat): string {
    var (s, e) := SplitExt(file);
    s + "__dup" + Numeral(n) + Suffix(e)
  }

  lemma VariantTail(key: string, n: nat)
    requires n > 1
    ensures Variant(key, n) == Dir(key) + Tail(LastPart(key), n)
  {
    var (s, e) := SplitExt(LastPart(key));
    Regroup(Dir(key), s, "__dup", Numeral(n), Suffix(e));
    assert JoinExt(Dir(key) + s + "__dup" + Numeral(n), e) == Dir(key) + s + "__dup" + Numeral(n) + Suffix(e) by {
      JoinSuffix(Dir(key) + s + "__dup" + Numeral(n), e);
    }
  }

  lemma JoinSuffix(stem: string, ext: string)
    ensures JoinExt(stem, ext) == stem + Suffix(ext)
  {
  }

  lemma Regroup(a: string, b: string, c: string, d: string, e: string)
    ensures a + b + c + d + e == a + (b + c + d + e)
  {
  }

  lemma PlainJoin(a: string, b: string)
    ensures PlainChars(a + b) <==> PlainChars(a) && PlainChars(b)
    ensures '/' in a + b <==> '/' in a || '/' in b
  {
    assert forall i | 0 <= i < |a| :: (a + b)[i] == a[i];
    assert forall i | 0 <= i < |b| :: (a + b)[|a| + i] == b[i];
  }

  lemma PlainNumeral(n: nat)
    ensures PlainChars(Numeral(n)) && '/' !in Numeral(n)
  {
    assert forall i | 0 <= i < |Numeral(n)| :: Numeral(n)[i] in Numeral(n);
  }

  lemma SplitExtParts(file: string)
    ensures var (s, e) := SplitExt(file);
            && (s + Suffix(e) == file || s + "." == file)
            && (file != "" ==> s != "")
  {
  }

  /** The suffix adds nothing special to a component. */
  lemma TailSafe(file: string, n: nat)
    requires PlainChars(file) && '/' !in file && file != ""
    ensures PlainChars(Tail(file, n)) && '/' !in Tail(file, n) && SafePart(Tail(file, n))
  {
    var (s, e) := SplitExt(file);
    SplitExtParts(file);
    PlainJoin(s, Suffix(e));
    PlainJoin(s, ".");
    PlainNumeral(n);
    PlainJoin(s + "__dup" + Numeral(n), Suffix(e));
    PlainJoin(s + "__dup", Numeral(n));
    PlainJoin(s, "__dup");
    assert e == "" ==> Suffix(e) == "";
    assert |Tail(file, n)| > 5;
  }

  /** A variant of a valid key is safe; only its length can make it unpublishable. */
  lemma VariantValid(key: string, n: nat)
    requires ValidKey(key) && n > 1
    ensures SafeKey(Variant(key, n))
    ensures ValidKey(Variant(key, n)) <==> Size(Variant(key, n)) <= 1024 && Size(Tail(LastPart(key), n)) <= 255
  {
    var file, tail := LastPart(key), Tail(LastPart(key), n);
    SplitDir(key, "");
    SplitDir(key, file);
    assert Split(key) == Parents(key) + [file];
    assert file in Split(key);
    PlainJoin(Dir(key), file);
    TailSafe(file, n);
    VariantTail(key, n);
    SplitDir(key, tail);
    PlainJoin(Dir(key), tail);
    var v := Variant(key, n);
    assert Split(v) == Parents(key) + [tail];
    assert tail in Split(v);
    assert forall part | part in Parents(key) :: part in Split(key);
  }

  lemma {:induction false} ZerosSize(n: nat, s: string)
    ensures Size(Zeros(n) + s) == n + Size(s)
  {
    if n > 0 {
      ZerosSize(n - 1, s);
      assert (Zeros(n) + s)[1..] == Zeros(n - 1) + s;
    } else {
      assert Zeros(0) + s == s;
    }
  }

  lemma ZerosParts(n: nat)
    ensures LastIndex(Zeros(n), '/') == None && LastIndex(Zeros(n), '.') == None
    ensures Split(Zeros(n)) == [Zeros(n)]
  {
    SplitPlain(Zeros(n));
  }

  lemma LongKeyValid()
    ensures ValidKey(Zeros(255)) && SplitExt(Zeros(255)) == (Zeros(255), "") && LastPart(Zeros(255)) == Zeros(255)
  {
    var key := Zeros(255);
    ZerosParts(255);
    ZerosSize(255, "");
    assert key + "" == key;
    assert SafePart(key) by {
      assert |key| == 255;
    }
  }

  lemma PlainTail(key: string, n: nat)
    requires SplitExt(key) == (key, "")
    ensures Tail(key, n) == key + ("__dup" + Numeral(n))
  {
    assert Suffix("") == "";
  }

  lemma ZerosGrow(n: nat, s: string)
    requires s != ""
    ensures Size(Zeros(n) + s) > n
  {
    ZerosSize(n, s);
  }

  lemma LongKeyGrows()
    ensures Size(Tail(Zeros(255), 2)) > 255
  {
    LongKeyValid();
    PlainTail(Zeros(255), 2);
    ZerosGrow(255, "__dup" + Numeral(2));
  }

  /** The length is checked before the suffix is added: a valid key can be planned at an invalid path. */
  lemma LongKeyOutgrows()
    ensures ValidKey(Zeros(255)) && !ValidKey(Variant(Zeros(255), 2))
  {
    LongKeyValid();
    LongKeyGrows();
    VariantValid(Zeros(255), 2);
  }
}
