/**
 * Resource reports and the sums over them, which the exporter writes into its summary and the
 * verifier computes again from the journal.
 */
module Reports {
  import opened Wrappers

  /** `origin` is the identity of the Unity object a file was made from, if there is one. */
  datatype Output = Output(path: string, kind: string, bytes: nat, sha256: string, origin: Option<string>)

  datatype Report = Report(
    cacheHit: bool, source: string, directory: string, sourceSha256: string,
    objects: nat, selected: nat, skipped: nat, outputs: seq<Output>, errors: seq<string>)

  /** Exact totals of a journal; outputs of failed resources are kept apart. */
  datatype Counters = Counters(
    succeeded: nat, failed: nat, hits: nat, objects: nat, selected: nat, skipped: nat,
    files: nat, bytes: nat, failedFiles: nat, failedBytes: nat, kinds: map<string, nat>)

  const ZERO := Counters(0, 0, 0, 0, 0, 0, 0, 0, 0, 0, map[])

  /** u64 and usize hold numbers below this. */
  const WORD: nat := 0x1_0000_0000_0000_0000

  function AddKind(kinds: map<string, nat>, kind: string): map<string, nat> {
    kinds[kind := (if kind in kinds then kinds[kind] else 0) + 1]
  }

  function AddKinds(kinds: map<string, nat>, outputs: seq<Output>): map<string, nat> {
    if outputs == [] then kinds
    else AddKind(AddKinds(kinds, outputs[..|outputs| - 1]), outputs[|outputs| - 1].kind)
  }

  function Bytes(outputs: seq<Output>): nat {
    if outputs == [] then 0 else Bytes(outputs[..|outputs| - 1]) + outputs[|outputs| - 1].bytes
  }

  function If(b: bool, n: nat): nat {
    if b then n else 0
  }

  function Plus(c: Counters, r: Report): Counters {
    var ok := r.errors == [];
    Counters(
      c.succeeded + If(ok, 1), c.failed + If(!ok, 1), c.hits + If(ok && r.cacheHit, 1),
      c.objects + r.objects, c.selected + r.selected, c.skipped + r.skipped,
      c.files + If(ok, |r.outputs|), c.bytes + If(ok, Bytes(r.outputs)),
      c.failedFiles + If(!ok, |r.outputs|), c.failedBytes + If(!ok, Bytes(r.outputs)),
      AddKinds(c.kinds, r.outputs))
  }

  function Totals(journal: seq<Report>): (c: Counters)
    ensures c.succeeded + c.failed == |journal|
  {
    if journal == [] then ZERO else Plus(Totals(journal[..|journal| - 1]), journal[|journal| - 1])
  }

  lemma KindSwap(m: map<string, nat>, a: string, b: string)
    ensures AddKind(AddKind(m, a), b) == AddKind(AddKind(m, b), a)
  {
    if a != b {
      assert m[a := 0][b := 0] == m[b := 0][a := 0];
    }
  }

  lemma {:induction false} KindCommutes(m: map<string, nat>, outputs: seq<Output>, kind: string)
    ensures AddKinds(AddKind(m, kind), outputs) == AddKind(AddKinds(m, outputs), kind)
  {
    if outputs != [] {
      var init, last := outputs[..|outputs| - 1], outputs[|outputs| - 1].kind;
      KindCommutes(m, init, kind);
      KindSwap(AddKinds(m, init), kind, last);
    }
  }

  lemma {:induction false} KindsCommute(m: map<string, nat>, a: seq<Output>, b: seq<Output>)
    ensures AddKinds(AddKinds(m, a), b) == AddKinds(AddKinds(m, b), a)
  {
    if a != [] {
      KindsCommute(m, a[..|a| - 1], b);
      KindCommutes(AddKinds(m, a[..|a| - 1]), b, a[|a| - 1].kind);
    }
  }

  lemma {:induction false} PlusCommutes(c: Counters, a: Report, b: Report)
    ensures Plus(Plus(c, a), b) == Plus(Plus(c, b), a)
  {
    KindsCommute(c.kinds, a.outputs, b.outputs);
  }

  lemma TotalsLast(journal: seq<Report>, r: Report)
    ensures Totals(journal + [r]) == Plus(Totals(journal), r)
  {
    assert (journal + [r])[..|journal|] == journal;
  }

  /** A report may as well have come last. */
  lemma {:induction false} TotalsMiddle(a: seq<Report>, x: Report, b: seq<Report>)
    ensures Totals(a + [x] + b) == Plus(Totals(a + b), x)
  {
    if b == [] {
      assert a + [x] + b == a + [x] && a + b == a;
      TotalsLast(a, x);
    } else {
      var init, y := b[..|b| - 1], b[|b| - 1];
      TotalsMiddle(a, x, init);
      assert a + [x] + b == (a + [x] + init) + [y] && a + b == (a + init) + [y];
      TotalsLast(a + [x] + init, y);
      TotalsLast(a + init, y);
      PlusCommutes(Totals(a + init), x, y);
    }
  }

  predicate Leq(c: Counters, d: Counters) {
    && c.succeeded <= d.succeeded && c.failed <= d.failed && c.hits <= d.hits
    && c.objects <= d.objects && c.selected <= d.selected && c.skipped <= d.skipped
    && c.files <= d.files && c.bytes <= d.bytes
    && c.failedFiles <= d.failedFiles && c.failedBytes <= d.failedBytes
  }

  lemma PlusGrows(c: Counters, r: Report)
    ensures Leq(c, Plus(c, r))
  {
  }

  lemma LeqTransitive(c: Counters, d: Counters, e: Counters)
    requires Leq(c, d) && Leq(d, e)
    ensures Leq(c, e)
  {
  }

  /** Totals only grow along a journal. */
  lemma {:induction false} TotalsGrow(a: seq<Report>, b: seq<Report>)
    ensures Leq(Totals(a), Totals(a + b))
  {
    if b == [] {
      assert a + b == a;
    } else {
      var init, y := b[..|b| - 1], b[|b| - 1];
      TotalsGrow(a, init);
      assert a + b == (a + init) + [y];
      TotalsLast(a + init, y);
      PlusGrows(Totals(a + init), y);
      LeqTransitive(Totals(a), Totals(a + init), Totals(a + b));
    }
  }

  /** The directories of the resources that succeeded. */
  function Directories(journal: seq<Report>): set<string> {
    if journal == [] then {}
    else
      var r := journal[|journal| - 1];
      Directories(journal[..|journal| - 1]) + if r.errors == [] then {r.directory} else {}
  }

  lemma {:induction false} DirectoriesNamed(journal: seq<Report>, d: string)
    requires d in Directories(journal)
    ensures exists k :: 0 <= k < |journal| && journal[k].errors == [] && journal[k].directory == d
  {
    var init := journal[..|journal| - 1];
    if d in Directories(init) {
      DirectoriesNamed(init, d);
      var k :| 0 <= k < |init| && init[k].errors == [] && init[k].directory == d;
      assert journal[k].directory == d;
    } else {
      assert journal[|journal| - 1].directory == d;
    }
  }
}
