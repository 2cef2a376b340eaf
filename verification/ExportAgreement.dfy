/** What a verified export guarantees, and when the verifier accepts what the worker pool produced. */
module ExportAgreement {
  import opened Wrappers
  import opened Decimal
  import opened Reports
  import opened ExportTree
  import opened ExportPool
  import opened ExportVerify

  // ---- The allowlist is the tree ---------------------------------------------------------------

  lemma {:induction false} LookupNames(p: Path, entries: seq<Entry>, x: string)
    ensures Lookup(p, entries, x).Some? <==> x in Names(p, entries)
    ensures Lookup(p, entries, x).Some? ==> Lookup(p, entries, x).value.File?
    decreases entries
  {
    if entries != [] {
      var e := entries[|entries| - 1];
      LookupNames(p, entries[..|entries| - 1], x);
      if e.node.Dir? {
        LookupNames(Below(p, e.name), e.node.entries, x);
      }
    }
  }

  /**
   * Hashing every declared file closes the gap that rewriting backslashes leaves in the walk: the
   * regular files of an accepted directory are the declared ones, whatever the names on disk are.
   */
  lemma FilesAreDeclared(o: Options, w: World, r: Report, root: Node)
    requires OutputsFit(o, w, r, root) && root.Dir? && WellFormed(root.entries)
    ensures Names("", root.entries) == PathsOf(r.outputs)
  {
    var declared, names := PathsOf(r.outputs), Names("", root.entries);
    forall x | x in declared ensures x in names {
      var k :| 0 <= k < |r.outputs| && r.outputs[k].path == x;
      assert OnDisk(root, r.outputs[k]);
      LookupNames("", root.entries, x);
    }
    NamesCount("", root.entries);
    FullSubset(declared, names);
  }

  lemma {:induction false} InventoryOf(journal: seq<Report>, x: Object)
    ensures x in Inventory(journal) <==>
            exists k, j :: 0 <= k < |journal| && journal[k].errors == [] && 0 <= j < |journal[k].outputs|
                        && x == Listed(journal[k].directory, journal[k].outputs)[j]
  {
    if journal != [] {
      var init, r := journal[..|journal| - 1], journal[|journal| - 1];
      InventoryOf(init, x);
      assert forall k | 0 <= k < |init| :: init[k] == journal[k];
      if x in Inventory(init) {
        var k, j :| 0 <= k < |init| && init[k].errors == [] && 0 <= j < |init[k].outputs| &&
            x == Listed(init[k].directory, init[k].outputs)[j];
        assert x == Listed(journal[k].directory, journal[k].outputs)[j];
      } else if r.errors == [] && x in Listed(r.directory, r.outputs) {
        var j :| 0 <= j < |r.outputs| && x == Listed(r.directory, r.outputs)[j];
        assert x == Listed(journal[|journal| - 1].directory, journal[|journal| - 1].outputs)[j];
      }
    }
  }

  lemma SlashInLonger(a: string, b: string, x: string, y: string)
    requires a + "/" + x == b + "/" + y && |a| < |b|
    ensures '/' in b
  {
    assert (a + "/" + x)[|a|] == '/' == (b + "/" + y)[|a|] == b[|a|];
  }

  lemma FirstSlash(a: string, b: string, x: string, y: string)
    requires '/' !in a && '/' !in b && a + "/" + x == b + "/" + y
    ensures a == b && x == y
  {
    if |a| < |b| {
      SlashInLonger(a, b, x, y);
    } else if |b| < |a| {
      SlashInLonger(b, a, y, x);
    }
    var s := a + "/" + x;
    assert a == s[..|a|] && b == s[..|b|];
    assert x == s[|a| + 1..] && y == s[|b| + 1..];
  }

  /** Within one accepted directory, declarations and files coincide. */
  lemma DeclaredIsStored(o: Options, w: World, r: Report, root: Node, x: string, bytes: nat, sha: string)
    requires OutputsFit(o, w, r, root) && root.Dir? && WellFormed(root.entries)
    ensures Lookup("", root.entries, x) == Some(File(bytes, sha)) <==>
            exists j :: 0 <= j < |r.outputs| &&
              Listed(r.directory, r.outputs)[j] == Object(r.directory + "/" + x, bytes, sha)
  {
    FilesAreDeclared(o, w, r, root);
    LookupNames("", root.entries, x);
    if Lookup("", root.entries, x) == Some(File(bytes, sha)) {
      var j :| 0 <= j < |r.outputs| && r.outputs[j].path == x;
      assert OnDisk(root, r.outputs[j]);
      assert Listed(r.directory, r.outputs)[j] == Object(r.directory + "/" + x, bytes, sha);
    }
    forall j | 0 <= j < |r.outputs| && Listed(r.directory, r.outputs)[j] == Object(r.directory + "/" + x, bytes, sha)
      ensures Lookup("", root.entries, x) == Some(File(bytes, sha))
    {
      assert OnDisk(root, r.outputs[j]);
      assert x == (r.directory + "/" + x)[|r.directory| + 1..];
      assert r.outputs[j].path == (r.directory + "/" + r.outputs[j].path)[|r.directory| + 1..];
    }
  }

  /** Exactly the files on disk, with their sizes and hashes, are cleared for upload. */
  lemma AllowlistIsTree(s: Summary, region: string, maxFailed: nat, w: World, disk: map<string, Node>,
                        journal: seq<Report>, name: string, x: string, bytes: nat, sha: string)
    requires Verified(s, region, maxFailed, w, disk, journal)
    requires name in disk && disk[name].Dir? && WellFormed(disk[name].entries)
    ensures Lookup("", disk[name].entries, x) == Some(File(bytes, sha)) <==>
            Object(name + "/" + x, bytes, sha) in Inventory(journal)
  {
    var target := Object(name + "/" + x, bytes, sha);
    DirectoriesNamed(journal, name);
    var k :| 0 <= k < |journal| && journal[k].errors == [] && journal[k].directory == name;
    var r := journal[k];
    assert LineFits(s.inputFiles, s.options, w, disk, r);
    DeclaredIsStored(s.options, w, r, disk[name], x, bytes, sha);
    InventoryOf(journal, target);
    if target in Inventory(journal) {
      forall l | 0 <= l < |journal| ensures '/' !in journal[l].directory {
        NoSlash(s.inputFiles, s.options, w, disk, journal, l);
      }
      OwnListing(journal, k, x, bytes, sha);
    }
  }

  /** An allowlist line naming a directory comes from the report of that directory. */
  lemma OwnListing(journal: seq<Report>, k: nat, x: string, bytes: nat, sha: string)
    requires DistinctLines(journal) && k < |journal|
    requires forall l | 0 <= l < |journal| :: '/' !in journal[l].directory
    requires Object(journal[k].directory + "/" + x, bytes, sha) in Inventory(journal)
    ensures var r := journal[k];
            exists j :: 0 <= j < |r.outputs| &&
              Listed(r.directory, r.outputs)[j] == Object(r.directory + "/" + x, bytes, sha)
  {
    var name, target := journal[k].directory, Object(journal[k].directory + "/" + x, bytes, sha);
    InventoryOf(journal, target);
    var l, j :| 0 <= l < |journal| && journal[l].errors == [] && 0 <= j < |journal[l].outputs|
              && target == Listed(journal[l].directory, journal[l].outputs)[j];
    FirstSlash(name, journal[l].directory, x, journal[l].outputs[j].path);
    assert l == k;
  }

  lemma NoSlash(n: nat, o: Options, w: World, disk: map<string, Node>, journal: seq<Report>, l: nat)
    requires LinesFit(n, o, w, disk, journal) && l < |journal|
    ensures '/' !in journal[l].directory
  {
    assert LineFits(n, o, w, disk, journal[l]);
    var name := journal[l].directory;
    assert forall c | c in FiveDigits(Parse(name).value) :: IsDigit(c);
  }

  // ---- Every resource exactly once -------------------------------------------------------------

  ghost predicate DistinctIndices(journal: seq<Report>) {
    forall k, l | 0 <= k < l < |journal| :: Index(journal[k]) != Index(journal[l])
  }

  ghost function IndexSet(journal: seq<Report>): set<nat> {
    if journal == [] then {} else IndexSet(journal[..|journal| - 1]) + {Index(journal[|journal| - 1])}
  }

  ghost function Upto(n: nat): (s: set<nat>)
    ensures |s| == n && forall i :: i in s <==> 0 <= i < n
  {
    if n == 0 then {} else Upto(n - 1) + {n - 1}
  }

  lemma {:induction false} IndexWhere(journal: seq<Report>, i: nat)
    ensures i in IndexSet(journal) <==> exists k :: 0 <= k < |journal| && Index(journal[k]) == i
  {
    if journal != [] {
      var init := journal[..|journal| - 1];
      IndexWhere(init, i);
      assert forall k | 0 <= k < |init| :: init[k] == journal[k];
    }
  }

  lemma {:induction false} IndexCount(journal: seq<Report>)
    requires DistinctIndices(journal)
    ensures |IndexSet(journal)| == |journal|
    ensures forall i: nat :: Reported(journal, i) == if i in IndexSet(journal) then 1 else 0
  {
    if journal != [] {
      var init := journal[..|journal| - 1];
      assert forall k | 0 <= k < |init| :: init[k] == journal[k];
      IndexCount(init);
      IndexWhere(init, Index(journal[|journal| - 1]));
    }
  }

  /** A verified journal covers every resource, each once, although lines are only checked one at a time. */
  lemma VerifiedCoversAll(s: Summary, region: string, maxFailed: nat, w: World, disk: map<string, Node>,
                          journal: seq<Report>, i: nat)
    requires Verified(s, region, maxFailed, w, disk, journal)
    ensures Reported(journal, i) == if i < s.inputFiles then 1 else 0
  {
    forall k, l | 0 <= k < l < |journal| ensures Index(journal[k]) != Index(journal[l]) {
      assert LineFits(s.inputFiles, s.options, w, disk, journal[k]) &&
          LineFits(s.inputFiles, s.options, w, disk, journal[l]);
      assert journal[k].directory != journal[l].directory;
    }
    IndexCount(journal);
    var all := Upto(s.inputFiles);
    forall j | j in IndexSet(journal) ensures j in all {
      IndexWhere(journal, j);
      var k :| 0 <= k < |journal| && Index(journal[k]) == j;
      assert LineFits(s.inputFiles, s.options, w, disk, journal[k]);
    }
    FullSubset(IndexSet(journal), all);
  }

  // ---- The schedule does not matter ------------------------------------------------------------

  ghost predicate OncePerIndex(journal: seq<Report>, n: nat) {
    forall i: nat :: Reported(journal, i) == if i < n then 1 else 0
  }

  lemma {:induction false} ReportedWhere(journal: seq<Report>, i: nat) returns (k: nat)
    requires Reported(journal, i) > 0
    ensures k < |journal| && Index(journal[k]) == i
  {
    if Index(journal[|journal| - 1]) == i {
      return |journal| - 1;
    }
    k := ReportedWhere(journal[..|journal| - 1], i);
  }

  lemma ReportedWithout(journal: seq<Report>, k: nat, i: nat)
    requires k < |journal|
    ensures Reported(journal[..k] + journal[k + 1..], i) ==
            Reported(journal, i) - if Index(journal[k]) == i then 1 else 0
  {
    assert journal == journal[..k] + ([journal[k]] + journal[k + 1..]);
    ReportedAppend(journal[..k], [journal[k]] + journal[k + 1..], i);
    ReportedAppend([journal[k]], journal[k + 1..], i);
    ReportedAppend(journal[..k], journal[k + 1..], i);
    ReportedOne(journal[k], i);
  }

  /** Reports that depend only on the number of their asset. */
  ghost predicate DecodedBy(journal: seq<Report>, decode: nat -> Report) {
    forall k | 0 <= k < |journal| :: journal[k] == decode(Index(journal[k]))
  }

  lemma TakeLast(journal: seq<Report>, n: nat, decode: nat -> Report) returns (a: seq<Report>, b: seq<Report>)
    requires n > 0 && OncePerIndex(journal, n) && DecodedBy(journal, decode)
    ensures journal == a + [decode(n - 1)] + b
    ensures OncePerIndex(a + b, n - 1) && DecodedBy(a + b, decode)
  {
    var k := ReportedWhere(journal, n - 1);
    a, b := journal[..k], journal[k + 1..];
    forall i: nat ensures Reported(a + b, i) == if i < n - 1 then 1 else 0 {
      ReportedWithout(journal, k, i);
    }
    forall l | 0 <= l < |a + b| ensures (a + b)[l] == decode(Index((a + b)[l])) {
      assert (a + b)[l] == journal[if l < k then l else l + 1];
    }
  }

  /** The journal of a single worker. */
  function InOrder(n: nat, decode: nat -> Report): seq<Report> {
    if n == 0 then [] else InOrder(n - 1, decode) + [decode(n - 1)]
  }

  lemma {:induction false} ReportedTwice(journal: seq<Report>, k: nat, l: nat)
    requires k < l < |journal| && Index(journal[k]) == Index(journal[l])
    ensures Reported(journal, Index(journal[k])) >= 2
  {
    var init := journal[..|journal| - 1];
    if l < |init| {
      ReportedTwice(init, k, l);
    } else {
      ReportedOnce(init, k);
    }
  }

  lemma {:induction false} ReportedOnce(journal: seq<Report>, k: nat)
    requires k < |journal|
    ensures Reported(journal, Index(journal[k])) >= 1
  {
    if k < |journal| - 1 {
      ReportedOnce(journal[..|journal| - 1], k);
    }
  }

  lemma OnceCounts(journal: seq<Report>, n: nat)
    requires OncePerIndex(journal, n)
    ensures |journal| == n && DistinctIndices(journal)
  {
    forall k, l | 0 <= k < l < |journal| ensures Index(journal[k]) != Index(journal[l]) {
      if Index(journal[k]) == Index(journal[l]) {
        ReportedTwice(journal, k, l);
      }
    }
    IndexCount(journal);
    assert IndexSet(journal) == Upto(n);
  }

  lemma LastMoves(a: seq<Report>, b: seq<Report>, n: nat, decode: nat -> Report)
    requires n > 0 && Totals(a + b) == Totals(InOrder(n - 1, decode))
    ensures Totals(a + [decode(n - 1)] + b) == Totals(InOrder(n, decode))
  {
    TotalsMiddle(a, decode(n - 1), b);
    TotalsLast(InOrder(n - 1, decode), decode(n - 1));
  }

  /** If a report depends only on its asset, the totals do not depend on the schedule. */
  lemma {:induction false} ScheduleFree(journal: seq<Report>, n: nat, decode: nat -> Report)
    requires OncePerIndex(journal, n) && DecodedBy(journal, decode)
    ensures Totals(journal) == Totals(InOrder(n, decode))
    decreases n
  {
    if n == 0 {
      OnceCounts(journal, n);
    } else {
      var a, b := TakeLast(journal, n, decode);
      ScheduleFree(a + b, n - 1, decode);
      LastMoves(a, b, n, decode);
    }
  }

  lemma EverySummaryAlike(assets: seq<Asset>, decode: nat -> Report,
                          workers1: nat, steps1: seq<Step>, t1: State, workers2: nat, steps2: seq<Step>, t2: State)
    requires workers1 > 0 && Run(assets, Begin(workers1), steps1, t1) && Finished(t1) && !t1.cancelled
    requires workers2 > 0 && Run(assets, Begin(workers2), steps2, t2) && Finished(t2) && !t2.cancelled
    requires DecodedBy(t1.journal, decode) && DecodedBy(t2.journal, decode)
    ensures t1.tally == t2.tally
  {
    EveryAssetOnce(assets, workers1, steps1, t1);
    EveryAssetOnce(assets, workers2, steps2, t2);
    ScheduleFree(t1.journal, |assets|, decode);
    ScheduleFree(t2.journal, |assets|, decode);
  }

  // ---- Producer and verifier agree -------------------------------------------------------------

  /** What the exporter knows besides the reports; `complete` says that the catalog selection kept everything. */
  datatype Setting = Setting(options: Options, region: string, complete: bool, catalogFiles: nat, catalogSha256: string)

  /** The summary written at the end of `execute`. */
  function Produced(e: Setting, n: nat, t: Tally): Summary {
    var all := e.complete && n == e.catalogFiles;
    Summary(4, e.region, e.options, all,
            e.options.raw != Only && all && e.options.selectionFull && e.options.kindsNative && e.options.criFull,
            n, e.catalogFiles, e.catalogSha256, t.failed == 0 && t.succeeded == n && t.outputFiles > 0, t)
  }

  /** What configuration checks and the receipt guarantee before the export starts. */
  predicate Sound(e: Setting, assets: seq<Asset>) {
    && e.options.kindsValid && (e.options.raw != Off ==> e.options.rawValid)
    && ValidDigest(e.catalogSha256) && |assets| <= e.catalogFiles
    && (forall k | 0 <= k < |assets| :: SafePath(assets[k].path) && ValidDigest(assets[k].sha256))
    && (forall k, l | 0 <= k < l < |assets| :: assets[k].path != assets[l].path)
  }

  predicate Represented(c: Counters) {
    && c.objects < WORD && c.selected < WORD && c.skipped < WORD
    && c.files + c.failedFiles < WORD && c.bytes + c.failedBytes < WORD
  }

  lemma {:induction false} HitsBound(journal: seq<Report>)
    ensures Totals(journal).hits <= Totals(journal).succeeded
  {
    if journal != [] {
      HitsBound(journal[..|journal| - 1]);
    }
  }

  lemma LinesAreDistinct(assets: seq<Asset>, journal: seq<Report>)
    requires DistinctIndices(journal) && AllReports(assets, journal)
    requires forall k, l | 0 <= k < l < |assets| :: assets[k].path != assets[l].path
    ensures DistinctLines(journal)
  {
    forall k, l | 0 <= k < l < |journal|
      ensures journal[k].directory != journal[l].directory && journal[k].source != journal[l].source
    {
      var i, j := Index(journal[k]), Index(journal[l]);
      assert ReportFor(assets, i, journal[k]) && ReportFor(assets, j, journal[l]);
      FiveDigitsParses(i);
      FiveDigitsParses(j);
      assert assets[if i < j then i else j].path != assets[if i < j then j else i].path;
    }
  }

  /** Every successful resource's directory holds what its report declares. */
  ghost predicate OutputsInPlace(o: Options, w: World, disk: map<string, Node>, journal: seq<Report>) {
    forall k | 0 <= k < |journal| && journal[k].errors == [] ::
      OutputsFit(o, w, journal[k], At(disk, journal[k].directory))
  }

  ghost predicate ShortLines(w: World, journal: seq<Report>) {
    forall k | 0 <= k < |journal| :: w.line(journal[k]) <= MAX_LINE
  }

  /** Every heading check of the verifier passes on what the workers write. */
  lemma LinesPass(assets: seq<Asset>, journal: seq<Report>, e: Setting, w: World, disk: map<string, Node>)
    requires Sound(e, assets) && AllReports(assets, journal)
    ensures LinesFit(|assets|, e.options, w, disk, journal) <==>
            OutputsInPlace(e.options, w, disk, journal) && ShortLines(w, journal)
  {
    forall k | 0 <= k < |journal|
      ensures LineFits(|assets|, e.options, w, disk, journal[k]) <==>
              && w.line(journal[k]) <= MAX_LINE
              && (journal[k].errors == [] ==> OutputsFit(e.options, w, journal[k], At(disk, journal[k].directory)))
    {
      assert ReportFor(assets, Index(journal[k]), journal[k]);
      FiveDigitsParses(Index(journal[k]));
    }
    if LinesFit(|assets|, e.options, w, disk, journal) {
      forall k | 0 <= k < |journal|
        ensures w.line(journal[k]) <= MAX_LINE
        ensures journal[k].errors == [] ==> OutputsFit(e.options, w, journal[k], At(disk, journal[k].directory))
      {
        assert LineFits(|assets|, e.options, w, disk, journal[k]);
      }
    }
  }

  lemma ScopePasses(e: Setting, assets: seq<Asset>, c: Counters, region: string, maxFailed: nat)
    requires Sound(e, assets) && c.succeeded + c.failed == |assets| && c.hits <= c.succeeded
    ensures ScopeFits(Produced(e, |assets|, Wrapped(c)), region, maxFailed) && Matches(c, Wrapped(c)) <==>
            && e.options.retained && region == e.region && region != "cn"
            && |assets| <= MAX_RESOURCES && c.failed <= maxFailed && c.succeeded > 0
            && c.files + c.failedFiles > 0 && Represented(c)
  {
  }

  /** What the scope and counting checks come down to for a finished run. */
  ghost predicate Publishable(assets: seq<Asset>, e: Setting, journal: seq<Report>, region: string, maxFailed: nat) {
    var c := Totals(journal);
    && e.options.retained && region == e.region && region != "cn"
    && |assets| <= MAX_RESOURCES && c.failed <= maxFailed && c.succeeded > 0
    && c.files + c.failedFiles > 0 && Represented(c)
  }

  /**
   * A finished run is accepted exactly when it is retained, published for the same open region, not empty
   * and within the failure allowance; when its sums stay in the machine words they are written in and its
   * summary and every journal line in the lengths that are read; and when the root holds the outputs of
   * the successful resources and no other directory.
   */
  lemma Agreement(assets: seq<Asset>, workers: nat, steps: seq<Step>, t: State, e: Setting, w: World,
                  disk: map<string, Node>, region: string, maxFailed: nat)
    requires workers > 0 && Run(assets, Begin(workers), steps, t) && Finished(t) && !t.cancelled
    requires Sound(e, assets)
    ensures Verified(Produced(e, |assets|, t.tally), region, maxFailed, w, disk, t.journal) <==>
            && Publishable(assets, e, t.journal, region, maxFailed)
            && w.summary(Produced(e, |assets|, t.tally)) <= MAX_SUMMARY && ShortLines(w, t.journal)
            && OutputsInPlace(e.options, w, disk, t.journal) && RootFits(disk, Directories(t.journal))
  {
    EveryAssetOnce(assets, workers, steps, t);
    OnceCounts(t.journal, |assets|);
    LinesAreDistinct(assets, t.journal);
    LinesPass(assets, t.journal, e, w, disk);
    HitsBound(t.journal);
    ScopePasses(e, assets, Totals(t.journal), region, maxFailed);
  }

  // ---- Directories nobody owns -----------------------------------------------------------------

  /** What a run leaves below the output root: the two receipts and the published directories. */
  ghost predicate Leaves(disk: map<string, Node>, published: set<string>) {
    && (forall name | name in disk ::
          || (disk[name].Dir? && name in published)
          || (disk[name].File? && name in {"summary.json", "resources.jsonl"}))
    && (forall name | name in published :: name in disk && disk[name].Dir?)
  }

  /** A directory that was published for a resource reported as failed is never accepted. */
  lemma FailedDirectoryRefused(s: Summary, region: string, maxFailed: nat, w: World, disk: map<string, Node>,
                               journal: seq<Report>, k: nat)
    requires k < |journal| && journal[k].errors != []
    requires journal[k].directory in disk && disk[journal[k].directory].Dir?
    ensures !Verified(s, region, maxFailed, w, disk, journal)
  {
    if Verified(s, region, maxFailed, w, disk, journal) {
      DirectoriesNamed(journal, journal[k].directory);
    }
  }

  /** A directory of a failed resource belongs to no successful one. */
  lemma FailedUnowned(journal: seq<Report>, i: nat)
    requires DistinctLines(journal) && FailedAt(journal, i)
    ensures FiveDigits(i) !in Directories(journal)
  {
    if FiveDigits(i) in Directories(journal) {
      DirectoriesNamed(journal, FiveDigits(i));
    }
  }

  lemma RootFitsUnlessNamed(journal: seq<Report>, published: set<string>, unkept: set<nat>, disk: map<string, Node>)
    requires DistinctLines(journal) && Kept(journal, published, unkept) && Leaves(disk, published)
    ensures RootFits(disk, Directories(journal)) <==> unkept == {}
  {
    if i :| i in unkept {
      assert FailedAt(journal, i) && FiveDigits(i) in Named(unkept);
      FailedUnowned(journal, i);
    } else {
      assert Named(unkept) == {};
    }
  }

  /**
   * The root listing of a finished run fits exactly when no resource was published whose cache call then
   * failed: nothing else leaves a directory that no successful resource owns.
   */
  lemma RootFitsUnlessUnkept(assets: seq<Asset>, workers: nat, steps: seq<Step>, t: State, disk: map<string, Node>)
    requires workers > 0 && Run(assets, Begin(workers), steps, t) && Finished(t) && !t.cancelled
    requires forall k, l | 0 <= k < l < |assets| :: assets[k].path != assets[l].path
    requires Leaves(disk, t.published)
    ensures RootFits(disk, Directories(t.journal)) <==> t.unkept == {}
  {
    EveryAssetOnce(assets, workers, steps, t);
    OnceCounts(t.journal, |assets|);
    LinesAreDistinct(assets, t.journal);
    PublishedAtEnd(assets, workers, steps, t);
    RootFitsUnlessNamed(t.journal, t.published, t.unkept, disk);
  }

  /** With what was published in place, an otherwise publishable run is refused exactly for such a resource. */
  lemma RefusedIffUnkept(assets: seq<Asset>, workers: nat, steps: seq<Step>, t: State, e: Setting, w: World,
                         disk: map<string, Node>, region: string, maxFailed: nat)
    requires workers > 0 && Run(assets, Begin(workers), steps, t) && Finished(t) && !t.cancelled
    requires Sound(e, assets) && Publishable(assets, e, t.journal, region, maxFailed)
    requires w.summary(Produced(e, |assets|, t.tally)) <= MAX_SUMMARY && ShortLines(w, t.journal)
    requires Leaves(disk, t.published) && OutputsInPlace(e.options, w, disk, t.journal)
    ensures Verified(Produced(e, |assets|, t.tally), region, maxFailed, w, disk, t.journal) <==> t.unkept == {}
  {
    Agreement(assets, workers, steps, t, e, w, disk, region, maxFailed);
    RootFitsUnlessUnkept(assets, workers, steps, t, disk);
  }

  /** Such runs exist: one worker, one decoded asset, and one that the cache gave up on after publishing it. */
  lemma UnkeptRun(assets: seq<Asset>, r: Report, error: string) returns (steps: seq<Step>, t: State)
    requires |assets| == 2 && ReportFor(assets, 0, r) && r.errors == []
    ensures Run(assets, Begin(1), steps, t) && Finished(t) && !t.cancelled
    ensures t.unkept == {1} && t.journal == [r, ErrorReport(assets, 1, error)]
  {
    var s0 := Begin(1);
    var s1 := AfterServing(assets, s0, Answered(r));
    var s2 := AfterServing(assets, s1, Unkept(error));
    var s3 := Apply(assets, s2, Check(0));
    t := Apply(assets, s3, Fetch(0));
    var tail := [Check(0), Fetch(0)];
    assert tail[1..] == [Fetch(0)] && [Fetch(0)][1..] == [];
    assert Run(assets, s3, [Fetch(0)], t);
    assert Run(assets, s2, tail, t);
    RunServe(assets, s1, Unkept(error), tail, t);
    RunServe(assets, s0, Answered(r), Served(Unkept(error)) + tail, t);
    steps := Served(Answered(r)) + (Served(Unkept(error)) + tail);
  }

  /** A single worker takes the next asset, sends its outcome, and the receiver writes it down. */
  function Served(o: Outcome): seq<Step> {
    [Check(0), Fetch(0), Send(0, o), Receive]
  }

  ghost predicate Alone(assets: seq<Asset>, s: State, o: Outcome) {
    && s.workers == [Idle] && s.channel == [] && !s.cancelled
    && s.next < |assets| && OutcomeFor(assets, s.next, o)
  }

  ghost function AfterServing(assets: seq<Asset>, s: State, o: Outcome): State
    requires Alone(assets, s, o)
  {
    var r := ReportOf(assets, s.next, o);
    s.(next := s.next + 1, journal := s.journal + [r], tally := Wrapped(Totals(s.journal + [r])),
       published := if Publishes(o) then s.published + {FiveDigits(s.next)} else s.published,
       unkept := if o.Unkept? then s.unkept + {s.next} else s.unkept)
  }

  lemma ServedSteps(o: Outcome, rest: seq<Step>)
    ensures (Served(o) + rest)[0] == Check(0) && (Served(o) + rest)[1..] == [Fetch(0), Send(0, o), Receive] + rest
    ensures ([Fetch(0), Send(0, o), Receive] + rest)[1..] == [Send(0, o), Receive] + rest
    ensures ([Send(0, o), Receive] + rest)[1..] == [Receive] + rest && ([Receive] + rest)[1..] == rest
  {
  }

  lemma RunFirst(assets: seq<Asset>, s: State, steps: seq<Step>, t: State)
    requires steps != [] && Enabled(assets, s, steps[0]) && Run(assets, Apply(assets, s, steps[0]), steps[1..], t)
    ensures Run(assets, s, steps, t)
  {
  }

  lemma RunServe(assets: seq<Asset>, s: State, o: Outcome, rest: seq<Step>, t: State)
    requires Alone(assets, s, o) && Run(assets, AfterServing(assets, s, o), rest, t)
    ensures Run(assets, s, Served(o) + rest, t)
  {
    ServedSteps(o, rest);
    var s1 := Apply(assets, s, Check(0));
    var s2 := Apply(assets, s1, Fetch(0));
    var s3 := Apply(assets, s2, Send(0, o));
    assert Apply(assets, s3, Receive) == AfterServing(assets, s, o);
    RunFirst(assets, s3, [Receive] + rest, t);
    RunFirst(assets, s2, [Send(0, o), Receive] + rest, t);
    RunFirst(assets, s1, [Fetch(0), Send(0, o), Receive] + rest, t);
    RunFirst(assets, s, Served(o) + rest, t);
  }

  /** A run that was cancelled before every report arrived is never accepted. */
  lemma IncompleteRefused(assets: seq<Asset>, workers: nat, steps: seq<Step>, t: State, e: Setting, w: World,
                          disk: map<string, Node>, region: string, maxFailed: nat)
    requires workers > 0 && Run(assets, Begin(workers), steps, t)
    ensures Verified(Produced(e, |assets|, t.tally), region, maxFailed, w, disk, t.journal) ==>
            OncePerIndex(t.journal, |assets|)
  {
    if Verified(Produced(e, |assets|, t.tally), region, maxFailed, w, disk, t.journal) {
      forall i: nat ensures Reported(t.journal, i) == if i < |assets| then 1 else 0 {
        VerifiedCoversAll(Produced(e, |assets|, t.tally), region, maxFailed, w, disk, t.journal, i);
      }
    }
  }
}
