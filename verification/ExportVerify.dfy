/** The independent verifier of a retained export: scope, journal accounting, and the files on disk. */
module ExportVerify {
  import opened Wrappers
  import opened Decimal
  import opened Paths
  import opened Reports
  import opened ExportTree
  import opened ExportPool

  const MAX_RESOURCES: nat := 1_000_000
  const MAX_SUMMARY: nat := 1024 * 1024
  const MAX_LINE: nat := 16 * 1024 * 1024

  datatype RawMode = Off | Alongside | Only

  datatype Options = Options(
    retained: bool, selectionFull: bool, kindsNative: bool, kindsValid: bool, criFull: bool,
    keepAcb: bool, keepUsm: bool, raw: RawMode, rawValid: bool)

  datatype Summary = Summary(
    schema: nat, region: string, options: Options, fullCatalog: bool, fullExport: bool,
    inputFiles: nat, catalogFiles: nat, catalogSha256: string, complete: bool, tally: Tally)

  /** The raw-bundle filter and naming, and how long a journal line and a summary are when serialized. */
  datatype World = World(
    rawMatches: string -> bool, rawPath: string -> Option<string>, line: Report -> nat, summary: Summary -> nat)

  /** One line of the upload allowlist. */
  datatype Object = Object(path: string, bytes: nat, sha256: string)

  predicate ValidDigest(s: string) {
    |s| == 64 && forall c | c in s :: '0' <= c <= '9' || 'a' <= c <= 'f'
  }

  predicate SafePath(s: string) {
    && Size(s) <= 4096
    && (forall c | c in s :: c != '\\' && c != ':' && !IsControl(c))
    && forall part | part in Split(s) :: SafePart(part)
  }

  // ---- One resource ----------------------------------------------------------------------------

  predicate ItemAllowed(o: Options, w: World, r: Report, item: Output) {
    && (item.kind == "cri_acb_container" ==> o.keepAcb)
    && (item.kind == "cri_usm_container" ==> o.keepUsm)
    && (if item.kind == "raw_bundle" then
          && o.raw != Off && w.rawMatches(r.source) && w.rawPath(r.source) == Some(item.path)
          && item.sha256 == r.sourceSha256 && item.origin.None?
        else o.raw != Only)
    && SafePath(item.path) && ValidDigest(item.sha256)
  }

  function PathsOf(outputs: seq<Output>): set<string> {
    set k | 0 <= k < |outputs| :: outputs[k].path
  }

  predicate DistinctPaths(outputs: seq<Output>) {
    forall k, l | 0 <= k < l < |outputs| :: outputs[k].path != outputs[l].path
  }

  /** The regular file a path leads to, if there is one. */
  function Lookup(p: Path, entries: seq<Entry>, x: string): Option<Node>
    decreases entries
  {
    if entries == [] then None
    else
      var e := entries[|entries| - 1];
      var here := match e.node
        case Dir(es) => Lookup(Below(p, e.name), es, x)
        case File(_, _) => if Below(p, e.name) == x then Some(e.node) else None
        case Other => None;
      if here.Some? then here else Lookup(p, entries[..|entries| - 1], x)
  }

  predicate OnDisk(root: Node, item: Output) {
    root.Dir? && Lookup("", root.entries, item.path) == Some(File(item.bytes, item.sha256))
  }

  ghost predicate OutputsFit(o: Options, w: World, r: Report, root: Node) {
    && (o.raw == Only ==> |r.outputs| == 1 && r.objects == 0 && r.selected == 0 && r.skipped == 0)
    && (forall k | 0 <= k < |r.outputs| :: ItemAllowed(o, w, r, r.outputs[k]))
    && DistinctPaths(r.outputs)
    && Accepted(root, PathsOf(r.outputs))
    && (forall k | 0 <= k < |r.outputs| :: OnDisk(root, r.outputs[k]))
  }

  /** A directory name is the five-digit form of a number below `n`. */
  predicate Headed(n: nat, name: string) {
    var i := Parse(name);
    i.Some? && name == FiveDigits(i.value) && i.value < n
  }

  function At(disk: map<string, Node>, name: string): Node {
    if name in disk then disk[name] else Other
  }

  ghost predicate LineFits(n: nat, o: Options, w: World, disk: map<string, Node>, r: Report) {
    && w.line(r) <= MAX_LINE
    && Headed(n, r.directory) && SafePath(r.source) && ValidDigest(r.sourceSha256)
    && if r.errors != [] then !r.cacheHit else OutputsFit(o, w, r, At(disk, r.directory))
  }

  method CheckItems(o: Options, w: World, r: Report) returns (ok: bool)
    ensures ok <==> (forall k | 0 <= k < |r.outputs| :: ItemAllowed(o, w, r, r.outputs[k])) && DistinctPaths(r.outputs)
  {
    var paths := {};
    for k := 0 to |r.outputs|
      invariant paths == PathsOf(r.outputs[..k])
      invariant forall l | 0 <= l < k :: ItemAllowed(o, w, r, r.outputs[l])
      invariant DistinctPaths(r.outputs[..k])
    {
      var item := r.outputs[k];
      if !ItemAllowed(o, w, r, item) {
        return false;
      }
      if item.path in paths {
        ghost var l :| 0 <= l < k && r.outputs[l].path == item.path;
        return false;
      }
      assert r.outputs[..k + 1] == r.outputs[..k] + [item];
      paths := paths + {item.path};
    }
    assert r.outputs[..|r.outputs|] == r.outputs;
    ok := true;
  }

  method CheckFiles(r: Report, root: Node) returns (ok: bool)
    ensures ok <==> forall k | 0 <= k < |r.outputs| :: OnDisk(root, r.outputs[k])
  {
    for k := 0 to |r.outputs|
      invariant forall l | 0 <= l < k :: OnDisk(root, r.outputs[l])
    {
      if !OnDisk(root, r.outputs[k]) {
        return false;
      }
    }
    ok := true;
  }

  method CheckOutputs(o: Options, w: World, r: Report, root: Node) returns (ok: bool)
    ensures ok <==> OutputsFit(o, w, r, root)
  {
    if o.raw == Only && (|r.outputs| != 1 || r.objects != 0 || r.selected != 0 || r.skipped != 0) {
      return false;
    }
    ok := CheckItems(o, w, r);
    if ok {
      ok := ExactTree(root, PathsOf(r.outputs));
    }
    if ok {
      ok := CheckFiles(r, root);
    }
  }

  // ---- Accounting ------------------------------------------------------------------------------

  /** What every partial total must respect for the final comparison to succeed. */
  ghost predicate Within(c: Counters, t: Tally, maxFailed: nat) {
    && c.failed <= maxFailed && c.files <= t.outputFiles && c.bytes <= t.outputBytes
    && c.failedFiles < WORD && c.failedBytes < WORD
    && c.objects < WORD && c.selected < WORD && c.skipped < WORD
  }

  ghost predicate InWords(t: Tally) {
    && t.succeeded < WORD && t.failed < WORD && t.cacheHits < WORD
    && t.objects < WORD && t.selected < WORD && t.skipped < WORD
    && t.outputFiles < WORD && t.outputBytes < WORD
  }

  predicate Matches(c: Counters, t: Tally) {
    && c.succeeded == t.succeeded && c.failed == t.failed
    && c.files + c.failedFiles == t.outputFiles && c.bytes + c.failedBytes == t.outputBytes
    && c.objects == t.objects && c.selected == t.selected && c.skipped == t.skipped
    && c.hits == t.cacheHits && c.kinds == t.payloads
  }

  /** Outputs added one by one to a count, a sum and the kinds, up to the given limits. */
  method AddOutputs(files0: nat, bytes0: nat, kinds0: map<string, nat>, outputs: seq<Output>, maxFiles: nat,
                    maxBytes: nat)
    returns (ok: bool, files: nat, bytes: nat, kinds: map<string, nat>)
    requires files0 <= maxFiles && bytes0 <= maxBytes
    ensures ok <==> files0 + |outputs| <= maxFiles && bytes0 + Bytes(outputs) <= maxBytes
    ensures ok ==> files == files0 + |outputs| && bytes == bytes0 + Bytes(outputs) && kinds == AddKinds(kinds0, outputs)
  {
    files, bytes, kinds := files0, bytes0, kinds0;
    for k := 0 to |outputs|
      invariant files == files0 + k <= maxFiles
      invariant bytes == bytes0 + Bytes(outputs[..k]) <= maxBytes
      invariant kinds == AddKinds(kinds0, outputs[..k])
    {
      assert outputs[..k + 1][..k] == outputs[..k];
      BytesPrefix(outputs, k + 1);
      files, bytes := files + 1, bytes + outputs[k].bytes;
      if files > maxFiles || bytes > maxBytes {
        return false, files, bytes, kinds;
      }
      kinds := AddKind(kinds, outputs[k].kind);
    }
    assert outputs[..|outputs|] == outputs;
    ok := true;
  }

  lemma {:induction false} BytesPrefix(outputs: seq<Output>, k: nat)
    requires k <= |outputs|
    ensures Bytes(outputs[..k]) <= Bytes(outputs)
  {
    if k < |outputs| {
      BytesPrefix(outputs[..|outputs| - 1], k);
      assert outputs[..|outputs| - 1][..k] == outputs[..k];
    } else {
      assert outputs[..k] == outputs;
    }
  }

  /** One accepted line enters the totals, unless a limit is passed. */
  method AddLine(c: Counters, r: Report, t: Tally, maxFailed: nat) returns (ok: bool, d: Counters)
    requires Within(c, t, maxFailed) && InWords(t)
    ensures ok <==> Within(Plus(c, r), t, maxFailed)
    ensures ok ==> d == Plus(c, r)
  {
    d := c;
    if r.errors != [] {
      if c.failed >= maxFailed {
        return false, c;
      }
      var files, bytes, kinds;
      ok, files, bytes, kinds := AddOutputs(c.failedFiles, c.failedBytes, c.kinds, r.outputs, WORD - 1, WORD - 1);
      if !ok {
        return;
      }
      d := d.(failed := c.failed + 1, failedFiles := files, failedBytes := bytes, kinds := kinds);
    } else {
      var files, bytes, kinds;
      ok, files, bytes, kinds := AddOutputs(c.files, c.bytes, c.kinds, r.outputs, t.outputFiles, t.outputBytes);
      if !ok {
        return;
      }
      d := d.(succeeded := c.succeeded + 1, hits := c.hits + (if r.cacheHit then 1 else 0),
              files := files, bytes := bytes, kinds := kinds);
    }
    if c.objects + r.objects >= WORD || c.selected + r.selected >= WORD || c.skipped + r.skipped >= WORD {
      return false, c;
    }
    d := d.(objects := c.objects + r.objects, selected := c.selected + r.selected, skipped := c.skipped + r.skipped);
    ok := true;
  }

  // ---- The whole verification ------------------------------------------------------------------

  predicate ScopeFits(s: Summary, region: string, maxFailed: nat) {
    && region != "cn"
    && s.schema == 4 && s.region == region && s.options.retained
    && s.tally.succeeded + s.tally.failed == s.inputFiles
    && s.tally.failed <= maxFailed
    && (s.complete <==> s.tally.failed == 0)
    && s.tally.succeeded != 0 && s.inputFiles != 0
    && s.inputFiles <= MAX_RESOURCES && s.inputFiles <= s.catalogFiles
    && s.tally.outputFiles != 0
    && s.options.kindsValid
    && (s.fullExport ==> s.options.criFull)
    && (s.options.raw != Off ==> s.options.rawValid)
    && (s.fullExport ==> s.options.raw != Only)
    && ValidDigest(s.catalogSha256)
    && (s.fullExport ==> s.fullCatalog && s.options.kindsNative)
    && (s.fullCatalog ==> s.inputFiles == s.catalogFiles)
  }

  ghost predicate LinesFit(n: nat, o: Options, w: World, disk: map<string, Node>, journal: seq<Report>) {
    forall k | 0 <= k < |journal| :: LineFits(n, o, w, disk, journal[k])
  }

  ghost predicate DistinctLines(journal: seq<Report>) {
    forall k, l | 0 <= k < l < |journal| ::
      journal[k].directory != journal[l].directory && journal[k].source != journal[l].source
  }

  predicate RootFits(disk: map<string, Node>, directories: set<string>) {
    forall name | name in disk ::
      || (disk[name].Dir? && name in directories)
      || (disk[name].File? && name in {"summary.json", "resources.jsonl"})
  }

  ghost predicate Verified(s: Summary, region: string, maxFailed: nat, w: World, disk: map<string, Node>,
                           journal: seq<Report>) {
    && w.summary(s) <= MAX_SUMMARY && ScopeFits(s, region, maxFailed)
    && LinesFit(s.inputFiles, s.options, w, disk, journal)
    && DistinctLines(journal)
    && Matches(Totals(journal), s.tally)
    && RootFits(disk, Directories(journal))
  }

  function Listed(directory: string, outputs: seq<Output>): seq<Object> {
    seq(|outputs|, k requires 0 <= k < |outputs| =>
      Object(directory + "/" + outputs[k].path, outputs[k].bytes, outputs[k].sha256))
  }

  /** What may be uploaded, besides the two receipts. */
  function Inventory(journal: seq<Report>): seq<Object> {
    if journal == [] then []
    else
      var r := journal[|journal| - 1];
      var before := Inventory(journal[..|journal| - 1]);
      if r.errors == [] then before + Listed(r.directory, r.outputs) else before
  }

  lemma MatchingWithin(c: Counters, d: Counters, t: Tally, maxFailed: nat)
    requires Leq(c, d) && Matches(d, t) && InWords(t) && t.failed <= maxFailed
    ensures Within(c, t, maxFailed)
  {
  }

  /** A matching journal keeps every partial total within the limits checked on the way. */
  lemma NextWithin(t: Tally, maxFailed: nat, a: seq<Report>, x: Report, b: seq<Report>)
    requires InWords(t) && t.failed <= maxFailed && Matches(Totals(a + [x] + b), t)
    ensures Within(Plus(Totals(a), x), t, maxFailed)
  {
    TotalsGrow(a + [x], b);
    TotalsLast(a, x);
    MatchingWithin(Plus(Totals(a), x), Totals(a + [x] + b), t, maxFailed);
  }

  lemma WithinAt(t: Tally, maxFailed: nat, journal: seq<Report>, k: nat)
    requires InWords(t) && t.failed <= maxFailed && Matches(Totals(journal), t) && k < |journal|
    ensures Within(Plus(Totals(journal[..k]), journal[k]), t, maxFailed)
  {
    SplitAt(journal, k);
    NextWithin(t, maxFailed, journal[..k], journal[k], journal[k + 1..]);
  }

  lemma SplitAt<T>(s: seq<T>, k: nat)
    requires k < |s|
    ensures s == s[..k] + [s[k]] + s[k + 1..]
  {
  }

  function NamesOf(journal: seq<Report>): set<string> {
    set k | 0 <= k < |journal| :: journal[k].directory
  }

  function SourcesOf(journal: seq<Report>): set<string> {
    set k | 0 <= k < |journal| :: journal[k].source
  }

  /** The names and sources seen so far, none of them twice. */
  ghost predicate Seen(journal: seq<Report>, names: set<string>, sources: set<string>) {
    && DistinctLines(journal)
    && names == NamesOf(journal) && |names| == |journal|
    && sources == SourcesOf(journal)
  }

  lemma NamesMore(journal: seq<Report>, r: Report)
    ensures NamesOf(journal + [r]) == NamesOf(journal) + {r.directory}
    ensures SourcesOf(journal + [r]) == SourcesOf(journal) + {r.source}
  {
    var more := journal + [r];
    assert more[|journal|] == r && forall k | 0 <= k < |journal| :: more[k] == journal[k];
  }

  lemma DistinctMore(journal: seq<Report>, r: Report)
    requires DistinctLines(journal) && r.directory !in NamesOf(journal) && r.source !in SourcesOf(journal)
    ensures DistinctLines(journal + [r])
  {
    forall k | 0 <= k < |journal| ensures journal[k].directory != r.directory && journal[k].source != r.source {
      assert journal[k].directory in NamesOf(journal) && journal[k].source in SourcesOf(journal);
    }
  }

  lemma SeeMore(journal: seq<Report>, names: set<string>, sources: set<string>, r: Report)
    requires Seen(journal, names, sources) && r.directory !in names && r.source !in sources
    ensures Seen(journal + [r], names + {r.directory}, sources + {r.source})
  {
    NamesMore(journal, r);
    DistinctMore(journal, r);
  }

  lemma InventoryMore(journal: seq<Report>, r: Report)
    ensures Inventory(journal + [r]) ==
            Inventory(journal) + if r.errors == [] then Listed(r.directory, r.outputs) else []
  {
    assert (journal + [r])[..|journal|] == journal;
  }

  lemma DirectoriesMore(journal: seq<Report>, names: set<string>, sources: set<string>, r: Report)
    requires Seen(journal, names, sources) && r.directory !in names
    ensures Directories(journal + [r]) == Directories(journal) + (if r.errors == [] then {r.directory} else {})
    ensures |Directories(journal + [r])| == |Directories(journal)| + if r.errors == [] then 1 else 0
  {
    assert (journal + [r])[..|journal|] == journal;
    if r.directory in Directories(journal) {
      DirectoriesNamed(journal, r.directory);
    }
  }

  lemma FitMore(n: nat, o: Options, w: World, disk: map<string, Node>, journal: seq<Report>, r: Report)
    requires LinesFit(n, o, w, disk, journal) && LineFits(n, o, w, disk, r)
    ensures LinesFit(n, o, w, disk, journal + [r])
  {
  }

  datatype Progress = Progress(
    names: set<string>, sources: set<string>, directories: set<string>, counters: Counters, inventory: seq<Object>)

  ghost predicate Tallied(journal: seq<Report>, p: Progress) {
    && Seen(journal, p.names, p.sources)
    && p.directories == Directories(journal) && |p.directories| == p.counters.succeeded
    && p.counters == Totals(journal) && p.inventory == Inventory(journal)
  }

  /** When one more line is read without a complaint. */
  ghost predicate Readable(s: Summary, maxFailed: nat, w: World, disk: map<string, Node>, p: Progress, line: Report) {
    && |p.names| < s.inputFiles
    && line.directory !in p.names && line.source !in p.sources
    && LineFits(s.inputFiles, s.options, w, disk, line)
    && Within(Plus(p.counters, line), s.tally, maxFailed)
  }

  function Advance(p: Progress, line: Report, c: Counters): Progress {
    var q := p.(names := p.names + {line.directory}, sources := p.sources + {line.source}, counters := c);
    if line.errors != [] then q
    else q.(directories := p.directories + {line.directory},
        inventory := p.inventory + Listed(line.directory, line.outputs))
  }

  lemma TallyMore(journal: seq<Report>, p: Progress, line: Report)
    requires Tallied(journal, p) && line.directory !in p.names && line.source !in p.sources
    ensures Tallied(journal + [line], Advance(p, line, Plus(p.counters, line)))
  {
    SeeMore(journal, p.names, p.sources, line);
    DirectoriesMore(journal, p.names, p.sources, line);
    TotalsLast(journal, line);
    InventoryMore(journal, line);
  }

  method ReadLine(s: Summary, maxFailed: nat, w: World, disk: map<string, Node>, p: Progress, line: Report)
    returns (q: Option<Progress>)
    requires InWords(s.tally) && Within(p.counters, s.tally, maxFailed)
    ensures q.Some? <==> Readable(s, maxFailed, w, disk, p, line)
    ensures q.Some? ==> q.value == Advance(p, line, Plus(p.counters, line))
  {
    if w.line(line) > MAX_LINE || |p.names| >= s.inputFiles {
      return None;
    }
    if !Headed(s.inputFiles, line.directory) || line.directory in p.names || line.source in p.sources
       || !SafePath(line.source) || !ValidDigest(line.sourceSha256) {
      return None;
    }
    var ok := !line.cacheHit;
    if line.errors == [] {
      ok := CheckOutputs(s.options, w, line, At(disk, line.directory));
    }
    if !ok {
      return None;
    }
    var c;
    ok, c := AddLine(p.counters, line, s.tally, maxFailed);
    return if ok then Some(Advance(p, line, c)) else None;
  }

  lemma FreshLine(journal: seq<Report>, k: nat, names: set<string>, sources: set<string>)
    requires k < |journal| && Seen(journal[..k], names, sources) && DistinctLines(journal)
    ensures journal[k].directory !in names && journal[k].source !in sources
  {
    assert forall l | 0 <= l < k :: journal[..k][l] == journal[l];
  }

  /** A line that is refused refuses nothing that the final comparison would have let through. */
  lemma Refused(s: Summary, region: string, maxFailed: nat, w: World, disk: map<string, Node>, journal: seq<Report>,
                k: nat, p: Progress)
    requires InWords(s.tally) && k < |journal| && Tallied(journal[..k], p)
    requires Verified(s, region, maxFailed, w, disk, journal)
    ensures Readable(s, maxFailed, w, disk, p, journal[k])
  {
    WithinAt(s.tally, maxFailed, journal, k);
    FreshLine(journal, k, p.names, p.sources);
    LineFitsAt(s.inputFiles, s.options, w, disk, journal, k);
  }

  lemma LineFitsAt(n: nat, o: Options, w: World, disk: map<string, Node>, journal: seq<Report>, k: nat)
    requires LinesFit(n, o, w, disk, journal) && k < |journal|
    ensures LineFits(n, o, w, disk, journal[k])
  {
  }

  lemma ReadMore(s: Summary, w: World, disk: map<string, Node>, done: seq<Report>, p: Progress, line: Report)
    requires LinesFit(s.inputFiles, s.options, w, disk, done) && Tallied(done, p)
    requires LineFits(s.inputFiles, s.options, w, disk, line)
    requires line.directory !in p.names && line.source !in p.sources
    ensures LinesFit(s.inputFiles, s.options, w, disk, done + [line])
    ensures Tallied(done + [line], Advance(p, line, Plus(p.counters, line)))
  {
    FitMore(s.inputFiles, s.options, w, disk, done, line);
    TallyMore(done, p, line);
  }

  lemma PrefixMore(journal: seq<Report>, k: nat)
    requires k < |journal|
    ensures journal[..k + 1] == journal[..k] + [journal[k]]
  {
  }

  method ReadJournal(s: Summary, region: string, maxFailed: nat, w: World, disk: map<string, Node>,
                     journal: seq<Report>)
    returns (r: Option<Progress>)
    requires InWords(s.tally) && ScopeFits(s, region, maxFailed)
    ensures r.Some? ==> LinesFit(s.inputFiles, s.options, w, disk, journal) && Tallied(journal, r.value)
    ensures Verified(s, region, maxFailed, w, disk, journal) ==> r.Some?
  {
    var p := Progress({}, {}, {}, ZERO, []);
    for k := 0 to |journal|
      invariant LinesFit(s.inputFiles, s.options, w, disk, journal[..k])
      invariant Tallied(journal[..k], p)
      invariant Within(p.counters, s.tally, maxFailed)
    {
      if Verified(s, region, maxFailed, w, disk, journal) {
        Refused(s, region, maxFailed, w, disk, journal, k, p);
      }
      var q := ReadLine(s, maxFailed, w, disk, p, journal[k]);
      if q.None? {
        return None;
      }
      PrefixMore(journal, k);
      ReadMore(s, w, disk, journal[..k], p, journal[k]);
      p := q.value;
    }
    assert journal[..|journal|] == journal;
    return Some(p);
  }

  /** Reads summary, journal and tree; the allowlist comes out only when everything agrees. */
  method Verify(s: Summary, region: string, maxFailed: nat, w: World, disk: map<string, Node>, journal: seq<Report>)
    returns (r: Option<seq<Object>>)
    requires InWords(s.tally)
    ensures r.Some? <==> Verified(s, region, maxFailed, w, disk, journal)
    ensures r.Some? ==> r.value == Inventory(journal)
  {
    if w.summary(s) > MAX_SUMMARY || !ScopeFits(s, region, maxFailed) {
      return None;
    }
    var p := ReadJournal(s, region, maxFailed, w, disk, journal);
    if p.None? || !Matches(p.value.counters, s.tally) || !RootFits(disk, p.value.directories) {
      return None;
    }
    return Some(p.value.inventory);
  }
}
