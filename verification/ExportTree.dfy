/** `exact_tree`: accept a directory only when it holds exactly the declared files. */
module ExportTree {

  /** What a directory entry is: anything that is neither a file nor a directory is `Other`. */
  datatype Node = File(bytes: nat, sha256: string) | Other | Dir(entries: seq<Entry>)

  /** `utf8` says whether the name is text, as only then a path converts to a string. */
  datatype Entry = Entry(name: string, utf8: bool, node: Node)

  /** A relative path, from the listed root; the root itself is empty. */
  type Path = string

  function Below(p: Path, name: string): Path {
    if p == "" then name else p + "/" + name
  }

  const MAX_DIRECTORIES: nat := 1_000_000

  function Normalize(s: string): (r: string)
    ensures |r| == |s|
    ensures forall i | 0 <= i < |s| :: r[i] == if s[i] == '\\' then '/' else s[i]
  {
    seq(|s|, i requires 0 <= i < |s| => if s[i] == '\\' then '/' else s[i])
  }

  /** The text the walk compares with the declared paths. */
  function Text(p: Path): string {
    Normalize(p)
  }

  predicate IsPrefix(a: string, b: string) {
    |a| <= |b| && b[..|a|] == a
  }

  ghost predicate Ancestor(p: Path, expected: set<string>) {
    exists e | e in expected :: IsPrefix(Text(p) + "/", e)
  }

  // ---- What the walk sees ----------------------------------------------------------------------

  /** Every check the walk makes on one entry, apart from the two counters. */
  ghost predicate EntryFits(p: Path, e: Entry, expected: set<string>) {
    match e.node
    case Dir(_) => e.utf8 && Ancestor(Below(p, e.name), expected)
    case File(_, _) => e.utf8 && Text(Below(p, e.name)) in expected
    case Other => false
  }

  ghost predicate Fits(p: Path, entries: seq<Entry>, expected: set<string>)
    decreases entries
  {
    entries == [] ||
    var e := entries[|entries| - 1];
    && Fits(p, entries[..|entries| - 1], expected)
    && EntryFits(p, e, expected)
    && (e.node.Dir? ==> Fits(Below(p, e.name), e.node.entries, expected))
  }

  function FileCount(entries: seq<Entry>): nat
    decreases entries
  {
    if entries == [] then 0
    else
      FileCount(entries[..|entries| - 1]) +
      match entries[|entries| - 1].node
      case Dir(es) => FileCount(es)
      case File(_, _) => 1
      case Other => 0
  }

  function DirCount(entries: seq<Entry>): nat
    decreases entries
  {
    if entries == [] then 0
    else
      DirCount(entries[..|entries| - 1]) +
      match entries[|entries| - 1].node
      case Dir(es) => 1 + DirCount(es)
      case _ => 0
  }

  datatype Pending = Pending(path: Path, entries: seq<Entry>)

  function PendingFiles(s: seq<Pending>): nat {
    if s == [] then 0 else PendingFiles(s[..|s| - 1]) + FileCount(s[|s| - 1].entries)
  }

  function PendingDirs(s: seq<Pending>): nat {
    if s == [] then 0 else PendingDirs(s[..|s| - 1]) + DirCount(s[|s| - 1].entries)
  }

  ghost predicate PendingFit(s: seq<Pending>, expected: set<string>) {
    forall k | 0 <= k < |s| :: Fits(s[k].path, s[k].entries, expected)
  }

  /** Entries below the pending directories, each counted with its own listing step. */
  function Work(s: seq<Pending>): nat {
    if s == [] then 0 else Work(s[..|s| - 1]) + 1 + DirCount(s[|s| - 1].entries)
  }

  /** What the first `i` entries of a listing put on the worklist. */
  function Children(p: Path, entries: seq<Entry>): seq<Pending> {
    if entries == [] then []
    else
      var e := entries[|entries| - 1];
      var before := Children(p, entries[..|entries| - 1]);
      if e.node.Dir? then before + [Pending(Below(p, e.name), e.node.entries)] else before
  }

  ghost predicate Accepted(root: Node, expected: set<string>) {
    && root.Dir?
    && Fits("", root.entries, expected)
    && DirCount(root.entries) <= MAX_DIRECTORIES
    && FileCount(root.entries) == |expected|
  }

  method HasAncestor(prefix: string, expected: set<string>) returns (found: bool)
    ensures found <==> exists e | e in expected :: IsPrefix(prefix, e)
  {
    var rest := expected;
    found := false;
    while rest != {}
      invariant rest <= expected
      invariant forall e | e in expected - rest :: !IsPrefix(prefix, e)
      decreases |rest|
    {
      var e :| e in rest;
      if IsPrefix(prefix, e) {
        return true;
      }
      rest := rest - {e};
    }
  }

  lemma {:induction false} PendingAppend(a: seq<Pending>, b: seq<Pending>)
    ensures PendingFiles(a + b) == PendingFiles(a) + PendingFiles(b)
    ensures PendingDirs(a + b) == PendingDirs(a) + PendingDirs(b)
    ensures Work(a + b) == Work(a) + Work(b)
  {
    if b == [] {
      assert a + b == a;
    } else {
      PendingAppend(a, b[..|b| - 1]);
      assert (a + b)[..|a + b| - 1] == a + b[..|b| - 1];
    }
  }

  /** Own counts of a listing, apart from what its subdirectories hold. */
  function OwnFiles(entries: seq<Entry>): nat {
    if entries == [] then 0 else OwnFiles(entries[..|entries| - 1]) + if entries[|entries| - 1].node.File? then 1 else 0
  }

  lemma {:induction false} ChildrenCount(p: Path, entries: seq<Entry>)
    ensures FileCount(entries) == OwnFiles(entries) + PendingFiles(Children(p, entries))
    ensures DirCount(entries) == |Children(p, entries)| + PendingDirs(Children(p, entries))
    ensures Work(Children(p, entries)) == DirCount(entries)
  {
    if entries != [] {
      var init, e := entries[..|entries| - 1], entries[|entries| - 1];
      ChildrenCount(p, init);
      if e.node.Dir? {
        var c := [Pending(Below(p, e.name), e.node.entries)];
        PendingAppend(Children(p, init), c);
        assert Children(p, entries) == Children(p, init) + c;
        assert c[..0] == [];
        assert PendingFiles(c) == FileCount(e.node.entries) && PendingDirs(c) == DirCount(e.node.entries);
        assert Work(c) == 1 + DirCount(e.node.entries);
      }
    }
  }

  lemma {:induction false} ChildrenFit(p: Path, entries: seq<Entry>, expected: set<string>)
    ensures Fits(p, entries, expected) <==>
            AllFit(p, entries, expected) && PendingFit(Children(p, entries), expected)
  {
    if entries != [] {
      var init, e := entries[..|entries| - 1], entries[|entries| - 1];
      ChildrenFit(p, init, expected);
      assert forall k | 0 <= k < |init| :: entries[k] == init[k];
      assert Fits(p, entries, expected) <==>
             Fits(p, init, expected) && EntryFits(p, e, expected) &&
                 (e.node.Dir? ==> Fits(Below(p, e.name), e.node.entries, expected));
      if e.node.Dir? {
        var c, all := Children(p, init), Children(p, entries);
        assert all == c + [Pending(Below(p, e.name), e.node.entries)];
        assert forall k | 0 <= k < |c| :: all[k] == c[k];
        assert all[|c|] == Pending(Below(p, e.name), e.node.entries);
        assert PendingFit(all, expected) <==>
            PendingFit(c, expected) && Fits(Below(p, e.name), e.node.entries, expected);
      }
    }
  }

  lemma {:induction false} CountPrefix(p: Path, entries: seq<Entry>, i: nat)
    requires i <= |entries|
    ensures |Children(p, entries[..i])| <= |Children(p, entries)|
  {
    if i < |entries| {
      CountPrefix(p, entries[..|entries| - 1], i);
      assert entries[..|entries| - 1][..i] == entries[..i];
    } else {
      assert entries[..i] == entries;
    }
  }

  ghost predicate AllFit(p: Path, entries: seq<Entry>, expected: set<string>) {
    forall k | 0 <= k < |entries| :: EntryFits(p, entries[k], expected)
  }

  /** One directory listing: its subdirectories go on the worklist, its files are counted. */
  method List(relative: Path, entries: seq<Entry>, expected: set<string>, pending0: seq<Pending>, count0: nat,
              directories0: nat)
    returns (ok: bool, pending: seq<Pending>, count: nat, directories: nat)
    requires directories0 <= MAX_DIRECTORIES
    ensures ok <==>
              AllFit(relative, entries, expected) && directories0 + |Children(relative, entries)| <= MAX_DIRECTORIES
    ensures ok ==> pending == pending0 + Children(relative, entries)
    ensures ok ==> count == count0 + OwnFiles(entries) && directories == directories0 + |Children(relative, entries)|
  {
    pending, count, directories := pending0, count0, directories0;
    for i := 0 to |entries|
      invariant pending == pending0 + Children(relative, entries[..i])
      invariant count == count0 + OwnFiles(entries[..i])
      invariant directories == directories0 + |Children(relative, entries[..i])| <= MAX_DIRECTORIES
      invariant AllFit(relative, entries[..i], expected)
    {
      assert entries[..i + 1][..i] == entries[..i];
      var e := entries[i];
      var path := Below(relative, e.name);
      match e.node {
        case Dir(children) =>
          directories := directories + 1;
          CountPrefix(relative, entries, i + 1);
          var found := HasAncestor(Text(path) + "/", expected);
          assert found <==> Ancestor(path, expected);
          if !e.utf8 || directories > MAX_DIRECTORIES || !found {
            return false, pending, count, directories;
          }
          pending := pending + [Pending(path, children)];
        case File(_, _) =>
          if !e.utf8 || Text(path) !in expected {
            return false, pending, count, directories;
          }
          count := count + 1;
        case Other =>
          return false, pending, count, directories;
      }
    }
    assert entries[..|entries|] == entries;
    ok := true;
  }

  /** What was counted and what is pending make up the tree, and what is pending is all that can still misfit. */
  ghost predicate Walked(root: seq<Entry>, expected: set<string>, pending: seq<Pending>, count: nat, directories: nat) {
    && count + PendingFiles(pending) == FileCount(root)
    && directories + PendingDirs(pending) == DirCount(root)
    && directories <= MAX_DIRECTORIES
    && (Fits("", root, expected) <==> PendingFit(pending, expected))
  }

  lemma ListingStep(root: seq<Entry>, expected: set<string>, rest: seq<Pending>, d: Pending, count: nat,
                    directories: nat)
    requires Walked(root, expected, rest + [d], count, directories)
    ensures var children := Children(d.path, d.entries);
            if AllFit(d.path, d.entries, expected) && directories + |children| <= MAX_DIRECTORIES then
              && Walked(root, expected, rest + children, count + OwnFiles(d.entries), directories + |children|)
              && Work(rest + children) < Work(rest + [d])
            else
              !Fits("", root, expected) || DirCount(root) > MAX_DIRECTORIES
  {
    ListingDone(rest, d, rest + [d], expected);
  }

  /** The walk decides `Accepted`: it terminates, and its early refusals refuse nothing more. */
  method ExactTree(root: Node, expected: set<string>) returns (ok: bool)
    ensures ok <==> Accepted(root, expected)
  {
    if !root.Dir? {
      return false;
    }
    var pending := [Pending("", root.entries)];
    var count, directories := 0, 0;
    SinglePending(pending, expected);
    while pending != []
      invariant Walked(root.entries, expected, pending, count, directories)
      decreases Work(pending)
    {
      var rest, d := pending[..|pending| - 1], pending[|pending| - 1];
      assert pending == rest + [d];
      ListingStep(root.entries, expected, rest, d, count, directories);
      var fine;
      fine, pending, count, directories := List(d.path, d.entries, expected, rest, count, directories);
      if !fine {
        return false;
      }
    }
    return count == |expected|;
  }

  lemma SinglePending(s: seq<Pending>, expected: set<string>)
    requires |s| == 1
    ensures PendingFiles(s) == FileCount(s[0].entries) && PendingDirs(s) == DirCount(s[0].entries)
    ensures PendingFit(s, expected) <==> Fits(s[0].path, s[0].entries, expected)
  {
    assert s[..0] == [];
  }

  /** Replacing a pending directory by its subdirectories keeps what is left to check. */
  lemma ListingDone(rest: seq<Pending>, d: Pending, before: seq<Pending>, expected: set<string>)
    requires before == rest + [d]
    ensures var after := rest + Children(d.path, d.entries);
            && PendingFiles(before) == OwnFiles(d.entries) + PendingFiles(after)
            && PendingDirs(before) == |Children(d.path, d.entries)| + PendingDirs(after)
            && Work(after) < Work(before)
            && (PendingFit(before, expected) <==> AllFit(d.path, d.entries, expected) && PendingFit(after, expected))
  {
    var children := Children(d.path, d.entries);
    ChildrenCount(d.path, d.entries);
    ChildrenFit(d.path, d.entries, expected);
    PendingAppend(rest, children);
    PendingAppend(rest, [d]);
    assert [d][..0] == [];
    FitAppend(rest, children, expected);
    FitAppend(rest, [d], expected);
    assert PendingFit([d], expected) <==> Fits([d][0].path, [d][0].entries, expected);
  }

  lemma FitAppend(a: seq<Pending>, b: seq<Pending>, expected: set<string>)
    ensures PendingFit(a + b, expected) <==> PendingFit(a, expected) && PendingFit(b, expected)
  {
    assert forall k | 0 <= k < |a| :: (a + b)[k] == a[k];
    assert forall k | 0 <= k < |b| :: (a + b)[|a| + k] == b[k];
  }

  // ---- What acceptance means -------------------------------------------------------------------

  /** The paths of the regular files of a listing. */
  ghost function Names(p: Path, entries: seq<Entry>): set<string>
    decreases entries
  {
    if entries == [] then {}
    else
      var e := entries[|entries| - 1];
      Names(p, entries[..|entries| - 1]) +
      match e.node
      case Dir(es) => Names(Below(p, e.name), es)
      case File(_, _) => {Below(p, e.name)}
      case Other => {}
  }

  /** What a file system guarantees of names: nonempty, one component, unique in their directory. */
  ghost predicate WellFormed(entries: seq<Entry>)
    decreases entries
  {
    entries == [] ||
    var init, e := entries[..|entries| - 1], entries[|entries| - 1];
    && WellFormed(init)
    && e.name != "" && '/' !in e.name
    && (forall k | 0 <= k < |init| :: init[k].name != e.name)
    && (e.node.Dir? ==> WellFormed(e.node.entries))
  }

  ghost predicate Clean(entries: seq<Entry>)
    decreases entries
  {
    entries == [] ||
    var e := entries[|entries| - 1];
    && Clean(entries[..|entries| - 1])
    && '\\' !in e.name
    && (e.node.Dir? ==> Clean(e.node.entries))
  }

  /** Text names only, no links or devices, and no directory without a file somewhere below it. */
  ghost predicate Plain(entries: seq<Entry>)
    decreases entries
  {
    entries == [] ||
    var e := entries[|entries| - 1];
    && Plain(entries[..|entries| - 1])
    && e.utf8
    && !e.node.Other?
    && (e.node.Dir? ==> FileCount(e.node.entries) > 0 && Plain(e.node.entries))
  }

  ghost predicate Exact(root: Node, expected: set<string>) {
    && root.Dir?
    && Names("", root.entries) == expected
    && Plain(root.entries)
    && DirCount(root.entries) <= MAX_DIRECTORIES
  }

  function Start(p: Path): string {
    if p == "" then "" else p + "/"
  }

  /** Where a path below `p` continues: it belongs to the entry named by its next component. */
  ghost predicate Through(p: Path, name: string, x: string) {
    x == Below(p, name) || IsPrefix(Below(p, name) + "/", x)
  }

  lemma BelowText(p: Path, name: string)
    ensures Below(p, name) == Start(p) + name
    ensures name != "" ==> Start(Below(p, name)) == Start(p) + name + "/"
  {
  }

  lemma ThroughShape(p: Path, a: string, x: string)
    requires Through(p, a, x)
    ensures var n := |Start(p)|;
            && n + |a| <= |x| && x[n..n + |a|] == a
            && (n + |a| < |x| ==> x[n + |a|] == '/')
  {
    BelowText(p, a);
    var n := |Start(p)|;
    assert x[..n + |a|] == Start(p) + a by {
      if x != Below(p, a) {
        assert x[..n + |a|] == x[..n + |a| + 1][..n + |a|];
      }
    }
    assert x[n..n + |a|] == x[..n + |a|][n..];
    if x != Below(p, a) {
      assert x[n + |a|] == (Below(p, a) + "/")[n + |a|];
    }
  }

  lemma ThroughLonger(p: Path, a: string, b: string, x: string)
    requires Through(p, a, x) && Through(p, b, x) && |a| < |b|
    ensures '/' in b
  {
    ThroughShape(p, a, x);
    ThroughShape(p, b, x);
    var n := |Start(p)|;
    assert x[n..n + |b|][|a|] == '/';
  }

  lemma ThroughOne(p: Path, a: string, b: string, x: string)
    requires '/' !in a && '/' !in b
    requires Through(p, a, x) && Through(p, b, x)
    ensures a == b
  {
    ThroughShape(p, a, x);
    ThroughShape(p, b, x);
    if |a| < |b| {
      ThroughLonger(p, a, b, x);
    } else if |b| < |a| {
      ThroughLonger(p, b, a, x);
    }
  }

  lemma {:induction false} NamesThrough(p: Path, entries: seq<Entry>, x: string)
    requires WellFormed(entries) && x in Names(p, entries)
    ensures IsPrefix(Start(p), x) && |Start(p)| < |x|
    ensures exists k :: 0 <= k < |entries| && Through(p, entries[k].name, x)
    decreases entries
  {
    var init, e := entries[..|entries| - 1], entries[|entries| - 1];
    if x in Names(p, init) {
      NamesThrough(p, init, x);
      var k :| 0 <= k < |init| && Through(p, init[k].name, x);
      assert Through(p, entries[k].name, x);
    } else {
      BelowText(p, e.name);
      if e.node.Dir? {
        NamesThrough(Below(p, e.name), e.node.entries, x);
      }
      assert Through(p, entries[|entries| - 1].name, x);
    }
  }

  /** Names of one entry are not names of its siblings. */
  lemma Siblings(p: Path, entries: seq<Entry>, x: string)
    requires entries != [] && WellFormed(entries)
    requires Through(p, entries[|entries| - 1].name, x)
    ensures x !in Names(p, entries[..|entries| - 1])
  {
    var init, e := entries[..|entries| - 1], entries[|entries| - 1];
    if x in Names(p, init) {
      NamesThrough(p, init, x);
      var k :| 0 <= k < |init| && Through(p, init[k].name, x);
      NameOk(init, k);
      ThroughOne(p, init[k].name, e.name, x);
      assert false;
    }
  }

  lemma {:induction false} NameOk(entries: seq<Entry>, k: nat)
    requires WellFormed(entries) && k < |entries|
    ensures '/' !in entries[k].name && entries[k].name != ""
  {
    if k < |entries| - 1 {
      NameOk(entries[..|entries| - 1], k);
    }
  }

  /** Distinct files have distinct paths. */
  lemma {:induction false} NamesCount(p: Path, entries: seq<Entry>)
    requires WellFormed(entries)
    ensures |Names(p, entries)| == FileCount(entries)
    decreases entries
  {
    if entries != [] {
      var init, e := entries[..|entries| - 1], entries[|entries| - 1];
      NamesCount(p, init);
      var last :=
        match e.node
        case Dir(es) => Names(Below(p, e.name), es)
        case File(_, _) => {Below(p, e.name)}
        case Other => {};
      if e.node.Dir? {
        NamesCount(Below(p, e.name), e.node.entries);
      }
      forall x | x in last ensures x !in Names(p, init) {
        BelowText(p, e.name);
        if e.node.Dir? {
          NamesThrough(Below(p, e.name), e.node.entries, x);
        }
        Siblings(p, entries, x);
      }
      assert Names(p, entries) == Names(p, init) + last;
      assert Names(p, init) !! last;
    }
  }

  lemma FullSubset<T>(a: set<T>, b: set<T>)
    requires a <= b && |a| == |b|
    ensures a == b
  {
    assert |b - a| == 0 by {
      assert b == a + (b - a);
    }
    assert b - a == {};
  }

  predicate NoBackslash(s: string) {
    '\\' !in s
  }

  lemma {:induction false} FitsMeans(p: Path, entries: seq<Entry>, expected: set<string>)
    requires Clean(entries) && NoBackslash(p) && Fits(p, entries, expected)
    ensures Names(p, entries) <= expected
    decreases entries
  {
    if entries != [] {
      var e := entries[|entries| - 1];
      FitsMeans(p, entries[..|entries| - 1], expected);
      assert Normalize(Below(p, e.name)) == Below(p, e.name);
      if e.node.Dir? {
        FitsMeans(Below(p, e.name), e.node.entries, expected);
      }
    }
  }

  /** Inside an accepted tree, the declared paths under a directory are the files it holds. */
  lemma {:induction false} FitsPlain(p: Path, entries: seq<Entry>, expected: set<string>, all: seq<Entry>)
    requires Clean(entries) && NoBackslash(p) && Fits(p, entries, expected)
    requires WellFormed(all) && entries <= all
    requires forall x | x in expected && IsPrefix(Start(p), x) :: x in Names(p, all)
    ensures Plain(entries)
    decreases entries
  {
    if entries != [] {
      var init, e := entries[..|entries| - 1], entries[|entries| - 1];
      FitsPlain(p, init, expected, all);
      if e.node.Dir? {
        var q, es := Below(p, e.name), e.node.entries;
        assert Normalize(q) == q;
        assert all[|entries| - 1] == e;
        NameOk(all, |entries| - 1);
        forall x | x in expected && IsPrefix(Start(q), x) ensures x in Names(q, es) {
          BelowText(p, e.name);
          assert x[..|Start(p)|] == x[..|Start(q)|][..|Start(p)|] == Start(p);
          OwnerHolds(p, all, |entries| - 1, x);
        }
        WellFormedAt(all, |entries| - 1);
        FitsPlain(q, es, expected, es);
        var x :| x in expected && IsPrefix(q + "/", x);
        assert x in Names(q, es);
        NamesCount(q, es);
      }
    }
  }

  lemma {:induction false} WellFormedAt(entries: seq<Entry>, k: nat)
    requires WellFormed(entries) && k < |entries|
    ensures entries[k].node.Dir? ==> WellFormed(entries[k].node.entries)
  {
    if k < |entries| - 1 {
      WellFormedAt(entries[..|entries| - 1], k);
    }
  }

  /** A name under directory entry `k` is one of the names that directory contributes. */
  lemma {:induction false} OwnerHolds(p: Path, entries: seq<Entry>, k: nat, x: string)
    requires WellFormed(entries) && k < |entries| && entries[k].node.Dir?
    requires x in Names(p, entries) && IsPrefix(Start(Below(p, entries[k].name)), x)
    ensures x in Names(Below(p, entries[k].name), entries[k].node.entries)
  {
    var init, last := entries[..|entries| - 1], entries[|entries| - 1];
    NameOk(entries, k);
    BelowText(p, entries[k].name);
    assert Through(p, entries[k].name, x);
    if k == |entries| - 1 {
      Siblings(p, entries, x);
    } else if x in Names(p, init) {
      OwnerHolds(p, init, k, x);
    } else {
      NameOk(entries, |entries| - 1);
      BelowText(p, last.name);
      if last.node.Dir? {
        NamesThrough(Below(p, last.name), last.node.entries, x);
      }
      ThroughOne(p, entries[k].name, last.name, x);
      DistinctNames(entries, k);
      assert false;
    }
  }

  lemma DistinctNames(entries: seq<Entry>, k: nat)
    requires WellFormed(entries) && k < |entries| - 1
    ensures entries[k].name != entries[|entries| - 1].name
  {
    assert entries[..|entries| - 1][k] == entries[k];
  }

  lemma {:induction false} PlainFits(p: Path, entries: seq<Entry>, expected: set<string>)
    requires WellFormed(entries) && Plain(entries) && NoBackslash(p)
    requires forall x | x in expected :: NoBackslash(x)
    requires Names(p, entries) <= expected
    ensures Fits(p, entries, expected) && Clean(entries)
    decreases entries
  {
    if entries != [] {
      var init, e := entries[..|entries| - 1], entries[|entries| - 1];
      PlainFits(p, init, expected);
      BelowText(p, e.name);
      if e.node.Dir? {
        var q, es := Below(p, e.name), e.node.entries;
        NamesCount(q, es);
        assert Names(q, es) != {};
        var x :| x in Names(q, es);
        NamesThrough(q, es, x);
        assert x in expected;
        NoBackslashPart(p, e.name, x);
        assert IsPrefix(q + "/", x);
        assert Normalize(q) == q;
        PlainFits(q, es, expected);
      } else {
        NoBackslashPart(p, e.name, Below(p, e.name));
        assert Normalize(Below(p, e.name)) == Below(p, e.name);
      }
    }
  }

  lemma NoBackslashPart(p: Path, name: string, x: string)
    requires NoBackslash(x) && Through(p, name, x)
    ensures NoBackslash(name) && (NoBackslash(p) ==> NoBackslash(Below(p, name)))
  {
    ThroughShape(p, name, x);
    var n := |Start(p)|;
    forall i | 0 <= i < |name| ensures name[i] != '\\' {
      assert x[n + i] == x[n..n + |name|][i] == name[i];
    }
  }

  /**
   * The walk accepts exactly the trees it is meant to accept, except for names with a backslash:
   * those are rewritten before the comparison. The declared paths themselves never hold one.
   */
  lemma AcceptedIsExact(root: Node, expected: set<string>)
    requires root.Dir? ==> WellFormed(root.entries)
    requires forall x | x in expected :: NoBackslash(x)
    ensures Exact(root, expected) <==> Accepted(root, expected) && Clean(root.entries)
  {
    if root.Dir? {
      var es := root.entries;
      NamesCount("", es);
      if Accepted(root, expected) && Clean(es) {
        FitsMeans("", es, expected);
        FullSubset(Names("", es), expected);
        FitsPlain("", es, expected, es);
      }
      if Exact(root, expected) {
        PlainFits("", es, expected);
      }
    }
  }

  /** A file named `a\b` stands in for the missing file `c`. */
  lemma BackslashAccepted()
    ensures var a := Entry("a", true, Dir([Entry("b", true, File(1, "x"))]));
            var root := Dir([a, Entry("a\\b", true, File(2, "y"))]);
            Accepted(root, {"a/b", "c"}) && WellFormed(root.entries) && "c" !in Names("", root.entries)
  {
    var inner := [Entry("b", true, File(1, "x"))];
    var d, f := Entry("a", true, Dir(inner)), Entry("a\\b", true, File(2, "y"));
    var es, expected := [d, f], {"a/b", "c"};
    assert es[..1] == [d] && [d][..0] == [] && inner[..0] == [];
    assert Below("a", "b") == "a/b";
    assert Text("a/b") == "a/b" && Text("a\\b") == "a/b" && Text("a") == "a";
    assert IsPrefix(Text("a") + "/", "a/b");
    assert Fits("a", inner, expected);
    assert EntryFits("", d, expected) by {
      assert Below("", "a") == "a";
      assert Ancestor("a", expected);
    }
    assert Fits("", [d], expected);
    assert FileCount(inner) == 1 && DirCount(inner) == 0;
    assert FileCount([d]) == 1 && DirCount([d]) == 1;
    assert Names("a", inner) == {"a/b"};
    assert Names("", [d]) == {"a/b"};
    assert '/' !in "a\\b";
    assert WellFormed(inner) && WellFormed([d]);
    assert [d][0].name != f.name;
  }
}
