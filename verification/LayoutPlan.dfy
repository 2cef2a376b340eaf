/** Planning an export: every output claims a key, collisions are resolved, equal content is shared. */
module LayoutPlan {
  import opened Wrappers
  import opened Decimal
  import opened CaseFolding
  import opened KeyFolding
  import opened StableLayout

  datatype Entry = Entry(path: string, local: string, bytes: nat, sha256: string, source: string, kind: string)

  /** A claim on `key` for some content, and where it ended: entry `home`, at attempt `attempt`. */
  datatype Request = Request(key: string, bytes: nat, sha256: string, home: nat, attempt: nat)

  /** The planned entries with the two lookup maps: folded path to path, and path to entry. */
  datatype Plan = Plan(entries: seq<Entry>, claimed: map<string, nat>, lowered: map<string, string>)

  /** The entry that holds a key, up to case. */
  function Holder(k: Scheme, p: Plan, key: string): Option<nat> {
    var f := k.fold(key);
    if f in p.lowered && p.lowered[f] in p.claimed then Some(p.claimed[p.lowered[f]]) else None
  }

  /** The two maps are exact. */
  ghost predicate Indexed(k: Scheme, p: Plan) {
    && (forall i | 0 <= i < |p.entries| :: Holder(k, p, p.entries[i].path) == Some(i))
    && (forall f | f in p.lowered :: p.lowered[f] in p.claimed && k.fold(p.lowered[f]) == f)
    && (forall x | x in p.claimed :: p.claimed[x] < |p.entries| && p.entries[p.claimed[x]].path == x)
  }

  predicate SameContent(e: Entry, bytes: nat, sha256: string) {
    e.sha256 == sha256 && e.bytes == bytes
  }

  /** Attempt `n` of a claim meets a key that holds something else. */
  ghost predicate Refused(k: Scheme, p: Plan, key: string, bytes: nat, sha256: string, n: nat) {
    var h := Holder(k, p, k.variant(key, n));
    h.Some? && h.value < |p.entries| && !SameContent(p.entries[h.value], bytes, sha256)
  }

  ghost predicate RefusedBefore(k: Scheme, p: Plan, key: string, bytes: nat, sha256: string, n: nat) {
    forall m | 1 <= m < n :: Refused(k, p, key, bytes, sha256, m)
  }

  /** The claim ended at its own content, on its own chain of variants, and no earlier attempt could. */
  ghost predicate Settled(k: Scheme, p: Plan, c: Request) {
    && c.attempt >= 1 && c.home < |p.entries|
    && Holder(k, p, k.variant(c.key, c.attempt)) == Some(c.home)
    && SameContent(p.entries[c.home], c.bytes, c.sha256)
    && RefusedBefore(k, p, c.key, c.bytes, c.sha256, c.attempt)
  }

  /** Entry `i` was created by claim `firsts[i]`, under the variant that claim ended at. */
  ghost predicate Created(k: Scheme, entries: seq<Entry>, claims: seq<Request>, firsts: seq<nat>) {
    && |firsts| == |entries|
    && forall i | 0 <= i < |entries| ::
         && firsts[i] < |claims| && claims[firsts[i]].home == i
         && entries[i].path == k.variant(claims[firsts[i]].key, claims[firsts[i]].attempt)
  }

  /** How many entries carry another name than the one claimed. */
  ghost function Renamed(claims: seq<Request>, firsts: seq<nat>): nat
    requires forall i | 0 <= i < |firsts| :: firsts[i] < |claims|
  {
    if firsts == [] then 0
    else Renamed(claims, firsts[..|firsts| - 1]) + if claims[firsts[|firsts| - 1]].attempt > 1 then 1 else 0
  }

  ghost predicate AllSettled(k: Scheme, p: Plan, claims: seq<Request>) {
    forall i {:trigger Settled(k, p, claims[i])} | 0 <= i < |claims| :: Settled(k, p, claims[i])
  }

  lemma SettledToo(k: Scheme, p: Plan, claims: seq<Request>, c: Request)
    requires AllSettled(k, p, claims) && Settled(k, p, c)
    ensures AllSettled(k, p, claims + [c])
  {
    var more := claims + [c];
    forall i | 0 <= i < |more| ensures Settled(k, p, more[i]) {
      assert i < |claims| ==> Settled(k, p, claims[i]);
    }
  }

  /** Everything a plan keeps true, whatever is claimed. */
  ghost predicate Planned(k: Scheme, p: Plan, claims: seq<Request>, firsts: seq<nat>) {
    && Indexed(k, p)
    && AllSettled(k, p, claims)
    && Created(k, p.entries, claims, firsts)
  }

  /** Entries that got another name than the one claimed, and claims that got an entry of another. */
  ghost predicate Counted(k: Scheme, p: Plan, claims: seq<Request>, firsts: seq<nat>, renamed: nat, deduplicated: nat) {
    && Created(k, p.entries, claims, firsts)
    && renamed == Renamed(claims, firsts)
    && |p.entries| + deduplicated == |claims|
  }

  // ---- Attempts are finite ---------------------------------------------------------------------

  /** The folded keys of the first `n` attempts. */
  ghost function Tried(k: Scheme, key: string, n: nat): set<string> {
    if n == 0 then {} else Tried(k, key, n - 1) + {Asked(k, key, n)}
  }

  lemma {:induction false} TriedWhere(k: Scheme, key: string, n: nat, f: string)
    requires f in Tried(k, key, n)
    ensures exists m :: 1 <= m <= n && f == Asked(k, key, m)
  {
    if f in Tried(k, key, n - 1) {
      TriedWhere(k, key, n - 1, f);
    }
  }

  lemma {:induction false} TriedCount(k: Scheme, key: string, n: nat)
    requires Separating(k)
    ensures |Tried(k, key, n)| == n
  {
    if n > 0 {
      TriedCount(k, key, n - 1);
      var f := Asked(k, key, n);
      if f in Tried(k, key, n - 1) {
        TriedWhere(k, key, n - 1, f);
      }
    }
  }

  lemma SubsetCount<T>(a: set<T>, b: set<T>)
    requires a <= b
    ensures |a| <= |b|
  {
    assert b == a + (b - a);
  }

  /** A claim cannot be refused more often than there are keys in use. */
  lemma Pigeonhole(k: Scheme, key: string, n: nat, lowered: map<string, string>)
    requires Separating(k) && forall m | 1 <= m <= n :: Asked(k, key, m) in lowered
    ensures n <= |lowered|
  {
    forall f | f in Tried(k, key, n) ensures f in lowered.Keys {
      TriedWhere(k, key, n, f);
    }
    TriedCount(k, key, n);
    SubsetCount(Tried(k, key, n), lowered.Keys);
  }

  // ---- Adding an entry -------------------------------------------------------------------------

  function Add(k: Scheme, p: Plan, e: Entry): Plan {
    Plan(p.entries + [e], p.claimed[e.path := |p.entries|], p.lowered[k.fold(e.path) := e.path])
  }

  /** A key that was taken stays with its holder, and the new path is held by the new entry. */
  lemma AddHolders(k: Scheme, p: Plan, e: Entry, x: string)
    requires Indexed(k, p) && k.fold(e.path) !in p.lowered
    ensures Holder(k, Add(k, p, e), e.path) == Some(|p.entries|)
    ensures k.fold(x) in p.lowered ==> Holder(k, Add(k, p, e), x) == Holder(k, p, x)
  {
    if k.fold(x) in p.lowered {
      var y := p.lowered[k.fold(x)];
      assert y in p.claimed && k.fold(y) == k.fold(x);
    }
  }

  lemma AddIndexed(k: Scheme, p: Plan, e: Entry)
    requires Indexed(k, p) && k.fold(e.path) !in p.lowered
    ensures Indexed(k, Add(k, p, e))
    ensures Holder(k, Add(k, p, e), e.path) == Some(|p.entries|)
    ensures forall x :: k.fold(x) in p.lowered ==> Holder(k, Add(k, p, e), x) == Holder(k, p, x)
  {
    var q := Add(k, p, e);
    forall x ensures k.fold(x) in p.lowered ==> Holder(k, q, x) == Holder(k, p, x) {
      AddHolders(k, p, e, x);
    }
    AddHolders(k, p, e, e.path);
    forall i | 0 <= i < |q.entries| ensures Holder(k, q, q.entries[i].path) == Some(i) {
      if i < |p.entries| {
        assert Holder(k, p, p.entries[i].path) == Some(i);
      }
    }
    forall x | x in q.claimed ensures q.claimed[x] < |q.entries| && q.entries[q.claimed[x]].path == x {
    }
    assert forall x | x in p.claimed :: Holder(k, p, p.entries[p.claimed[x]].path).Some?;
  }

  lemma AddRefused(k: Scheme, p: Plan, e: Entry, key: string, bytes: nat, sha256: string, m: nat)
    requires Indexed(k, p) && k.fold(e.path) !in p.lowered
    requires RefusedBefore(k, p, key, bytes, sha256, m)
    ensures RefusedBefore(k, Add(k, p, e), key, bytes, sha256, m)
  {
    AddIndexed(k, p, e);
    forall l | 1 <= l < m ensures Refused(k, Add(k, p, e), key, bytes, sha256, l) {
      assert Refused(k, p, key, bytes, sha256, l);
    }
  }

  /** A settled claim stays settled: entries are only ever added, under keys that were free. */
  lemma AddSettled(k: Scheme, p: Plan, e: Entry, claims: seq<Request>)
    requires Indexed(k, p) && k.fold(e.path) !in p.lowered && AllSettled(k, p, claims)
    ensures AllSettled(k, Add(k, p, e), claims)
  {
    forall i | 0 <= i < |claims| ensures Settled(k, Add(k, p, e), claims[i]) {
      var c := claims[i];
      assert Settled(k, p, c);
      AddIndexed(k, p, e);
      AddRefused(k, p, e, c.key, c.bytes, c.sha256, c.attempt);
    }
  }

  lemma {:induction false} RenamedMore(claims: seq<Request>, firsts: seq<nat>, c: Request)
    requires forall i | 0 <= i < |firsts| :: firsts[i] < |claims|
    ensures Renamed(claims + [c], firsts) == Renamed(claims, firsts)
  {
    if firsts != [] {
      RenamedMore(claims, firsts[..|firsts| - 1], c);
    }
  }

  lemma CreatedMore(k: Scheme, entries: seq<Entry>, claims: seq<Request>, firsts: seq<nat>, e: Entry, c: Request)
    requires Created(k, entries, claims, firsts) && c.home == |entries| && e.path == k.variant(c.key, c.attempt)
    ensures Created(k, entries + [e], claims + [c], firsts + [|claims|])
    ensures Renamed(claims + [c], firsts + [|claims|]) == Renamed(claims, firsts) + if c.attempt > 1 then 1 else 0
  {
    RenamedMore(claims, firsts, c);
    assert (firsts + [|claims|])[..|firsts|] == firsts;
  }

  lemma CreateKeeps(k: Scheme, p: Plan, claims: seq<Request>, firsts: seq<nat>, e: Entry, c: Request)
    requires Planned(k, p, claims, firsts) && k.fold(e.path) !in p.lowered
    requires c.attempt >= 1 && c.home == |p.entries| && e.path == k.variant(c.key, c.attempt) &&
             SameContent(e, c.bytes, c.sha256)
    requires RefusedBefore(k, p, c.key, c.bytes, c.sha256, c.attempt)
    ensures Planned(k, Add(k, p, e), claims + [c], firsts + [|claims|])
    ensures Renamed(claims + [c], firsts + [|claims|]) == Renamed(claims, firsts) + if c.attempt > 1 then 1 else 0
  {
    AddIndexed(k, p, e);
    AddSettled(k, p, e, claims);
    AddRefused(k, p, e, c.key, c.bytes, c.sha256, c.attempt);
    SettledToo(k, Add(k, p, e), claims, c);
    CreatedMore(k, p.entries, claims, firsts, e, c);
  }

  lemma ShareKeeps(k: Scheme, p: Plan, claims: seq<Request>, firsts: seq<nat>, c: Request)
    requires Planned(k, p, claims, firsts) && Settled(k, p, c)
    ensures Planned(k, p, claims + [c], firsts)
    ensures Renamed(claims + [c], firsts) == Renamed(claims, firsts)
  {
    SettledToo(k, p, claims, c);
    RenamedMore(claims, firsts, c);
  }

  /** As long as every attempt is refused, there are at least as many keys in use. */
  lemma RefusedCount(k: Scheme, p: Plan, key: string, bytes: nat, sha256: string, n: nat)
    requires Separating(k) && n >= 1 && RefusedBefore(k, p, key, bytes, sha256, n)
    ensures n - 1 <= |p.lowered|
  {
    forall m | 1 <= m <= n - 1 ensures Asked(k, key, m) in p.lowered {
      assert Refused(k, p, key, bytes, sha256, m);
    }
    Pigeonhole(k, key, n - 1, p.lowered);
  }

  /** The first attempt that is free, or that meets the same content (at `shared`). */
  method Search(k: Scheme, p: Plan, key: string, bytes: nat, sha256: string) returns (n: nat, shared: Option<nat>)
    requires Separating(k) && Indexed(k, p)
    ensures n >= 1 && RefusedBefore(k, p, key, bytes, sha256, n)
    ensures shared.None? ==> Asked(k, key, n) !in p.lowered
    ensures shared.Some? ==> Settled(k, p, Request(key, bytes, sha256, shared.value, n))
  {
    n := 1;
    while true
      invariant n >= 1 && RefusedBefore(k, p, key, bytes, sha256, n)
      decreases |p.lowered| + 1 - n
    {
      var folded := Asked(k, key, n);
      if folded !in p.lowered {
        return n, None;
      }
      var index := p.claimed[p.lowered[folded]];
      if SameContent(p.entries[index], bytes, sha256) {
        return n, Some(index);
      }
      n := n + 1;
      RefusedCount(k, p, key, bytes, sha256, n);
    }
  }

  /** What a planner keeps true of its plan and counters. */
  ghost predicate Kept(k: Scheme, p: Plan, claims: seq<Request>, firsts: seq<nat>, renamed: nat, deduplicated: nat) {
    Separating(k) && Planned(k, p, claims, firsts) && Counted(k, p, claims, firsts, renamed, deduplicated)
  }

  /** How a claim changes the plan: nothing, or one entry more. */
  ghost predicate Extends(k: Scheme, p: Plan, q: Plan, entry: Entry, c: Request) {
    if c.home < |p.entries| then q == p
    else c.home == |p.entries| && q.entries == p.entries + [entry.(path := k.variant(c.key, c.attempt))]
  }

  /** One claim on values: the new plan and counters. */
  method Resolve(k: Scheme, p: Plan, ghost claims: seq<Request>, ghost firsts: seq<nat>, renamed: nat,
                 deduplicated: nat, key: string, entry: Entry)
    returns (q: Plan, renamed': nat, deduplicated': nat, ghost c: Request, ghost firsts': seq<nat>)
    requires Kept(k, p, claims, firsts, renamed, deduplicated)
    ensures Kept(k, q, claims + [c], firsts', renamed', deduplicated')
    ensures c.key == key && c.bytes == entry.bytes && c.sha256 == entry.sha256 && Extends(k, p, q, entry, c)
  {
    var n, shared := Search(k, p, key, entry.bytes, entry.sha256);
    if shared.Some? {
      c := Request(key, entry.bytes, entry.sha256, shared.value, n);
      ShareKeeps(k, p, claims, firsts, c);
      return p, renamed, deduplicated + 1, c, firsts;
    }
    var e := entry.(path := k.variant(key, n));
    c := Request(key, entry.bytes, entry.sha256, |p.entries|, n);
    CreateKeeps(k, p, claims, firsts, e, c);
    return Add(k, p, e), if n > 1 then renamed + 1 else renamed, deduplicated, c, firsts + [|claims|];
  }

  // ---- Whole exports ---------------------------------------------------------------------------

  /** A key an output asks for, and what it would publish there. */
  datatype Ask = Ask(key: string, entry: Entry)

  /** A decoded output with the keys it asks for: one, or one per cue of an audio track. */
  datatype Keyed = Keyed(keys: seq<string>, entry: Entry)

  datatype Resource = Resource(failed: bool, source: string, outputs: seq<Keyed>)

  function AsksOf(o: Keyed): seq<Ask> {
    seq(|o.keys|, i requires 0 <= i < |o.keys| => Ask(o.keys[i], o.entry))
  }

  function Asks(outputs: seq<Keyed>): seq<Ask> {
    if outputs == [] then [] else Asks(outputs[..|outputs| - 1]) + AsksOf(outputs[|outputs| - 1])
  }

  function AskedOf(r: Resource): seq<Ask> {
    if r.failed then [] else Asks(r.outputs)
  }

  function Wanted(resources: seq<Resource>): seq<Ask> {
    if resources == [] then []
    else
      var r := resources[|resources| - 1];
      Wanted(resources[..|resources| - 1]) + AskedOf(r)
  }

  function Failed(resources: seq<Resource>): seq<string> {
    if resources == [] then []
    else
      var r := resources[|resources| - 1];
      Failed(resources[..|resources| - 1]) + if r.failed then [r.source] else []
  }

  predicate AllValid(k: Scheme, asks: seq<Ask>) {
    forall i {:trigger k.valid(asks[i].key)} | 0 <= i < |asks| :: k.valid(asks[i].key)
  }

  /** What was claimed, and what was asked for: key and content. */
  function Made(claims: seq<Request>): seq<(string, nat, string)> {
    seq(|claims|, i requires 0 <= i < |claims| => (claims[i].key, claims[i].bytes, claims[i].sha256))
  }

  function Meant(asks: seq<Ask>): seq<(string, nat, string)> {
    seq(|asks|, i requires 0 <= i < |asks| => (asks[i].key, asks[i].entry.bytes, asks[i].entry.sha256))
  }

  lemma MadeMore(claims: seq<Request>, c: Request)
    ensures Made(claims + [c]) == Made(claims) + [(c.key, c.bytes, c.sha256)]
  {
  }

  lemma MeantMore(asks: seq<Ask>, i: nat)
    requires i < |asks|
    ensures Meant(asks[..i + 1]) == Meant(asks[..i]) + [(asks[i].key, asks[i].entry.bytes, asks[i].entry.sha256)]
  {
  }

  lemma MeantAppend(a: seq<Ask>, b: seq<Ask>)
    ensures Meant(a + b) == Meant(a) + Meant(b)
  {
  }

  ghost predicate Plannable(k: Scheme, resources: seq<Resource>, maxFailed: nat) {
    |Failed(resources)| <= maxFailed && AllValid(k, Wanted(resources))
  }

  /** What one more resource adds, and that what it breaks stays broken. */
  lemma PrefixMore(k: Scheme, resources: seq<Resource>, i: nat, maxFailed: nat)
    requires i < |resources| && Plannable(k, resources[..i], maxFailed)
    ensures var r, done, more := resources[i], resources[..i], resources[..i + 1];
            && Failed(more) == Failed(done) + (if r.failed then [r.source] else [])
            && Meant(Wanted(more)) == Meant(Wanted(done)) + Meant(AskedOf(r))
            && (Plannable(k, more, maxFailed) <==>
                if r.failed then |Failed(done)| < maxFailed else AllValid(k, Asks(r.outputs)))
            && (Plannable(k, resources, maxFailed) ==> Plannable(k, more, maxFailed))
  {
    var r, done, more := resources[i], resources[..i], resources[..i + 1];
    assert more[..i] == done;
    MeantAppend(Wanted(done), AskedOf(r));
    ValidAppend(k, Wanted(done), AskedOf(r));
    if Plannable(k, resources, maxFailed) {
      PlannableGrows(k, resources, i + 1, maxFailed);
    }
  }

  lemma ValidAppend(k: Scheme, a: seq<Ask>, b: seq<Ask>)
    ensures AllValid(k, a + b) <==> AllValid(k, a) && AllValid(k, b)
  {
    forall i | 0 <= i < |a| ensures k.valid((a + b)[i].key) <==> k.valid(a[i].key) {
    }
    forall i | 0 <= i < |b| ensures k.valid((a + b)[|a| + i].key) <==> k.valid(b[i].key) {
    }
  }

  lemma ValidStep(k: Scheme, asks: seq<Ask>, i: nat)
    requires i < |asks|
    ensures AllValid(k, asks[..i + 1]) <==> AllValid(k, asks[..i]) && k.valid(asks[i].key)
    ensures AllValid(k, asks) ==> AllValid(k, asks[..i + 1])
  {
    assert asks[..i + 1] == asks[..i] + [asks[i]] && asks == asks[..i + 1] + asks[i + 1..];
    ValidAppend(k, asks[..i], [asks[i]]);
    ValidAppend(k, asks[..i + 1], asks[i + 1..]);
    assert AllValid(k, [asks[i]]) <==> k.valid([asks[i]][0].key);
  }

  lemma {:induction false} PlannableGrows(k: Scheme, resources: seq<Resource>, i: nat, maxFailed: nat)
    requires i <= |resources| && Plannable(k, resources, maxFailed)
    ensures Plannable(k, resources[..i], maxFailed)
  {
    if i < |resources| {
      var init := resources[..|resources| - 1];
      ValidAppend(k, Wanted(init), AskedOf(resources[|resources| - 1]));
      PlannableGrows(k, init, i, maxFailed);
      assert init[..i] == resources[..i];
    } else {
      assert resources[..i] == resources;
    }
  }

  class Planner {
    const k: Scheme
    var plan: Plan
    var renamed: nat
    var deduplicated: nat
    var failedSources: seq<string>
    /** Every claim made so far, and the one that created each entry. */
    ghost var claims: seq<Request>
    ghost var firsts: seq<nat>

    ghost predicate Valid()
      reads this
    {
      Kept(k, plan, claims, firsts, renamed, deduplicated)
    }

    constructor (al: Alphabet)
      requires Casing(al)
      ensures k == Naming(al) && Valid() && plan.entries == [] && claims == [] && failedSources == []
    {
      NamingSeparates(al);
      this.k := Naming(al);
      plan, renamed, deduplicated, failedSources := Plan([], map[], map[]), 0, 0, [];
      claims, firsts := [], [];
    }

    /**
     Claims `key`, or its first free variant. What was planned before is not touched; the claim ends
     at an entry with its own content, and it creates that entry only if no attempt met the content.
     */
    method Claim(key: string, entry: Entry) returns (ghost c: Request)
      requires Valid()
      modifies this`plan, this`renamed, this`deduplicated, this`claims, this`firsts
      ensures Valid()
      ensures c.key == key && c.bytes == entry.bytes && c.sha256 == entry.sha256 && claims == old(claims) + [c]
      ensures Extends(k, old(plan), plan, entry, c)
      ensures Made(claims) == Made(old(claims)) + [(key, entry.bytes, entry.sha256)]
    {
      plan, renamed, deduplicated, c, firsts := Resolve(k, plan, claims, firsts, renamed, deduplicated, key, entry);
      MadeMore(claims, c);
      claims := claims + [c];
    }

    /**
     The whole plan: the keys every decoded output asks for, in order. It fails exactly on an invalid
     key or on more failed resources than allowed.
     */
    method PlanResources(resources: seq<Resource>, maxFailed: nat) returns (ok: bool)
      requires Valid() && claims == [] && failedSources == []
      modifies this
      ensures Valid()
      ensures ok <==> Plannable(k, resources, maxFailed)
      ensures ok ==> failedSources == Failed(resources) && Made(claims) == Meant(Wanted(resources))
    {
      for i := 0 to |resources|
        invariant Valid()
        invariant failedSources == Failed(resources[..i]) && Made(claims) == Meant(Wanted(resources[..i]))
        invariant Plannable(k, resources[..i], maxFailed)
      {
        PrefixMore(k, resources, i, maxFailed);
        ok := PlanResource(resources[i], maxFailed);
        if !ok {
          return;
        }
      }
      assert resources[..|resources|] == resources;
      ok := true;
    }

    method PlanResource(r: Resource, maxFailed: nat) returns (ok: bool)
      requires Valid()
      modifies this
      ensures Valid()
      ensures ok <==> if r.failed then |old(failedSources)| < maxFailed else AllValid(k, Asks(r.outputs))
      ensures ok ==> failedSources == old(failedSources) + if r.failed then [r.source] else []
      ensures ok ==> Made(claims) == Made(old(claims)) + Meant(AskedOf(r))
    {
      if r.failed {
        if |failedSources| >= maxFailed {
          return false;
        }
        failedSources := failedSources + [r.source];
        return true;
      }
      ok := ClaimAll(Asks(r.outputs));
    }

    /** The keys of one resource, in order. */
    method ClaimAll(asks: seq<Ask>) returns (ok: bool)
      requires Valid()
      modifies this`plan, this`renamed, this`deduplicated, this`claims, this`firsts
      ensures Valid()
      ensures ok <==> AllValid(k, asks)
      ensures ok ==> Made(claims) == Made(old(claims)) + Meant(asks)
    {
      for i := 0 to |asks|
        invariant Valid()
        invariant AllValid(k, asks[..i]) && Made(claims) == Made(old(claims)) + Meant(asks[..i])
      {
        ValidStep(k, asks, i);
        if !k.valid(asks[i].key) {
          return false;
        }
        ghost var c := Claim(asks[i].key, asks[i].entry);
        MeantMore(asks, i);
      }
      assert asks[..|asks|] == asks;
      ok := true;
    }
  }

  // ---- What a plan promises --------------------------------------------------------------------

  /** No two planned paths are equal, not even up to case. */
  lemma PathsDistinct(k: Scheme, p: Plan, i: nat, j: nat)
    requires Indexed(k, p) && i < j < |p.entries|
    ensures k.fold(p.entries[i].path) != k.fold(p.entries[j].path)
  {
    assert Holder(k, p, p.entries[i].path) == Some(i) && Holder(k, p, p.entries[j].path) == Some(j);
  }

  /** Equal content claimed under keys that ask for the same names is planned once. */
  lemma ContentOnce(k: Scheme, p: Plan, claims: seq<Request>, i: nat, j: nat)
    requires AllSettled(k, p, claims) && i < |claims| && j < |claims|
    requires Alike(k, claims[i].key, claims[j].key)
    requires claims[i].bytes == claims[j].bytes && claims[i].sha256 == claims[j].sha256
    ensures claims[i].home == claims[j].home && claims[i].attempt == claims[j].attempt
  {
    var a, b := claims[i], claims[j];
    assert Settled(k, p, a) && Settled(k, p, b);
    AlikeHolder(k, p, a.key, b.key, a.attempt);
    AlikeHolder(k, p, a.key, b.key, b.attempt);
    assert a.attempt < b.attempt ==> Refused(k, p, b.key, b.bytes, b.sha256, a.attempt);
    assert b.attempt < a.attempt ==> Refused(k, p, a.key, a.bytes, a.sha256, b.attempt);
  }

  lemma AlikeHolder(k: Scheme, p: Plan, a: string, b: string, n: nat)
    requires Alike(k, a, b)
    ensures Holder(k, p, k.variant(a, n)) == Holder(k, p, k.variant(b, n))
  {
    assert Asked(k, a, n) == Asked(k, b, n);
  }

  /** Planned paths are safe, whatever suffix they got; unrenamed ones are valid as claimed. */
  lemma PathsSafe(al: Alphabet, p: Plan, claims: seq<Request>, firsts: seq<nat>, i: nat)
    requires Planned(Naming(al), p, claims, firsts) && i < |p.entries| && ValidKey(claims[firsts[i]].key)
    ensures SafeKey(p.entries[i].path)
    ensures claims[firsts[i]].attempt == 1 ==> p.entries[i].path == claims[firsts[i]].key
  {
    var c := claims[firsts[i]];
    assert Settled(Naming(al), p, c);
    assert p.entries[i].path == Variant(c.key, c.attempt);
    if c.attempt > 1 {
      VariantValid(c.key, c.attempt);
    }
  }

  // ---- Names of unnamed objects ----------------------------------------------------------------

  /** A Unity object, and where it was first asked for: its container and class. */
  datatype Object = Object(sourceFile: string, pathId: int)

  datatype Place = Place(scope: string, classId: int)

  /** The stem of the `n`-th unnamed object of a class. */
  function Numbered(names: int -> string, place: Place, n: nat): string {
    names(place.classId) + "_" + Numeral(n)
  }

  function Counter(unnamed: map<Place, nat>, place: Place): nat {
    if place in unnamed then unnamed[place] else 0
  }

  /** Every stem is numbered below the counter of its place, and no place gave a number twice. */
  ghost predicate Numbering(names: int -> string, unnamed: map<Place, nat>, stems: map<Object, string>,
                            origin: map<Object, (Place, nat)>, taken: map<(Place, nat), Object>) {
    && origin.Keys == stems.Keys
    && (forall o | o in origin ::
          && origin[o].0 in unnamed && origin[o].1 < unnamed[origin[o].0]
          && stems[o] == Numbered(names, origin[o].0, origin[o].1))
    && (forall o | o in origin :: origin[o] in taken && taken[origin[o]] == o)
    && (forall t | t in taken :: taken[t] in origin && origin[taken[t]] == t)
  }

  lemma NumberKeeps(names: int -> string, unnamed: map<Place, nat>, stems: map<Object, string>,
                    origin: map<Object, (Place, nat)>,
                    taken: map<(Place, nat), Object>, o: Object, place: Place, n: nat)
    requires Numbering(names, unnamed, stems, origin, taken) && o !in stems && n == Counter(unnamed, place)
    ensures Numbering(names, unnamed[place := n + 1], stems[o := Numbered(names, place, n)], origin[o := (place, n)],
                      taken[(place, n) := o])
  {
  }

  class Stems {
    /** The name of each class. */
    const names: int -> string
    var unnamed: map<Place, nat>
    var stems: map<Object, string>
    /** Where each object got its stem, and the number it got there. */
    ghost var origin: map<Object, (Place, nat)>
    ghost var taken: map<(Place, nat), Object>

    ghost predicate Valid()
      reads this
    {
      Numbering(names, unnamed, stems, origin, taken)
    }

    constructor (names: int -> string)
      ensures Valid() && this.names == names && stems == map[]
    {
      this.names := names;
      unnamed, stems, origin, taken := map[], map[], map[], map[];
    }

    /**
     The stem of an object: its own cleaned name, or a numbered class name that is chosen once and kept
     for every later output of the object, wherever it is asked for.
     */
    method ObjectStem(id: Object, name: string, place: Place) returns (stem: string)
      requires Valid()
      modifies this`unnamed, this`stems, this`origin, this`taken
      ensures Valid()
      ensures name != "" ==> stem == name
      ensures name == "" && id in old(stems) ==> stem == old(stems)[id]
      ensures name != "" || id in old(stems) ==> stems == old(stems) && unnamed == old(unnamed) && origin == old(origin)
      ensures name == "" && id !in old(stems) ==>
                && stem == Numbered(names, place, Counter(old(unnamed), place))
                && stems == old(stems)[id := stem]
                && origin == old(origin)[id := (place, Counter(old(unnamed), place))]
                && unnamed == old(unnamed)[place := Counter(old(unnamed), place) + 1]
    {
      if name != "" {
        return name;
      }
      if id in stems {
        return stems[id];
      }
      var counter := Counter(unnamed, place);
      NumberKeeps(names, unnamed, stems, origin, taken, id, place, counter);
      stem := Numbered(names, place, counter);
      unnamed, stems := unnamed[place := counter + 1], stems[id := stem];
      origin, taken := origin[id := (place, counter)], taken[(place, counter) := id];
    }

    /** Objects numbered in the same container and class never share a stem. */
    lemma StemsDiffer(o: Object, p: Object)
      requires Valid() && o in stems && p in stems && o != p && origin[o].0 == origin[p].0
      ensures stems[o] != stems[p]
    {
      var a, b := Numeral(origin[o].1), Numeral(origin[p].1);
      var name := names(origin[o].0.classId) + "_";
      assert stems[o] == name + a && stems[p] == name + b;
      assert a == (name + a)[|name|..] && b == (name + b)[|name|..];
      if a == b {
        NumeralInjective(origin[o].1, origin[p].1);
      }
    }
  }
}
