/** Whole lives of a cache: workers that take turns, restarts, damage, and the failures that hurt. */
module CacheSessions {
  import opened Wrappers
  import opened CacheConditions
  import opened CacheModel
  import opened ExportCache
  import opened Reports

  /**
   What happens to a cache. A worker processes a resource in two critical sections: it looks for an
   entry and, when there is none, later saves what it decoded; other workers come in between.
   */
  datatype Event =
    | Look(id: string, index: nat, env: Env)
    | Save(id: string, index: nat, env: Env)
    | Damage(disk: map<string, Stored>)
    | Reopen(env: Env)

  type Answer = Result<Option<Decoded>, CacheError>

  /** Index and directory agree and the limits hold. */
  ghost predicate InOrder(cache: Cache)
    reads cache
  {
    cache.Accounted() && cache.WithinLimits()
  }

  /** A removal may fail and delete something all the same, or the last rename may fail. */
  ghost predicate Hazardous(env: Env) {
    || env.fails(Renaming)
    || ((env.fails(Replacing) || exists x :: env.fails(Removing(x))) && exists p :: !env.spares(p))
  }

  /** Only such a save, and damage from outside, can hurt agreement. */
  ghost predicate Harmless(e: Event) {
    !e.Damage? && !(e.Save? && Hazardous(e.env))
  }

  /** A save that hurts had such an environment. */
  lemma LossIsHazard(cache: Cache, id: string, decoded: Decoded, env: Env)
    requires cache.Loses(id, decoded, env)
    ensures Hazardous(env)
  {
    var harm :| cache.Meets(id, decoded.files, decoded.report, env, harm) && Hurts(cache.disk, harm, env.spares);
    if harm.Struck? {
      var d := cache.disk[harm.id];
      assert exists p :: !env.spares(p) by {
        SparesSomething(d, env.spares);
      }
      if harm != Mishap(cache.disk, id, env) {
        assert env.fails(Removing(harm.id));
      }
    }
  }

  lemma SparesSomething(d: Stored, spares: Part -> bool)
    requires !Untouched(d, spares)
    ensures exists p :: !spares(p)
  {
    if d.meta.Some? && d.meta.value.size > 0 && !spares(Meta) {
    } else if p :| p in d.data && !spares(Datum(p)) {
    } else {
      var p :| p in d.strays && !spares(Stray(p));
    }
  }

  /** A resource that is answered is answered as decoding does. */
  ghost predicate AsDecoded(e: Event, a: Answer, decode: Decoder) {
    (e.Look? || e.Save?) && a.Success? && a.value.Some? && decode(e.id, e.index).Success? ==>
      Transparent(a.value.value, decode(e.id, e.index).value)
  }

  ghost predicate Undamaging(h: Hashes, decode: Decoder, e: Event) {
    e.Damage? ==> Unforged(h, decode, e.disk)
  }

  /** The first critical section. */
  method LookUp(cache: Cache, id: string, index: nat, decode: Decoder, env: Env) returns (a: Answer)
    requires cache.Indexed() && Injective(cache.hashes) && Deterministic(cache.hashes, decode)
    requires Unforged(cache.hashes, decode, cache.disk)
    modifies cache
    ensures cache.Indexed() && Unforged(cache.hashes, decode, cache.disk)
    ensures AsDecoded(Look(id, index, env), a, decode)
    ensures old(InOrder(cache)) ==> InOrder(cache)
  {
    var published;
    a, published := cache.Reuse(id, index, decode, env);
  }

  /** Decoding, and the second critical section. */
  method SaveDecoded(cache: Cache, id: string, index: nat, decode: Decoder, env: Env) returns (a: Answer)
    requires cache.Indexed() && Unforged(cache.hashes, decode, cache.disk)
    modifies cache
    ensures cache.Indexed() && Unforged(cache.hashes, decode, cache.disk)
    ensures AsDecoded(Save(id, index, env), a, decode)
    ensures old(InOrder(cache)) && !Hazardous(env) ==> InOrder(cache)
  {
    var decoded := decode(id, index);
    if decoded.Failure? {
      return Failure(decoded.error);
    }
    if cache.Loses(id, decoded.value, env) {
      LossIsHazard(cache, id, decoded.value, env);
    }
    var kept := cache.Keep(id, decoded.value, env);
    StillUnforged(cache.hashes, decode, old(cache.disk), cache.disk, id, index);
    return if kept.Failure? then Failure(kept.error) else Success(Some(decoded.value));
  }

  /** One event. A cache that failed to open is not used until it opens. */
  method Happen(cache: Cache, e: Event, decode: Decoder, was: bool) returns (a: Answer, up: bool)
    requires cache.Indexed() && Injective(cache.hashes) && Deterministic(cache.hashes, decode)
    requires Unforged(cache.hashes, decode, cache.disk) && Undamaging(cache.hashes, decode, e)
    modifies cache
    ensures cache.Indexed() && Unforged(cache.hashes, decode, cache.disk)
    ensures AsDecoded(e, a, decode)
    ensures up <==> if e.Reopen? then a.Success? else was
    ensures Harmless(e) && (was ==> old(InOrder(cache))) ==> (up ==> InOrder(cache))
    ensures e.Reopen? && a.Success? ==> InOrder(cache)
  {
    up := was;
    match e {
      case Look(id, index, env) =>
        if !up {
          return Failure(Io), up;
        }
        a := LookUp(cache, id, index, decode, env);
      case Save(id, index, env) =>
        if !up {
          return Failure(Io), up;
        }
        a := SaveDecoded(cache, id, index, decode, env);
      case Damage(disk) =>
        cache.disk := disk;
        a := Success(None);
      case Reopen(env) =>
        var r, gone, harm := cache.ScanAndPrune(env);
        up := r.Success?;
        a := if r.Success? then Success(None) else Failure(r.error);
    }
  }

  /** At event `j` the cache is in order: at the start, if it was then, and after opening. */
  ghost predicate OrderedAt(events: seq<Event>, answers: seq<Answer>, j: nat, start: bool)
    requires |answers| <= |events|
  {
    if j == 0 then start else j <= |answers| && events[j - 1].Reopen? && answers[j - 1].Success?
  }

  ghost predicate HarmlessSince(events: seq<Event>, j: nat, i: nat)
    requires i <= |events|
  {
    forall k | j <= k < i :: Harmless(events[k])
  }

  /**
   Any sequence of lookups and saves by any workers, evictions, restarts and damage that forges
   nothing: every answer has the report and the files that decoding gives; and from any moment at which
   the cache was in order, it stays so unless a removal fails after deleting something, a rename fails,
   or somebody else changes the directory.
   */
  method Session(cache: Cache, events: seq<Event>, decode: Decoder) returns (answers: seq<Answer>, up: bool)
    requires cache.Indexed() && Injective(cache.hashes) && Deterministic(cache.hashes, decode)
    requires Unforged(cache.hashes, decode, cache.disk)
    requires forall k | 0 <= k < |events| :: Undamaging(cache.hashes, decode, events[k])
    modifies cache
    ensures |answers| == |events|
    ensures forall k | 0 <= k < |events| :: AsDecoded(events[k], answers[k], decode)
    ensures forall j: nat | j <= |events| && OrderedAt(events, answers, j, old(InOrder(cache))) &&
            HarmlessSince(events, j, |events|) ::
              up ==> InOrder(cache)
  {
    answers, up := [], true;
    for i := 0 to |events|
      invariant |answers| == i && cache.Indexed() && Unforged(cache.hashes, decode, cache.disk)
      invariant forall k | 0 <= k < i :: AsDecoded(events[k], answers[k], decode)
      invariant forall j: nat | j <= i && OrderedAt(events, answers, j, old(InOrder(cache))) &&
                HarmlessSince(events, j, i) ::
                  up ==> InOrder(cache)
    {
      ghost var before, ordered := answers, up ==> InOrder(cache);
      var a;
      a, up := Happen(cache, events[i], decode, up);
      answers := answers + [a];
      forall j: nat | j <= i + 1 && OrderedAt(events, answers, j, old(InOrder(cache))) &&
        HarmlessSince(events, j, i + 1)
        ensures up ==> InOrder(cache)
      {
        if j <= i {
          assert OrderedAt(events, before, j, old(InOrder(cache))) && HarmlessSince(events, j, i);
          assert ordered;
        }
      }
    }
  }

  // ---- The failures that hurt ------------------------------------------------------------------

  const BARE := Report(false, "source", "00000", "hash", 0, 0, 0, [], [])

  /** A cache without limits that can take the bare report. */
  ghost predicate Roomy(cache: Cache)
    reads cache
  {
    && cache.Accounted() && cache.maxBytes == None && cache.maxEntries == None
    && cache.Writable("a", BARE) && cache.hashes.length(cache.EntryOf("a", BARE)) == 1
  }

  method NewCache() returns (cache: Cache)
    ensures fresh(cache) && Roomy(cache) && cache.entries == map[] && cache.disk == map[]
  {
    cache := new Cache(Hashes(_ => "", _ => "", _ => 1), 0, None, None, map[]);
    assert Sizes(cache.entries) == map[];
  }

  /** A quiet store of the bare report in an empty cache. */
  method StoreBare(cache: Cache, env: Env)
    requires Roomy(cache) && cache.entries == map[] && cache.disk == map[] && Quiet(env)
    modifies cache
    ensures Roomy(cache) && cache.entries.Keys == {"a"} && cache.disk.Keys == {"a"}
    ensures cache.disk["a"].meta.Some? && cache.disk["a"].meta.value.size == 1
  {
    BareStorable(cache);
    var r;
    ghost var gone, harm;
    r, gone, harm := cache.Store("a", map[], BARE, env);
    OthersOnly(map[], "a", gone);
  }

  lemma BareStorable(cache: Cache)
    requires cache.entries.Keys <= {"a"} && cache.Writable("a", BARE)
    requires cache.maxBytes == None && cache.maxEntries == None
    ensures cache.Storable("a", map[], BARE)
  {
    assert Without(cache.entries, Some("a")) == map[];
  }

  /** Everything is ready to replace the entry. */
  lemma BarePrepared(cache: Cache, env: Env)
    requires cache.entries.Keys <= {"a"} && cache.Writable("a", BARE)
    requires cache.maxBytes == None && cache.maxEntries == None
    requires (forall m :: !env.cancelled(m)) && !env.fails(Staging) && !env.fails(Recording)
    ensures cache.Prepared("a", map[], BARE, env)
  {
    var size := cache.StoredSize("a", BARE);
    assert Without(cache.entries, Some("a")) == map[];
    RoomExists(cache.entries, cache.disk, Some("a"), size, 1, None, None, env);
  }

  /** The entry is the only one, so nothing but replacing it can go wrong. */
  lemma BareMeets(cache: Cache, env: Env, harm: Harm)
    requires cache.entries.Keys <= {"a"}
    ensures cache.Meets("a", map[], BARE, env, harm) ==> harm == Mishap(cache.disk, "a", env)
  {
    assert forall x: string, gone: set<string> :: !Next(cache.entries, Some("a"), gone, x);
  }

  /** Replacing the entry goes wrong: on the way of removing it, or after it was removed. */
  predicate GoesWrong(env: Env) {
    if env.fails(Replacing) then !env.spares(Meta) else env.fails(Renaming)
  }

  lemma BareWounds(cache: Cache, env: Env)
    requires cache.entries.Keys <= {"a"} && cache.Prepared("a", map[], BARE, env) && GoesWrong(env)
    requires "a" in cache.disk && cache.disk["a"].meta.Some? && cache.disk["a"].meta.value.size == 1
    ensures cache.Wounds("a", map[], BARE, env)
  {
    var harm := Mishap(cache.disk, "a", env);
    assert cache.Meets("a", map[], BARE, env, harm) && Hurts(cache.disk, harm, env.spares);
  }

  lemma OthersOnly(entries: map<string, Slot>, id: string, gone: set<string>)
    requires entries.Keys <= {id} && LruPrefix(entries, Some(id), gone)
    ensures gone == {}
  {
  }

  /**
   The entry is stored again, and this time replacing it goes wrong: the index goes on counting an
   entry that has lost its metadata or is no longer there.
   */
  method StoreTwice(env: Env) returns (cache: Cache)
    requires (forall m :: !env.cancelled(m)) && !env.fails(Staging) && !env.fails(Recording) && GoesWrong(env)
    ensures cache.Indexed() && cache.entries.Keys == {"a"} && !cache.Accounted()
    ensures if env.fails(Replacing) then cache.disk.Keys == {"a"} && cache.disk["a"].meta.None? else cache.disk == map[]
  {
    cache := NewCache();
    StoreBare(cache, Env(_ => false, _ => false, _ => true, 0, 0));
    BarePrepared(cache, env);
    BareWounds(cache, env);
    ghost var entries, disk := cache.entries, cache.disk;
    var r;
    ghost var gone, harm;
    forall h: Harm ensures cache.Meets("a", map[], BARE, env, h) ==> h == Mishap(disk, "a", env) {
      BareMeets(cache, env, h);
    }
    r, gone, harm := cache.Store("a", map[], BARE, env);
    OthersOnly(entries, "a", gone);
    NoneGone(entries);
    NoneGone(disk);
  }
}
