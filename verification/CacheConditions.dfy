/**
 * What one call of the cache depends on, the operations and cancellation readings it meets, and exactly
 * when it succeeds.
 */
module CacheConditions {
  import opened Wrappers
  import opened CacheModel
  import opened MapTotals
  import opened Reports

  /** When the cancellation flag is read. */
  datatype Moment = Starting | Scanning(n: nat) | Evicting(n: nat) | Copying(item: nat) | Finishing | Keeping

  /** File operations that may fail. */
  datatype Operation =
    | Listing(id: string) | Removing(id: string) | Opening | Staging | Transferring(item: nat) | Recording
    | Publishing | Touching | Replacing | Renaming

  /**
   What the environment does to one call, and the times it writes: readings that cancel, operations that
   fail, and the files that a failing removal of an entry does not get to.
   */
  datatype Env = Env(
    cancelled: Moment -> bool, fails: Operation -> bool, spares: Part -> bool, written: int, now: int)

  /** Nothing cancels and nothing fails. */
  ghost predicate Quiet(env: Env) {
    (forall m :: !env.cancelled(m)) && forall o :: !env.fails(o)
  }

  // ---- Copying ---------------------------------------------------------------------------------

  /** One record after `done`, with the checks in the order they are made. */
  function CopyOne(h: Hashes, files: map<string, Content>, done: seq<Output>, item: Output,
                   copied: map<string, Content>,
                   limit: nat, env: Env): Result<Option<map<string, Content>>, CacheError> {
    if env.cancelled(Copying(|done|)) then Failure(Cancelled)
    else if !SafePath(item.path) || !Unlisted(done, item.path) || !Digest(item.sha256) then Success(None)
    else if Bytes(done) + item.bytes > U64_MAX then Failure(Size)
    else if Bytes(done) + item.bytes > limit || item.path !in files then Success(None)
    else if env.fails(Transferring(|done|)) then Failure(Io)
    else if |files[item.path]| != item.bytes || h.sha(files[item.path]) != item.sha256 then Success(None)
    else Success(Some(copied[item.path := files[item.path]]))
  }

  /** Copies the records in order; the first that cannot be copied decides. */
  function CopyOutcome(h: Hashes, files: map<string, Content>, outputs: seq<Output>, limit: nat, env: Env)
    : Result<Option<map<string, Content>>, CacheError> {
    if outputs == [] then Success(Some(map[]))
    else
      var init := outputs[..|outputs| - 1];
      var r := CopyOutcome(h, files, init, limit, env);
      if r.Success? && r.value.Some? then CopyOne(h, files, init, outputs[|outputs| - 1], r.value.value, limit, env)
          else r
  }

  ghost predicate Undisturbed(env: Env, n: nat) {
    forall k | 0 <= k < n :: !env.cancelled(Copying(k)) && !env.fails(Transferring(k))
  }

  /** A copy is made exactly when nothing is wrong with the records and nothing disturbs it. */
  lemma {:induction false} CopyExact(h: Hashes, files: map<string, Content>, outputs: seq<Output>, limit: nat, env: Env)
    requires limit <= U64_MAX
    ensures var r := CopyOutcome(h, files, outputs, limit, env);
            && (r.Success? && r.value.Some? <==> Copyable(h, files, outputs, limit) && Undisturbed(env, |outputs|))
            && (r.Success? && r.value.Some? ==> r.value.value == Copied(files, outputs))
            && (r.Failure? ==> !Undisturbed(env, |outputs|) || Bytes(outputs) > U64_MAX)
            && (r == Success(None) ==> !Copyable(h, files, outputs, limit))
  {
    if outputs != [] {
      CopyExact(h, files, outputs[..|outputs| - 1], limit, env);
    }
  }

  /** What the first records decide stays decided. */
  lemma {:induction false} CopyStops(h: Hashes, files: map<string, Content>, outputs: seq<Output>, n: nat, limit: nat,
                                     env: Env)
    requires n <= |outputs|
    ensures var r := CopyOutcome(h, files, outputs[..n], limit, env);
            (r.Success? && r.value.Some?) || r == CopyOutcome(h, files, outputs, limit, env)
    decreases |outputs|
  {
    if n == |outputs| {
      assert outputs[..n] == outputs;
    } else {
      var init := outputs[..|outputs| - 1];
      assert init[..n] == outputs[..n];
      CopyStops(h, files, init, n, limit, env);
    }
  }

  /** What the loop over the records has after `done`. */
  ghost predicate CopiedSoFar(h: Hashes, files: map<string, Content>, done: seq<Output>, limit: nat, env: Env,
                              total: nat, paths: set<string>, copied: map<string, Content>) {
    && CopyOutcome(h, files, done, limit, env) == Success(Some(copied)) && total == Bytes(done)
    && forall p :: p in paths <==> !Unlisted(done, p)
  }

  lemma UnlistedMore(done: seq<Output>, item: Output, p: string)
    ensures Unlisted(done + [item], p) <==> Unlisted(done, p) && item.path != p
  {
    var more := done + [item];
    assert more[|done|] == item && forall k | 0 <= k < |done| :: more[k] == done[k];
  }

  lemma CopiedMore(h: Hashes, files: map<string, Content>, outputs: seq<Output>, n: nat, limit: nat, env: Env,
                   total: nat, paths: set<string>, copied: map<string, Content>)
    requires n < |outputs| && CopiedSoFar(h, files, outputs[..n], limit, env, total, paths, copied)
    ensures var next := CopyOne(h, files, outputs[..n], outputs[n], copied, limit, env);
            if next.Success? && next.value.Some?
            then CopiedSoFar(h, files, outputs[..n + 1], limit, env, total + outputs[n].bytes,
                             paths + {outputs[n].path}, next.value.value)
            else CopyOutcome(h, files, outputs, limit, env) == next
  {
    CopyUnfolds(h, files, outputs, n, limit, env);
    assert outputs[..n + 1] == outputs[..n] + [outputs[n]];
    forall p ensures p in paths + {outputs[n].path} <==> !Unlisted(outputs[..n + 1], p) {
      UnlistedMore(outputs[..n], outputs[n], p);
    }
  }

  /** One step of the loop over the records. */
  lemma CopyUnfolds(h: Hashes, files: map<string, Content>, outputs: seq<Output>, n: nat, limit: nat, env: Env)
    requires n < |outputs|
    requires var r := CopyOutcome(h, files, outputs[..n], limit, env); r.Success? && r.value.Some?
    ensures var copied := CopyOutcome(h, files, outputs[..n], limit, env).value.value;
            var next := CopyOne(h, files, outputs[..n], outputs[n], copied, limit, env);
            && CopyOutcome(h, files, outputs[..n + 1], limit, env) == next
            && ((next.Success? && next.value.Some?) || CopyOutcome(h, files, outputs, limit, env) == next)
    ensures Bytes(outputs[..n + 1]) == Bytes(outputs[..n]) + outputs[n].bytes
  {
    assert outputs[..n + 1][..n] == outputs[..n];
    CopyStops(h, files, outputs, n + 1, limit, env);
  }

  // ---- Scanning --------------------------------------------------------------------------------

  /** The index of a directory: every entry with the size of its files and the time of its metadata. */
  ghost function IndexOf(disk: map<string, Stored>): map<string, Slot> {
    map id | id in disk :: SlotOf(disk[id])
  }

  ghost function SlotOf(d: Stored): Slot {
    Slot(TreeSize(d), Accessed(d))
  }

  ghost predicate Scannable(disk: map<string, Stored>, env: Env) {
    && (forall n | 0 <= n < |disk| :: !env.cancelled(Scanning(n)))
    && (forall id | id in disk :: !env.fails(Listing(id)))
    && Total(Sizes(IndexOf(disk))) <= U64_MAX
  }

  lemma IndexMirrors(disk: map<string, Stored>)
    ensures Mirrors(IndexOf(disk), disk)
  {
  }

  /** An index that agrees with the directory is measured again with the same sizes. */
  lemma MirrorsIndex(entries: map<string, Slot>, disk: map<string, Stored>)
    requires Mirrors(entries, disk)
    ensures Sizes(entries) == Sizes(IndexOf(disk)) && |entries| == |IndexOf(disk)|
  {
    var index := IndexOf(disk);
    assert entries.Keys == index.Keys;
    assert |entries.Keys| == |entries| && |index.Keys| == |index|;
    forall id | id in entries ensures entries[id].size == index[id].size {
      assert index[id] == SlotOf(disk[id]);
    }
  }

  /** The part of the index that has been read so far. */
  ghost predicate PartOf(disk: map<string, Stored>, part: map<string, Slot>, ids: set<string>) {
    part.Keys == ids && ids <= disk.Keys && forall id | id in part :: part[id] == SlotOf(disk[id])
  }

  ghost predicate ScannedSoFar(ids: set<string>, readings: nat, env: Env) {
    (forall id | id in ids :: !env.fails(Listing(id))) && forall n | 0 <= n < readings :: !env.cancelled(Scanning(n))
  }

  /** What has been scanned is never more than all there is. */
  lemma PartTotal(disk: map<string, Stored>, part: map<string, Slot>, ids: set<string>)
    requires PartOf(disk, part, ids)
    ensures Total(Sizes(part)) <= Total(Sizes(IndexOf(disk)))
  {
    var all := Sizes(IndexOf(disk));
    TotalShrinks(all, disk.Keys - ids);
    PartSizes(disk, part, ids);
  }

  lemma PartSizes(disk: map<string, Stored>, part: map<string, Slot>, ids: set<string>)
    requires PartOf(disk, part, ids)
    ensures Sizes(IndexOf(disk)) - (disk.Keys - ids) == Sizes(part)
  {
    var left := Sizes(IndexOf(disk)) - (disk.Keys - ids);
    assert left.Keys == ids;
    forall id | id in ids ensures left[id] == Sizes(part)[id] {
      assert IndexOf(disk)[id] == SlotOf(disk[id]);
    }
  }

  lemma PartWhole(disk: map<string, Stored>, part: map<string, Slot>)
    requires PartOf(disk, part, disk.Keys)
    ensures part == IndexOf(disk)
  {
  }

  lemma PartMore(disk: map<string, Stored>, part: map<string, Slot>, ids: set<string>, id: string, bytes: nat)
    requires PartOf(disk, part, ids) && id in disk && id !in ids && Counted(part, bytes)
    ensures PartOf(disk, part[id := SlotOf(disk[id])], ids + {id})
    ensures Counted(part[id := SlotOf(disk[id])], bytes + SlotOf(disk[id]).size)
    ensures bytes + SlotOf(disk[id]).size <= Total(Sizes(IndexOf(disk)))
  {
    PartAdds(disk, part, ids, id);
    InsertCounts(part, bytes, id, SlotOf(disk[id]));
    PartTotal(disk, part[id := SlotOf(disk[id])], ids + {id});
  }

  lemma PartAdds(disk: map<string, Stored>, part: map<string, Slot>, ids: set<string>, id: string)
    requires PartOf(disk, part, ids) && id in disk
    ensures PartOf(disk, part[id := SlotOf(disk[id])], ids + {id})
  {
    assert part[id := SlotOf(disk[id])].Keys == ids + {id};
  }

  /** A scan that has read `seen` and not stopped. */
  ghost predicate Progress(disk: map<string, Stored>, part: map<string, Slot>, bytes: nat, seen: set<string>,
                           env: Env) {
    PartOf(disk, part, seen) && Counted(part, bytes) && bytes <= U64_MAX && ScannedSoFar(seen, |seen|, env)
  }

  lemma PartCounted(disk: map<string, Stored>, part: map<string, Slot>, bytes: nat, seen: set<string>, id: string,
                    env: Env)
    requires PartOf(disk, part, seen) && Counted(part, bytes) && id in disk && id !in seen
    ensures PartOf(disk, part[id := SlotOf(disk[id])], seen + {id})
    ensures Counted(part[id := SlotOf(disk[id])], bytes + SlotOf(disk[id]).size)
    ensures bytes + SlotOf(disk[id]).size > U64_MAX ==> !Scannable(disk, env)
  {
    PartMore(disk, part, seen, id, bytes);
  }

  lemma ScanStops(disk: map<string, Stored>, seen: set<string>, id: string, env: Env)
    requires seen <= disk.Keys && ScannedSoFar(seen, |seen|, env) && id in disk && id !in seen
    ensures env.cancelled(Scanning(|seen|)) || env.fails(Listing(id)) ==> !Scannable(disk, env)
  {
    Fewer(seen, disk.Keys, id);
    assert |disk.Keys| == |disk|;
  }

  lemma ScanGoesOn(disk: map<string, Stored>, seen: set<string>, id: string, env: Env)
    requires seen <= disk.Keys && ScannedSoFar(seen, |seen|, env) && id in disk && id !in seen
    requires !env.cancelled(Scanning(|seen|)) && !env.fails(Listing(id))
    ensures ScannedSoFar(seen + {id}, |seen + {id}|, env)
  {
    Fewer(seen, disk.Keys, id);
  }

  /** Reading one more entry goes on or gives the reason why scanning cannot succeed. */
  lemma ProgressMore(disk: map<string, Stored>, part: map<string, Slot>, bytes: nat, seen: set<string>, id: string,
                     env: Env)
    requires Progress(disk, part, bytes, seen, env) && id in disk && id !in seen
    ensures env.cancelled(Scanning(|seen|)) || env.fails(Listing(id)) || bytes + SlotOf(disk[id]).size > U64_MAX ==>
            !Scannable(disk, env)
    ensures !env.cancelled(Scanning(|seen|)) && !env.fails(Listing(id)) && bytes + SlotOf(disk[id]).size <= U64_MAX ==>
              Progress(disk, part[id := SlotOf(disk[id])], bytes + SlotOf(disk[id]).size, seen + {id}, env)
  {
    PartCounted(disk, part, bytes, seen, id, env);
    ScanStops(disk, seen, id, env);
    if !env.cancelled(Scanning(|seen|)) && !env.fails(Listing(id)) {
      ScanGoesOn(disk, seen, id, env);
    }
  }

  lemma Fewer(a: set<string>, b: set<string>, x: string)
    requires a <= b && x in b && x !in a
    ensures |a| < |b| && |a + {x}| == |a| + 1
  {
    assert b == a + (b - a) && |b - a| > 0;
  }

  lemma ProgressNone(disk: map<string, Stored>, env: Env)
    ensures Progress(disk, map[], 0, {}, env)
  {
    assert Sizes(map[]) == map[];
  }

  lemma ProgressDone(disk: map<string, Stored>, part: map<string, Slot>, bytes: nat, env: Env)
    requires Progress(disk, part, bytes, disk.Keys, env)
    ensures Scannable(disk, env) && part == IndexOf(disk)
  {
    PartTotal(disk, part, disk.Keys);
    PartWhole(disk, part);
    assert |disk.Keys| == |disk|;
  }

  // ---- Making room -----------------------------------------------------------------------------

  ghost predicate Shortest(entries: map<string, Slot>, keep: Option<string>, gone: set<string>,
                           size: nat, count: nat, maxBytes: Option<nat>, maxEntries: Option<nat>) {
    && LruPrefix(entries, keep, gone)
    && Fits(entries, keep, gone, size, count, maxBytes, maxEntries)
    && NoMoreThanNeeded(entries, keep, gone, size, count, maxBytes, maxEntries)
  }

  ghost predicate Evictable(disk: map<string, Stored>, gone: set<string>, env: Env) {
    && (forall n | 0 <= n < |gone| :: !env.cancelled(Evicting(n)))
    && (forall id | id in gone :: id in disk && !env.fails(Removing(id)))
  }

  /** Room can be made: the sum stays in a word and what has to go can be removed. */
  ghost predicate Room(entries: map<string, Slot>, disk: map<string, Stored>, keep: Option<string>,
                       size: nat, count: nat, maxBytes: Option<nat>, maxEntries: Option<nat>, env: Env) {
    && Total(Sizes(Without(entries, keep))) + size <= U64_MAX
    && exists gone: set<string> ::
        Shortest(entries, keep, gone, size, count, maxBytes, maxEntries) && Evictable(disk, gone, env)
  }

  /** The entry that is evicted after `gone`. */
  ghost predicate Next(entries: map<string, Slot>, keep: Option<string>, gone: set<string>, x: string) {
    && x in entries && x !in gone && keep != Some(x)
    && forall k | k in entries && k !in gone && k != x && keep != Some(k) :: Before(entries, x, k)
  }

  // ---- There is room ---------------------------------------------------------------------------

  /** Among any entries there is one that comes before the others. */
  lemma {:induction false} OldestExists(entries: map<string, Slot>, ids: set<string>) returns (x: string)
    requires ids != {} && ids <= entries.Keys
    ensures x in ids && forall k | k in ids && k != x :: Before(entries, x, k)
    decreases |ids|
  {
    x :| x in ids;
    var rest := ids - {x};
    if rest != {} {
      var y := OldestExists(entries, rest);
      BeforeOrders(entries, x, y, y);
      if Before(entries, y, x) {
        x := y;
      } else {
        forall k | k in ids && k != x ensures Before(entries, x, k) {
          BeforeOrders(entries, x, y, k);
        }
      }
    }
  }

  /** As long as an admitted request does not fit, there is an entry to evict. */
  lemma NextExists(entries: map<string, Slot>, keep: Option<string>, gone: set<string>,
                   size: nat, count: nat, maxBytes: Option<nat>, maxEntries: Option<nat>) returns (x: string)
    requires !Fits(entries, keep, gone, size, count, maxBytes, maxEntries)
    requires Admitted(size, count, maxBytes, maxEntries)
    ensures Next(entries, keep, gone, x)
  {
    var left := set k | k in entries && k !in gone && keep != Some(k);
    if left == {} {
      assert forall k | k in entries && keep != Some(k) :: k in gone || k in left;
      AllGoneFits(entries, keep, gone, size, count, maxBytes, maxEntries);
    }
    x := OldestExists(entries, left);
  }

  /** What the limits admit at all, some shortest prefix makes room for. */
  lemma {:induction false} ShortestFrom(entries: map<string, Slot>, keep: Option<string>, gone: set<string>,
                                        size: nat, count: nat, maxBytes: Option<nat>, maxEntries: Option<nat>)
    returns (all: set<string>)
    requires LruPrefix(entries, keep, gone)
    requires NoMoreThanNeeded(entries, keep, gone, size, count, maxBytes, maxEntries)
    requires Admitted(size, count, maxBytes, maxEntries)
    ensures Shortest(entries, keep, all, size, count, maxBytes, maxEntries)
    decreases |entries.Keys - gone|
  {
    if Fits(entries, keep, gone, size, count, maxBytes, maxEntries) {
      return gone;
    }
    var x := NextExists(entries, keep, gone, size, count, maxBytes, maxEntries);
    EvictOldest(entries, keep, gone, x, size, count, maxBytes, maxEntries);
    FewerLeft(entries.Keys, gone, x);
    all := ShortestFrom(entries, keep, gone + {x}, size, count, maxBytes, maxEntries);
  }

  lemma FewerLeft(ids: set<string>, gone: set<string>, x: string)
    requires x in ids && x !in gone
    ensures |ids - (gone + {x})| < |ids - gone|
  {
    assert ids - gone == ids - (gone + {x}) + {x};
  }

  /** The request is within the limits by itself. */
  predicate Admitted(size: nat, count: nat, maxBytes: Option<nat>, maxEntries: Option<nat>) {
    (maxBytes.Some? ==> size <= maxBytes.value) && (maxEntries.Some? ==> count <= maxEntries.value)
  }

  /** Nothing interferes with any eviction. */
  ghost predicate Removable(entries: map<string, Slot>, disk: map<string, Stored>, keep: Option<string>, env: Env) {
    && (forall n: nat :: !env.cancelled(Evicting(n)))
    && (forall id | id in entries && keep != Some(id) :: id in disk && !env.fails(Removing(id)))
  }

  /** Making room fails only for a request beyond a limit or beyond 64 bits, or when something interferes. */
  lemma RoomExists(entries: map<string, Slot>, disk: map<string, Stored>, keep: Option<string>,
                   size: nat, count: nat, maxBytes: Option<nat>, maxEntries: Option<nat>, env: Env)
    requires Total(Sizes(Without(entries, keep))) + size <= U64_MAX
    requires Admitted(size, count, maxBytes, maxEntries) && Removable(entries, disk, keep, env)
    ensures Room(entries, disk, keep, size, count, maxBytes, maxEntries, env)
  {
    NothingEvicted(entries, keep, size, count, maxBytes, maxEntries);
    var all := ShortestFrom(entries, keep, {}, size, count, maxBytes, maxEntries);
    assert Evictable(disk, all, env);
  }

  lemma MadeWhenClear(entries: map<string, Slot>, disk: map<string, Stored>, keep: Option<string>,
                      size: nat, count: nat, maxBytes: Option<nat>, maxEntries: Option<nat>, env: Env)
    ensures
      || Room(entries, disk, keep, size, count, maxBytes, maxEntries, env)
      || Total(Sizes(Without(entries, keep))) + size > U64_MAX
      || !Admitted(size, count, maxBytes, maxEntries) || !Removable(entries, disk, keep, env)
  {
    if && Total(Sizes(Without(entries, keep))) + size <= U64_MAX
       && Admitted(size, count, maxBytes, maxEntries) && Removable(entries, disk, keep, env) {
      RoomExists(entries, disk, keep, size, count, maxBytes, maxEntries, env);
    }
  }

  /** A quiet opening of a directory whose sizes add up in 64 bits has what it needs. */
  lemma QuietOpens(disk: map<string, Stored>, maxBytes: Option<nat>, maxEntries: Option<nat>, env: Env)
    requires Quiet(env) && Total(Sizes(IndexOf(disk))) <= U64_MAX
    ensures Scannable(disk, env) && Room(IndexOf(disk), disk, None, 0, 0, maxBytes, maxEntries, env)
  {
    RoomExists(IndexOf(disk), disk, None, 0, 0, maxBytes, maxEntries, env);
  }

  // ---- Removals that fail ----------------------------------------------------------------------

  /** What went wrong with an entry: its removal failed on the way, or it was removed and not replaced. */
  datatype Harm = Unharmed | Struck(id: string) | Torn(id: string)

  function AfterHarm(disk: map<string, Stored>, harm: Harm, spares: Part -> bool): map<string, Stored> {
    match harm
    case Unharmed => disk
    case Struck(x) => if x in disk then disk[x := Spared(disk[x], spares)] else disk
    case Torn(x) => disk - {x}
  }

  /** The directory lost something that the index goes on counting. */
  predicate Hurts(disk: map<string, Stored>, harm: Harm, spares: Part -> bool) {
    match harm
    case Unharmed => false
    case Struck(x) => x in disk && !Untouched(disk[x], spares)
    case Torn(x) => x in disk
  }

  lemma StruckMirrors(entries: map<string, Slot>, disk: map<string, Stored>, x: string, spares: Part -> bool)
    requires Mirrors(entries, disk) && x in disk
    ensures Mirrors(entries, disk[x := Spared(disk[x], spares)]) <==> Untouched(disk[x], spares)
  {
    var left := Spared(disk[x], spares);
    var after := disk[x := left];
    SparedSize(disk[x], spares);
    assert after.Keys == disk.Keys && after[x] == left;
    assert entries[x].size == TreeSize(disk[x]);
  }

  /** Index and directory go on agreeing exactly when the directory lost nothing. */
  lemma HarmMirrors(entries: map<string, Slot>, disk: map<string, Stored>, harm: Harm, spares: Part -> bool)
    requires Mirrors(entries, disk)
    ensures Mirrors(entries, AfterHarm(disk, harm, spares)) <==> !Hurts(disk, harm, spares)
  {
    match harm
    case Unharmed =>
    case Struck(x) =>
      if x in disk {
        StruckMirrors(entries, disk, x, spares);
      }
    case Torn(x) =>
      if x in disk {
        assert x in entries.Keys && x !in (disk - {x}).Keys;
      } else {
        assert disk - {x} == disk;
      }
  }

  /** What replacing the entry of `id` does to it when that fails. */
  function Mishap(disk: map<string, Stored>, id: string, env: Env): Harm {
    if id !in disk then Unharmed
    else if env.fails(Replacing) then Struck(id)
    else if env.fails(Renaming) then Torn(id)
    else Unharmed
  }

  /** After evicting `gone` there is no room yet, and removing `x`, which is next, fails. */
  ghost predicate StrikesAt(entries: map<string, Slot>, disk: map<string, Stored>, keep: Option<string>,
                            gone: set<string>, x: string, size: nat, count: nat,
                            maxBytes: Option<nat>, maxEntries: Option<nat>, env: Env) {
    && LruPrefix(entries, keep, gone) && NoMoreThanNeeded(entries, keep, gone, size, count, maxBytes, maxEntries)
    && !Fits(entries, keep, gone, size, count, maxBytes, maxEntries)
    && Evictable(disk, gone, env) && !env.cancelled(Evicting(|gone|))
    && Next(entries, keep, gone, x) && x in disk && env.fails(Removing(x))
  }

  /** Making room comes to `x` and fails to remove it. */
  ghost predicate Strikes(entries: map<string, Slot>, disk: map<string, Stored>, keep: Option<string>, x: string,
                          size: nat, count: nat, maxBytes: Option<nat>, maxEntries: Option<nat>, env: Env) {
    && Total(Sizes(Without(entries, keep))) + size <= U64_MAX
    && exists gone: set<string> :: StrikesAt(entries, disk, keep, gone, x, size, count, maxBytes, maxEntries, env)
  }

  /** A removal that is to fail comes after `gone`. */
  ghost predicate StrikesAfter(entries: map<string, Slot>, disk: map<string, Stored>, keep: Option<string>,
                               gone: set<string>, size: nat, count: nat,
                               maxBytes: Option<nat>, maxEntries: Option<nat>, env: Env) {
    forall g: set<string>, x: string | StrikesAt(entries, disk, keep, g, x, size, count, maxBytes, maxEntries, env) ::
      gone <= g
  }

  /** The harm that making room does, known from the start: the removal that strikes, and nothing else. */
  ghost predicate HarmIs(entries: map<string, Slot>, disk: map<string, Stored>, keep: Option<string>,
                         gone: set<string>, harm: Harm, size: nat, count: nat,
                         maxBytes: Option<nat>, maxEntries: Option<nat>, env: Env) {
    && !harm.Torn? && (harm.Struck? ==> harm.id !in gone && harm.id in disk)
    && forall x: string ::
        harm == Struck(x) <==> Strikes(entries, disk, keep, x, size, count, maxBytes, maxEntries, env)
  }

  lemma NextInside(entries: map<string, Slot>, keep: Option<string>, gone: set<string>, x: string, more: set<string>)
    requires Next(entries, keep, gone, x) && LruPrefix(entries, keep, more) && gone <= more && gone != more
    ensures x in more
  {
    var y :| y in more && y !in gone;
    if x !in more {
      BeforeOrders(entries, x, y, y);
    }
  }

  lemma NextUnique(entries: map<string, Slot>, keep: Option<string>, gone: set<string>, x: string, y: string)
    requires Next(entries, keep, gone, x) && Next(entries, keep, gone, y)
    ensures x == y
  {
    BeforeOrders(entries, x, y, y);
  }

  /** The next entry is the one whose removal fails, or it is evicted before. */
  lemma StrikeDecided(entries: map<string, Slot>, disk: map<string, Stored>, keep: Option<string>,
                      gone: set<string>, x: string, g: set<string>, y: string, size: nat, count: nat,
                      maxBytes: Option<nat>, maxEntries: Option<nat>, env: Env)
    requires StrikesAfter(entries, disk, keep, gone, size, count, maxBytes, maxEntries, env)
    requires Next(entries, keep, gone, x)
    requires StrikesAt(entries, disk, keep, g, y, size, count, maxBytes, maxEntries, env)
    ensures (g == gone && y == x) || (gone + {x} <= g && x in disk && !env.fails(Removing(x)))
  {
    assert gone <= g;
    if g == gone {
      NextUnique(entries, keep, gone, x, y);
    } else {
      NextInside(entries, keep, gone, x, g);
    }
  }

  /** After the next entry was evicted, a failing removal is still to come. */
  lemma StrikeLater(entries: map<string, Slot>, disk: map<string, Stored>, keep: Option<string>,
                    gone: set<string>, x: string, size: nat, count: nat,
                    maxBytes: Option<nat>, maxEntries: Option<nat>, env: Env)
    requires StrikesAfter(entries, disk, keep, gone, size, count, maxBytes, maxEntries, env)
    requires Next(entries, keep, gone, x) && !env.fails(Removing(x))
    ensures StrikesAfter(entries, disk, keep, gone + {x}, size, count, maxBytes, maxEntries, env)
  {
    forall g: set<string>, y: string | StrikesAt(entries, disk, keep, g, y, size, count, maxBytes, maxEntries, env)
      ensures gone + {x} <= g
    {
      StrikeDecided(entries, disk, keep, gone, x, g, y, size, count, maxBytes, maxEntries, env);
    }
  }

  /** Which removal strikes, when the loop ends at the next entry. */
  lemma StrikeHere(entries: map<string, Slot>, disk: map<string, Stored>, keep: Option<string>,
                   gone: set<string>, x: string, size: nat, count: nat,
                   maxBytes: Option<nat>, maxEntries: Option<nat>, env: Env)
    requires StrikesAfter(entries, disk, keep, gone, size, count, maxBytes, maxEntries, env)
    requires Next(entries, keep, gone, x) && (x !in disk || env.fails(Removing(x)))
    ensures forall y: string :: Strikes(entries, disk, keep, y, size, count, maxBytes, maxEntries, env) ==>
              y == x && x in disk
  {
    forall y: string, g: set<string> |
      StrikesAt(entries, disk, keep, g, y, size, count, maxBytes, maxEntries, env)
      ensures y == x && x in disk
    {
      StrikeDecided(entries, disk, keep, gone, x, g, y, size, count, maxBytes, maxEntries, env);
    }
  }

  /** No removal strikes when the loop ends with room, cancelled, or with nothing left. */
  lemma NoStrike(entries: map<string, Slot>, disk: map<string, Stored>, keep: Option<string>,
                 gone: set<string>, size: nat, count: nat, maxBytes: Option<nat>, maxEntries: Option<nat>, env: Env)
    requires StrikesAfter(entries, disk, keep, gone, size, count, maxBytes, maxEntries, env)
    requires LruPrefix(entries, keep, gone)
    requires
      || Fits(entries, keep, gone, size, count, maxBytes, maxEntries)
      || env.cancelled(Evicting(|gone|))
      || (forall k | k in entries && k !in gone :: keep == Some(k))
    ensures forall y: string :: !Strikes(entries, disk, keep, y, size, count, maxBytes, maxEntries, env)
  {
    forall y: string, g: set<string>
      ensures !StrikesAt(entries, disk, keep, g, y, size, count, maxBytes, maxEntries, env)
    {
      SmallerPart(gone, g);
      assert StrikesAt(entries, disk, keep, g, y, size, count, maxBytes, maxEntries, env) ==> gone <= g;
      assert gone <= g && gone != g ==> exists k :: k in g && k !in gone;
    }
  }

  lemma SmallerPart(part: set<string>, all: set<string>)
    ensures part <= all ==> part == all || |part| < |all|
  {
    if part <= all && part != all {
      assert all == part + (all - part) && all - part != {};
    }
  }

  lemma EvictableMore(disk: map<string, Stored>, gone: set<string>, x: string, env: Env)
    requires Evictable(disk, gone, env) && !env.cancelled(Evicting(|gone|))
    requires x in disk && x !in gone && !env.fails(Removing(x))
    ensures Evictable(disk, gone + {x}, env) && |gone + {x}| == |gone| + 1
  {
  }

  /** Any set that is shortest goes beyond a prefix that does not fit, by at least one entry. */
  lemma GoesOn(entries: map<string, Slot>, keep: Option<string>, gone: set<string>, all: set<string>,
               size: nat, count: nat, maxBytes: Option<nat>, maxEntries: Option<nat>)
    requires NoMoreThanNeeded(entries, keep, gone, size, count, maxBytes, maxEntries)
    requires !Fits(entries, keep, gone, size, count, maxBytes, maxEntries)
    requires Shortest(entries, keep, all, size, count, maxBytes, maxEntries)
    ensures gone <= all && |gone| < |all|
  {
    assert gone <= all && gone != all;
    assert all == gone + (all - gone) && |all - gone| > 0;
  }

  /** A reading that cancels the next eviction leaves no way to make room. */
  lemma CancelledShort(entries: map<string, Slot>, disk: map<string, Stored>, keep: Option<string>, gone: set<string>,
                       size: nat, count: nat, maxBytes: Option<nat>, maxEntries: Option<nat>, env: Env)
    requires NoMoreThanNeeded(entries, keep, gone, size, count, maxBytes, maxEntries)
    requires !Fits(entries, keep, gone, size, count, maxBytes, maxEntries)
    requires env.cancelled(Evicting(|gone|))
    ensures !Room(entries, disk, keep, size, count, maxBytes, maxEntries, env)
  {
    forall all | Shortest(entries, keep, all, size, count, maxBytes, maxEntries) ensures !Evictable(disk, all, env) {
      GoesOn(entries, keep, gone, all, size, count, maxBytes, maxEntries);
    }
  }

  /** Nor does an entry that every sufficient set has to contain and that cannot be removed. */
  lemma StuckShort(entries: map<string, Slot>, disk: map<string, Stored>, keep: Option<string>, more: set<string>,
                   x: string, size: nat, count: nat, maxBytes: Option<nat>, maxEntries: Option<nat>, env: Env)
    requires NoMoreThanNeeded(entries, keep, more, size, count, maxBytes, maxEntries) && x in more
    requires env.fails(Removing(x)) || x !in disk
    ensures !Room(entries, disk, keep, size, count, maxBytes, maxEntries, env)
  {
    forall all | Shortest(entries, keep, all, size, count, maxBytes, maxEntries) ensures !Evictable(disk, all, env) {
      assert x in all;
    }
  }

  /** Nothing fits that exceeds a limit by itself. */
  lemma TooLarge(entries: map<string, Slot>, disk: map<string, Stored>, keep: Option<string>,
                 size: nat, count: nat, maxBytes: Option<nat>, maxEntries: Option<nat>, env: Env)
    requires (maxBytes.Some? && size > maxBytes.value) || (maxEntries.Some? && count > maxEntries.value)
    ensures !Room(entries, disk, keep, size, count, maxBytes, maxEntries, env)
  {
    assert forall all: set<string> :: !Fits(entries, keep, all, size, count, maxBytes, maxEntries);
  }

  /** A sum that leaves 64 bits now did so before anything was evicted. */
  lemma OverflowEarlier(entries: map<string, Slot>, keep: Option<string>, gone: set<string>)
    ensures Total(Sizes(Without(entries - gone, keep))) <= Total(Sizes(Without(entries, keep)))
  {
    var all := Sizes(Without(entries, keep));
    TotalShrinks(all, gone);
    assert all - gone == Sizes(Without(entries - gone, keep));
  }

  lemma NoneGone<V>(m: map<string, V>)
    ensures m - {} == m
  {
  }

  lemma NothingEvicted(entries: map<string, Slot>, keep: Option<string>, size: nat, count: nat, maxBytes: Option<nat>,
                       maxEntries: Option<nat>)
    ensures entries - {} == entries && LruPrefix(entries, keep, {})
    ensures NoMoreThanNeeded(entries, keep, {}, size, count, maxBytes, maxEntries)
  {
  }

  ghost predicate Limited(entries: map<string, Slot>, maxBytes: Option<nat>, maxEntries: Option<nat>) {
    (maxBytes.Some? ==> Total(Sizes(entries)) <= maxBytes.value) && (maxEntries.Some? ==> |entries| <= maxEntries.value)
  }

  /** Once room was made, both limits hold with the new entry in place. */
  lemma FitsInserted(all: map<string, Slot>, gone: set<string>, id: string, slot: Slot, maxBytes: Option<nat>,
                     maxEntries: Option<nat>)
    requires Fits(all, Some(id), gone, slot.size, 1, maxBytes, maxEntries)
    ensures maxBytes.Some? ==> Total(Sizes((all - gone)[id := slot])) <= maxBytes.value
    ensures maxEntries.Some? ==> |(all - gone)[id := slot]| <= maxEntries.value
  {
    var left := all - gone - {id};
    var after := (all - gone)[id := slot];
    TotalAdd(Sizes(all - gone), id, slot.size);
    assert Sizes(after) == Sizes(all - gone)[id := slot.size];
    assert Sizes(all - gone) - {id} == Sizes(left);
    assert after.Keys == left.Keys + {id};
    assert |after.Keys| == |after| && |left.Keys| == |left|;
  }

  lemma NoneLeft(before: map<string, Slot>, keep: Option<string>, gone: set<string>)
    requires forall k | k in before - gone :: keep == Some(k)
    ensures forall k | k in before && k !in gone :: keep == Some(k)
  {
    assert forall k | k in before && k !in gone :: k in before - gone;
  }

  /** The order among the remaining entries is their order among all. */
  lemma OldestOf(before: map<string, Slot>, gone: set<string>, keep: Option<string>, x: string)
    requires x in before - gone
    requires forall k | k in before - gone && k != x && keep != Some(k) :: Before(before - gone, x, k)
    requires keep != Some(x)
    ensures Next(before, keep, gone, x)
  {
  }

  /** The test the loop makes is exactly whether what was evicted makes room. */
  lemma RoomTest(before: map<string, Slot>, keep: Option<string>, gone: set<string>,
                 size: nat, count: nat, maxBytes: Option<nat>, maxEntries: Option<nat>)
    ensures var entries := before - gone;
            var has := keep.Some? && keep.value in entries;
            var replaced := if has then entries[keep.value].size else 0;
            && replaced <= Total(Sizes(entries)) && (has ==> |entries| > 0)
            && (Fits(before, keep, gone, size, count, maxBytes, maxEntries) <==>
                  && (maxBytes.None? || Total(Sizes(entries)) - replaced + size <= maxBytes.value)
                  && (maxEntries.None? || |entries| - (if has then 1 else 0) + count <= maxEntries.value))
  {
    LeftOver(before - gone, keep);
  }

  /** With nothing left to evict, only an impossible request fails to fit. */
  lemma NothingLeft(before: map<string, Slot>, keep: Option<string>, gone: set<string>,
                    size: nat, count: nat, maxBytes: Option<nat>, maxEntries: Option<nat>)
    requires forall k | k in before - gone :: keep == Some(k)
    ensures !Fits(before, keep, gone, size, count, maxBytes, maxEntries) ==>
              (maxBytes.Some? && size > maxBytes.value) || (maxEntries.Some? && count > maxEntries.value)
  {
    if (maxBytes.Some? ==> size <= maxBytes.value) && (maxEntries.Some? ==> count <= maxEntries.value) {
      forall k | k in before && keep != Some(k) ensures k in gone {
        assert k in gone || k in before - gone;
      }
      AllGoneFits(before, keep, gone, size, count, maxBytes, maxEntries);
    }
  }

  /** The total and count once the replaced entry is discounted. */
  lemma LeftOver(entries: map<string, Slot>, keep: Option<string>)
    ensures var left := Without(entries, keep);
            if keep.Some? && keep.value in entries
            then Total(Sizes(left)) + entries[keep.value].size == Total(Sizes(entries)) && |left| == |entries| - 1
            else left == entries
  {
    if keep.Some? && keep.value in entries {
      TotalRemove(Sizes(entries), keep.value);
      assert Sizes(entries) - {keep.value} == Sizes(entries - {keep.value});
      assert (entries - {keep.value}).Keys == entries.Keys - {keep.value};
      assert |entries.Keys| == |entries| && |(entries - {keep.value}).Keys| == |entries - {keep.value}|;
    } else if keep.Some? {
      assert entries - {keep.value} == entries;
    }
  }

  /** Without a replaced or a new entry, fitting is being within the limits. */
  lemma PrunedFits(entries: map<string, Slot>, gone: set<string>, maxBytes: Option<nat>, maxEntries: Option<nat>)
    ensures Fits(entries, None, gone, 0, 0, maxBytes, maxEntries) <==> Limited(entries - gone, maxBytes, maxEntries)
  {
  }

  /** An index that agrees with the directory within the limits needs no eviction when it is read again. */
  lemma NothingToPrune(entries: map<string, Slot>, disk: map<string, Stored>, gone: set<string>,
                       maxBytes: Option<nat>, maxEntries: Option<nat>)
    requires Mirrors(entries, disk) && Limited(entries, maxBytes, maxEntries)
    requires NoMoreThanNeeded(IndexOf(disk), None, gone, 0, 0, maxBytes, maxEntries)
    ensures gone == {} && Sizes(IndexOf(disk)) == Sizes(entries)
  {
    MirrorsIndex(entries, disk);
    NoneGone(IndexOf(disk));
    NothingEvicted(IndexOf(disk), None, 0, 0, maxBytes, maxEntries);
    PrunedFits(IndexOf(disk), {}, maxBytes, maxEntries);
  }

  // ---- How one eviction ends -------------------------------------------------------------------

  /** With nothing left to evict. */
  lemma EvictNone(entries: map<string, Slot>, disk: map<string, Stored>, keep: Option<string>,
                  gone: set<string>, size: nat, count: nat, maxBytes: Option<nat>, maxEntries: Option<nat>, env: Env)
    requires LruPrefix(entries, keep, gone) && NoMoreThanNeeded(entries, keep, gone, size, count, maxBytes, maxEntries)
    requires !Fits(entries, keep, gone, size, count, maxBytes, maxEntries)
    requires Evictable(disk, gone, env) && !env.cancelled(Evicting(|gone|))
    requires Total(Sizes(Without(entries, keep))) + size <= U64_MAX
    requires StrikesAfter(entries, disk, keep, gone, size, count, maxBytes, maxEntries, env)
    requires forall k | k in entries - gone :: keep == Some(k)
    ensures !Room(entries, disk, keep, size, count, maxBytes, maxEntries, env)
    ensures HarmIs(entries, disk, keep, gone, Unharmed, size, count, maxBytes, maxEntries, env)
  {
    NothingLeft(entries, keep, gone, size, count, maxBytes, maxEntries);
    TooLarge(entries, disk, keep, size, count, maxBytes, maxEntries, env);
    NoneLeft(entries, keep, gone);
    NoStrike(entries, disk, keep, gone, size, count, maxBytes, maxEntries, env);
  }

  /** With an entry that cannot be removed. */
  lemma EvictStuck(entries: map<string, Slot>, disk: map<string, Stored>, keep: Option<string>,
                  gone: set<string>, x: string, size: nat, count: nat,
                  maxBytes: Option<nat>, maxEntries: Option<nat>, env: Env)
    requires LruPrefix(entries, keep, gone) && NoMoreThanNeeded(entries, keep, gone, size, count, maxBytes, maxEntries)
    requires !Fits(entries, keep, gone, size, count, maxBytes, maxEntries)
    requires Evictable(disk, gone, env) && !env.cancelled(Evicting(|gone|))
    requires Total(Sizes(Without(entries, keep))) + size <= U64_MAX
    requires StrikesAfter(entries, disk, keep, gone, size, count, maxBytes, maxEntries, env)
    requires Next(entries, keep, gone, x) && (x !in disk || env.fails(Removing(x)))
    ensures !Room(entries, disk, keep, size, count, maxBytes, maxEntries, env)
    ensures HarmIs(entries, disk, keep, gone, if x in disk then Struck(x) else Unharmed,
                   size, count, maxBytes, maxEntries, env)
  {
    EvictOldest(entries, keep, gone, x, size, count, maxBytes, maxEntries);
    StuckShort(entries, disk, keep, gone + {x}, x, size, count, maxBytes, maxEntries, env);
    StrikeHere(entries, disk, keep, gone, x, size, count, maxBytes, maxEntries, env);
    assert x in disk ==> StrikesAt(entries, disk, keep, gone, x, size, count, maxBytes, maxEntries, env);
  }

  /** With one entry fewer. */
  lemma EvictMore(entries: map<string, Slot>, disk: map<string, Stored>, keep: Option<string>,
                  gone: set<string>, x: string, size: nat, count: nat,
                  maxBytes: Option<nat>, maxEntries: Option<nat>, env: Env)
    requires LruPrefix(entries, keep, gone) && NoMoreThanNeeded(entries, keep, gone, size, count, maxBytes, maxEntries)
    requires !Fits(entries, keep, gone, size, count, maxBytes, maxEntries)
    requires Evictable(disk, gone, env) && !env.cancelled(Evicting(|gone|))
    requires Total(Sizes(Without(entries, keep))) + size <= U64_MAX
    requires StrikesAfter(entries, disk, keep, gone, size, count, maxBytes, maxEntries, env)
    requires Next(entries, keep, gone, x) && x in disk && !env.fails(Removing(x))
    ensures var more := gone + {x};
            && LruPrefix(entries, keep, more)
            && NoMoreThanNeeded(entries, keep, more, size, count, maxBytes, maxEntries)
            && |more| == |gone| + 1 && more != {} && Evictable(disk, more, env)
            && StrikesAfter(entries, disk, keep, more, size, count, maxBytes, maxEntries, env)
            && entries - gone - {x} == entries - more && disk - gone - {x} == disk - more
            && |entries - more| < |entries - gone|
  {
    EvictOldest(entries, keep, gone, x, size, count, maxBytes, maxEntries);
    EvictableMore(disk, gone, x, env);
    StrikeLater(entries, disk, keep, gone, x, size, count, maxBytes, maxEntries, env);
    MinusTwice(entries, gone, x);
    MinusTwice(disk, gone, x);
  }

  /** The harm of an insertion: done in making room, or, once all is prepared, in replacing the entry. */
  ghost predicate Inserting(entries: map<string, Slot>, disk: map<string, Stored>, id: string, prepared: bool,
                            harm: Harm, size: nat, maxBytes: Option<nat>, maxEntries: Option<nat>, env: Env) {
    || (prepared && harm == Mishap(disk, id, env))
    || (harm.Struck? && Strikes(entries, disk, Some(id), harm.id, size, 1, maxBytes, maxEntries, env))
  }

  lemma HarmDecided(entries: map<string, Slot>, disk: map<string, Stored>, id: string, gone: set<string>,
                    made: Harm, prepared: bool, harm: Harm,
                    size: nat, maxBytes: Option<nat>, maxEntries: Option<nat>, env: Env)
    requires HarmIs(entries, disk, Some(id), gone, made, size, 1, maxBytes, maxEntries, env) && id !in gone
    requires if prepared then made == Unharmed && harm == Mishap(disk - gone, id, env) else harm == made
    ensures forall h: Harm | h != Unharmed ::
              harm == h <==> Inserting(entries, disk, id, prepared, h, size, maxBytes, maxEntries, env)
    ensures harm != Unharmed ==> harm.id in disk - gone
    ensures (exists h: Harm :: Inserting(entries, disk, id, prepared, h, size, maxBytes, maxEntries, env) &&
                               Hurts(disk, h, env.spares)) <==> Hurts(disk, harm, env.spares)
  {
    assert Mishap(disk - gone, id, env) == Mishap(disk, id, env);
    assert harm != Unharmed ==> Inserting(entries, disk, id, prepared, harm, size, maxBytes, maxEntries, env);
  }

  /** When nothing fails, inserting harms nothing. */
  lemma QuietHarmless(entries: map<string, Slot>, disk: map<string, Stored>, id: string, prepared: bool,
                      size: nat, maxBytes: Option<nat>, maxEntries: Option<nat>, env: Env)
    requires Quiet(env)
    ensures forall h: Harm | Inserting(entries, disk, id, prepared, h, size, maxBytes, maxEntries, env) :: h == Unharmed
  {
    forall h: Harm | Inserting(entries, disk, id, prepared, h, size, maxBytes, maxEntries, env) ensures h == Unharmed {
      assert h.Struck? ==> !env.fails(Removing(h.id));
      assert !Strikes(entries, disk, Some(id), if h.Struck? then h.id else "", size, 1, maxBytes, maxEntries, env);
      assert Mishap(disk, id, env) == Unharmed;
    }
  }

  /** A quiet insertion finds room for an admitted size. */
  lemma QuietRoom(entries: map<string, Slot>, disk: map<string, Stored>, id: string,
                  size: nat, maxBytes: Option<nat>, maxEntries: Option<nat>, env: Env)
    requires Quiet(env) && entries.Keys <= disk.Keys && Admitted(size, 1, maxBytes, maxEntries)
    requires Total(Sizes(Without(entries, Some(id)))) + size <= U64_MAX
    ensures Room(entries, disk, Some(id), size, 1, maxBytes, maxEntries, env)
  {
    RoomExists(entries, disk, Some(id), size, 1, maxBytes, maxEntries, env);
  }
}
