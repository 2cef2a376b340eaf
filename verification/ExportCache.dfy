/** The decoded-resource cache: a bounded index under a mutex that must agree with its directory. */
module ExportCache {
  import opened Wrappers
  import opened CacheModel
  import opened CacheConditions
  import opened Decimal
  import opened MapTotals
  import opened Reports
  import opened Seqs

  // ---- Copying ---------------------------------------------------------------------------------

  /** The checks on one record, in the order they are made. */
  method CopyRecord(h: Hashes, files: map<string, Content>, item: Output, n: nat, total: nat, paths: set<string>,
                    copied: map<string, Content>, limit: U64, env: Env, ghost done: seq<Output>)
    returns (r: Result<Option<map<string, Content>>, CacheError>)
    requires n == |done| && total == Bytes(done) && (item.path in paths <==> !Unlisted(done, item.path))
    ensures r == CopyOne(h, files, done, item, copied, limit, env)
  {
    if env.cancelled(Copying(n)) {
      return Failure(Cancelled);
    }
    if !SafePath(item.path) || item.path in paths || !Digest(item.sha256) {
      return Success(None);
    }
    if total + item.bytes > U64_MAX {
      return Failure(Size);
    }
    if total + item.bytes > limit || item.path !in files {
      return Success(None);
    }
    if env.fails(Transferring(n)) {
      return Failure(Io);
    }
    if |files[item.path]| != item.bytes || h.sha(files[item.path]) != item.sha256 {
      return Success(None);
    }
    return Success(Some(copied[item.path := files[item.path]]));
  }

  /** The loop over the records: the first that cannot be copied decides. */
  method CopyRecords(h: Hashes, files: map<string, Content>, outputs: seq<Output>, limit: U64, env: Env)
    returns (r: Result<Option<map<string, Content>>, CacheError>)
    ensures r == CopyOutcome(h, files, outputs, limit, env)
  {
    var total: nat, paths: set<string>, copied: map<string, Content> := 0, {}, map[];
    for i := 0 to |outputs|
      invariant CopiedSoFar(h, files, outputs[..i], limit, env, total, paths, copied)
    {
      CopiedMore(h, files, outputs, i, limit, env, total, paths, copied);
      r := CopyRecord(h, files, outputs[i], i, total, paths, copied, limit, env, outputs[..i]);
      if r.Failure? || r.value.None? {
        return;
      }
      total := total + outputs[i].bytes;
      paths := paths + {outputs[i].path};
      copied := r.value.value;
    }
    assert outputs[..|outputs|] == outputs;
    return Success(Some(copied));
  }

  /** Copies the recorded outputs of `files`, checking path, size, hash and total on the way. */
  method CopyOutputs(h: Hashes, files: map<string, Content>, outputs: seq<Output>, limit: U64, env: Env)
    returns (r: Result<Option<map<string, Content>>, CacheError>)
    ensures r == CopyOutcome(h, files, outputs, limit, env)
    ensures (r.Success? && r.value.Some?) <==> Copyable(h, files, outputs, limit) && Undisturbed(env, |outputs|)
    ensures r.Success? && r.value.Some? ==>
              && r.value.value == Copied(files, outputs)
              && Total(Lengths(r.value.value)) == Bytes(outputs)
    ensures r == Success(None) ==> !Copyable(h, files, outputs, limit)
    ensures r.Failure? ==> !Undisturbed(env, |outputs|) || Bytes(outputs) > U64_MAX
  {
    r := CopyRecords(h, files, outputs, limit, env);
    CopyExact(h, files, outputs, limit, env);
    if r.Success? && r.value.Some? {
      CopiedMembers(h, files, outputs, limit);
    }
  }

  class Cache {
    const hashes: Hashes
    const limit: U64
    const maxBytes: Option<nat>
    const maxEntries: Option<nat>
    /** The in-memory index and its byte counter. */
    var entries: map<string, Slot>
    var bytes: nat
    /** The entry directories below the cache root. */
    var disk: map<string, Stored>

    ghost predicate Indexed()
      reads this
    {
      Counted(entries, bytes)
    }

    ghost predicate Accounted()
      reads this
    {
      Counted(entries, bytes) && Mirrors(entries, disk)
    }

    ghost predicate WithinLimits()
      reads this
    {
      Limited(entries, maxBytes, maxEntries)
    }

    constructor (hashes: Hashes, limit: U64, maxBytes: Option<nat>, maxEntries: Option<nat>, disk: map<string, Stored>)
      ensures this.hashes == hashes && this.limit == limit && this.maxBytes == maxBytes && this.maxEntries == maxEntries
      ensures this.entries == map[] && this.bytes == 0 && this.disk == disk
    {
      this.hashes, this.limit, this.maxBytes, this.maxEntries := hashes, limit, maxBytes, maxEntries;
      this.entries, this.bytes, this.disk := map[], 0, disk;
    }

    /** The least recently used entry other than `keep`. */
    method Oldest(keep: Option<string>) returns (r: Option<string>)
      ensures r.None? ==> forall k | k in entries :: keep == Some(k)
      ensures r.Some? ==>
                && r.value in entries && keep != r
                && forall k | k in entries && k != r.value && keep != Some(k) :: Before(entries, r.value, k)
    {
      r := None;
      var pending := entries.Keys;
      while pending != {}
        invariant pending <= entries.Keys
        invariant r.None? ==> forall k | k in entries && k !in pending :: keep == Some(k)
        invariant r.Some? ==>
                    && r.value in entries && keep != r
                    && forall k | k in entries && k !in pending && k != r.value && keep != Some(k) ::
                        Before(entries, r.value, k)
        decreases pending
      {
        var k :| k in pending;
        pending := pending - {k};
        if keep != Some(k) {
          if r.None? {
            r := Some(k);
          } else {
            ghost var best := r.value;
            BeforeOrders(entries, k, best, best);
            if entries[k].time < entries[r.value].time ||
                (entries[k].time == entries[r.value].time && StringLeq(k, r.value)) {
              forall x | x in entries && x !in pending && x != k && keep != Some(x) ensures Before(entries, k, x) {
                BeforeOrders(entries, k, best, x);
              }
              r := Some(k);
            }
          }
        }
      }
    }

    /** Removes an entry directory; a removal that fails may have deleted some of its files. */
    method RemoveManaged(id: string, operation: Operation, env: Env) returns (ok: bool)
      modifies this`disk
      ensures ok <==> id in old(disk) && !env.fails(operation)
      ensures disk == if ok then old(disk) - {id} else AfterHarm(old(disk), Struck(id), env.spares)
    {
      if id !in disk {
        return false;
      }
      if env.fails(operation) {
        disk := disk[id := Spared(disk[id], env.spares)];
        return false;
      }
      disk := disk - {id};
      return true;
    }

    /** Drops one entry from the index. */
    method Forget(id: string)
      requires Indexed() && id in entries
      modifies this`entries, this`bytes
      ensures Indexed()
      ensures entries == old(entries) - {id} && bytes + old(entries)[id].size == old(bytes)
    {
      EvictCounts(entries, bytes, id);
      bytes := bytes - entries[id].size;
      entries := entries - {id};
    }

    /** Whether the entry about to be stored fits now, unless the sum leaves 64 bits. */
    method HasRoom(keep: Option<string>, size: nat, count: nat, ghost before: map<string, Slot>,
                   ghost gone: set<string>)
      returns (r: Result<bool, CacheError>)
      requires Indexed() && entries == before - gone
      ensures r.Success? ==> (r.value <==> Fits(before, keep, gone, size, count, maxBytes, maxEntries))
      ensures r.Success? ==>
                bytes + size <= U64_MAX + if keep.Some? && keep.value in entries then entries[keep.value].size else 0
      ensures r.Failure? <==> Total(Sizes(Without(entries, keep))) + size > U64_MAX
      ensures r.Failure? ==> r.error == Size
    {
      var replaced := if keep.Some? && keep.value in entries then entries[keep.value].size else 0;
      RoomTest(before, keep, gone, size, count, maxBytes, maxEntries);
      LeftOver(entries, keep);
      if bytes - replaced + size > U64_MAX {
        return Failure(Size);
      }
      var desiredBytes := bytes - replaced + size;
      var desiredCount := |entries| - (if keep.Some? && keep.value in entries then 1 else 0) + count;
      return Success((maxBytes.None? || desiredBytes <= maxBytes.value) &&
          (maxEntries.None? || desiredCount <= maxEntries.value));
    }

    /** Evicts the least recently used entry left, when the entries so far were not enough. */
    method EvictNext(keep: Option<string>, size: nat, count: nat, env: Env,
                     ghost before: map<string, Slot>, ghost stored: map<string, Stored>, ghost gone: set<string>)
      returns (r: Result<(), CacheError>, ghost more: set<string>, ghost harm: Harm)
      requires Indexed() && gone <= before.Keys && entries == before - gone && disk == stored - gone
      requires LruPrefix(before, keep, gone) && NoMoreThanNeeded(before, keep, gone, size, count, maxBytes, maxEntries)
      requires !Fits(before, keep, gone, size, count, maxBytes, maxEntries)
      requires Evictable(stored, gone, env) && !env.cancelled(Evicting(|gone|))
      requires Total(Sizes(Without(before, keep))) + size <= U64_MAX
      requires StrikesAfter(before, stored, keep, gone, size, count, maxBytes, maxEntries, env)
      modifies this
      ensures Indexed() && bytes <= old(bytes)
      ensures more <= before.Keys && entries == before - more && disk == AfterHarm(stored - more, harm, env.spares)
      ensures LruPrefix(before, keep, more) && NoMoreThanNeeded(before, keep, more, size, count, maxBytes, maxEntries)
      ensures r.Success? ==>
                && |more| == |gone| + 1 && more != {} && Evictable(stored, more, env) && |entries| < |old(entries)|
                && harm == Unharmed && StrikesAfter(before, stored, keep, more, size, count, maxBytes, maxEntries, env)
      ensures r.Failure? ==>
                && more == gone && !Room(before, stored, keep, size, count, maxBytes, maxEntries, env)
                && HarmIs(before, stored, keep, gone, harm, size, count, maxBytes, maxEntries, env)
    {
      var oldest := Oldest(keep);
      if oldest.None? {
        EvictNone(before, stored, keep, gone, size, count, maxBytes, maxEntries, env);
        return Failure(Size), gone, Unharmed;
      }
      OldestOf(before, gone, keep, oldest.value);
      var removed := RemoveManaged(oldest.value, Removing(oldest.value), env);
      if !removed {
        EvictStuck(before, stored, keep, gone, oldest.value, size, count, maxBytes, maxEntries, env);
        return Failure(Io), gone, if oldest.value in stored then Struck(oldest.value) else Unharmed;
      }
      EvictMore(before, stored, keep, gone, oldest.value, size, count, maxBytes, maxEntries, env);
      Forget(oldest.value);
      return Success(()), gone + {oldest.value}, Unharmed;
    }

    /**
     Evicts in least-recently-used order until the entry about to be stored fits. What it removed is,
     on every outcome, the start of the eviction order and no longer than necessary. Without cancellation,
     failing removal or overflow it never fails for a request that the limits admit by itself.
     */
    method MakeRoom(keep: Option<string>, size: nat, count: nat, env: Env)
      returns (r: Result<(), CacheError>, ghost gone: set<string>, ghost harm: Harm)
      requires Indexed()
      modifies this
      ensures Indexed()
      ensures gone <= old(entries).Keys && entries == old(entries) - gone
      ensures disk == AfterHarm(old(disk) - gone, harm, env.spares)
      ensures LruPrefix(old(entries), keep, gone)
      ensures NoMoreThanNeeded(old(entries), keep, gone, size, count, maxBytes, maxEntries)
      ensures r.Success? ==> Fits(old(entries), keep, gone, size, count, maxBytes, maxEntries) && harm == Unharmed
      ensures r.Success? ==>
                bytes + size <= U64_MAX + if keep.Some? && keep.value in entries then entries[keep.value].size else 0
      ensures r.Success? <==> Room(old(entries), old(disk), keep, size, count, maxBytes, maxEntries, env)
      ensures HarmIs(old(entries), old(disk), keep, gone, harm, size, count, maxBytes, maxEntries, env)
      ensures r.Failure? ==>
                || Total(Sizes(Without(old(entries), keep))) + size > U64_MAX
                || !Admitted(size, count, maxBytes, maxEntries) || !Removable(old(entries), old(disk), keep, env)
    {
      gone, harm := {}, Unharmed;
      ghost var before, stored := entries, disk;
      NothingEvicted(entries, keep, size, count, maxBytes, maxEntries);
      NoneGone(disk);
      MadeWhenClear(entries, disk, keep, size, count, maxBytes, maxEntries, env);
      var reading := 0;
      while true
        invariant Indexed() && bytes <= old(bytes)
        invariant gone <= before.Keys && entries == before - gone && disk == stored - gone
        invariant LruPrefix(before, keep, gone)
        invariant NoMoreThanNeeded(before, keep, gone, size, count, maxBytes, maxEntries)
        invariant reading == |gone| && Evictable(stored, gone, env)
        invariant StrikesAfter(before, stored, keep, gone, size, count, maxBytes, maxEntries, env)
        invariant gone != {} ==> Total(Sizes(Without(before, keep))) + size <= U64_MAX
        decreases |entries|
      {
        OverflowEarlier(before, keep, gone);
        var room := HasRoom(keep, size, count, before, gone);
        if room.Failure? {
          return Failure(room.error), gone, Unharmed;
        }
        if room.value {
          assert Shortest(before, keep, gone, size, count, maxBytes, maxEntries);
          NoStrike(before, stored, keep, gone, size, count, maxBytes, maxEntries, env);
          return Success(()), gone, Unharmed;
        }
        if env.cancelled(Evicting(reading)) {
          CancelledShort(before, stored, keep, gone, size, count, maxBytes, maxEntries, env);
          NoStrike(before, stored, keep, gone, size, count, maxBytes, maxEntries, env);
          return Failure(Cancelled), gone, Unharmed;
        }
        reading := reading + 1;
        r, gone, harm := EvictNext(keep, size, count, env, before, stored, gone);
        if r.Failure? {
          return;
        }
      }
    }

    // ---- Opening -------------------------------------------------------------------------------

    /** The length of all files below one directory, by walking them. */
    method Measure(files: map<string, Content>) returns (n: nat)
      ensures n == Total(Lengths(files))
    {
      n := 0;
      var pending := files.Keys;
      assert files - (files.Keys - pending) == files;
      ghost var left := files;
      while pending != {}
        invariant pending == left.Keys && forall p | p in left :: p in files && left[p] == files[p]
        invariant n + Total(Lengths(left)) == Total(Lengths(files))
        decreases pending
      {
        var p :| p in pending;
        TotalRemove(Lengths(left), p);
        assert Lengths(left - {p}) == Lengths(left) - {p};
        n := n + |files[p]|;
        pending := pending - {p};
        left := left - {p};
      }
      assert Lengths(left) == map[];
    }

    /** The size and the time of one entry directory. */
    method MeasureEntry(d: Stored) returns (slot: Slot)
      ensures slot == SlotOf(d)
    {
      var data := Measure(d.data);
      var strays := Measure(d.strays);
      return Slot((if d.meta.Some? then d.meta.value.size else 0) + data + strays, Accessed(d));
    }

    /** Measures and records one entry; `seen` are the entries read before. */
    method ScanEntry(id: string, reading: nat, env: Env, ghost seen: set<string>) returns (r: Result<(), CacheError>)
      requires Progress(disk, entries, bytes, seen, env) && reading == |seen| && id in disk && id !in seen
      modifies this`entries, this`bytes
      ensures Indexed()
      ensures r.Success? ==> Progress(disk, entries, bytes, seen + {id}, env) && |seen + {id}| == reading + 1
      ensures r.Failure? ==> !Scannable(disk, env)
    {
      ProgressMore(disk, entries, bytes, seen, id, env);
      if env.cancelled(Scanning(reading)) {
        return Failure(Cancelled);
      }
      if env.fails(Listing(id)) {
        return Failure(Io);
      }
      var slot := MeasureEntry(disk[id]);
      if bytes + slot.size > U64_MAX {
        return Failure(Size);
      }
      bytes := bytes + slot.size;
      entries := entries[id := slot];
      return Success(());
    }

    /** Rebuilds the index from the directory: each entry gets the size its files add up to. */
    method Scan(env: Env) returns (r: Result<(), CacheError>)
      modifies this`entries, this`bytes
      ensures Indexed()
      ensures r.Success? <==> Scannable(disk, env)
      ensures r.Success? ==> entries == IndexOf(disk)
    {
      entries, bytes := map[], 0;
      ghost var seen: set<string> := {};
      ProgressNone(disk, env);
      var pending, reading := disk.Keys, 0;
      while pending != {}
        invariant forall x :: x in disk <==> x in pending || x in seen
        invariant (forall x | x in pending :: x !in seen) && reading == |seen|
        invariant Progress(disk, entries, bytes, seen, env)
        decreases pending
      {
        var id :| id in pending;
        r := ScanEntry(id, reading, env, seen);
        if r.Failure? {
          return;
        }
        pending := pending - {id};
        seen := seen + {id};
        reading := reading + 1;
      }
      assert seen == disk.Keys;
      ProgressDone(disk, entries, bytes, env);
      return Success(());
    }

    /**
     Opening: scan, then evict down to the limits. The order of eviction is that of the times on disk;
     an index that agreed with the directory within the limits comes back with the same sizes. When
     nothing interferes and the sizes add up in 64 bits, opening succeeds.
     */
    method ScanAndPrune(env: Env) returns (r: Result<(), CacheError>, ghost gone: set<string>, ghost harm: Harm)
      modifies this
      ensures Indexed() && disk == AfterHarm(old(disk) - gone, harm, env.spares)
      ensures LruPrefix(IndexOf(old(disk)), None, gone)
      ensures NoMoreThanNeeded(IndexOf(old(disk)), None, gone, 0, 0, maxBytes, maxEntries)
      ensures r.Success? ==> entries == IndexOf(old(disk)) - gone && harm == Unharmed
      ensures r.Success? ==> Accounted() && WithinLimits()
      ensures r.Success? <==>
              Scannable(old(disk), env) && Room(IndexOf(old(disk)), old(disk), None, 0, 0, maxBytes, maxEntries, env)
      ensures Quiet(env) && Total(Sizes(IndexOf(old(disk)))) <= U64_MAX ==> r.Success?
      ensures if Scannable(old(disk), env)
              then HarmIs(IndexOf(old(disk)), old(disk), None, gone, harm, 0, 0, maxBytes, maxEntries, env)
              else harm == Unharmed
      ensures old(Accounted() && WithinLimits()) && r.Success? ==>
              gone == {} && disk == old(disk) && Sizes(entries) == Sizes(old(entries))
    {
      gone, harm := {}, Unharmed;
      NoneGone(disk);
      NothingEvicted(IndexOf(disk), None, 0, 0, maxBytes, maxEntries);
      if Quiet(env) && Total(Sizes(IndexOf(disk))) <= U64_MAX {
        QuietOpens(disk, maxBytes, maxEntries, env);
      }
      var scanned := Scan(env);
      if scanned.Failure? {
        return scanned, {}, Unharmed;
      }
      r, gone, harm := MakeRoom(None, 0, 0, env);
      IndexMirrors(old(disk));
      MirrorsMinus(IndexOf(old(disk)), old(disk), gone);
      PrunedFits(IndexOf(old(disk)), gone, maxBytes, maxEntries);
      if old(Accounted() && WithinLimits()) {
        NothingToPrune(old(entries), old(disk), gone, maxBytes, maxEntries);
        NoneGone(IndexOf(old(disk)));
      }
    }

    // ---- Restoring -----------------------------------------------------------------------------

    /** `entry.json` is there and passes every check. */
    predicate Legible(id: string)
      reads this
    {
      && id in disk && disk[id].meta.Some?
      && disk[id].meta.value.size <= MAX_REPORT
      && disk[id].meta.value.parsed.Some?
      && Accepted(hashes, id, disk[id].meta.value.parsed.value)
    }

    /** An entry `restore` would use: intact metadata and intact outputs. */
    predicate Restorable(id: string)
      reads this
    {
      Legible(id) && Copyable(hashes, disk[id].data, disk[id].meta.value.parsed.value.report.outputs, limit)
    }

    /** The entry gets published: it is usable and nothing goes wrong up to the rename. */
    ghost predicate Restores(id: string, env: Env)
      reads this
    {
      && Restorable(id)
      && Undisturbed(env, |disk[id].meta.value.parsed.value.report.outputs|)
      && !env.fails(Opening) && !env.fails(Staging) && !env.cancelled(Finishing) && !env.fails(Publishing)
    }

    /** There is no usable entry, and nothing went wrong on the way to finding that out. */
    ghost predicate Misses(id: string, env: Env)
      reads this
    {
      || id !in disk || disk[id].meta.None?
      || (!env.fails(Opening) &&
          (!Legible(id) ||
           (!env.fails(Staging) &&
            CopyOutcome(hashes, disk[id].data, disk[id].meta.value.parsed.value.report.outputs, limit, env) ==
                Success(None))))
    }

    /**
     Publishes the entry's outputs under the directory of this resource, and marks it used.
     `published` tells whether the directory is there afterwards.
     */
    method Restore(id: string, directory: string, env: Env)
      returns (r: Result<Option<Decoded>, CacheError>, published: bool)
      modifies this
      ensures bytes == old(bytes) && entries.Keys == old(entries).Keys && disk.Keys == old(disk).Keys
      ensures forall x | x in entries :: entries[x].size == old(entries)[x].size
      ensures forall x | x in disk ::
                disk[x] == old(disk)[x] || (x == id && disk[x] == old(disk)[x].(modified := env.now))
      ensures (old(Indexed()) ==> Indexed()) && (old(Accounted()) ==> Accounted()) &&
              (old(WithinLimits()) ==> WithinLimits())
      ensures r == Success(None) <==> old(Misses(id, env))
      ensures published <==> old(Restores(id, env))
      ensures (r.Success? && r.value.Some?) <==> published && !env.fails(Touching)
      ensures r == Success(None) ==> !old(Restorable(id))
      ensures r.Failure? || r.value.None? ==> unchanged(this)
      ensures r.Success? && r.value.Some? ==>
                && old(Restorable(id))
                && var entry := old(disk)[id].meta.value.parsed.value;
                && r.value.value == Decoded(entry.report.(directory := directory, cacheHit := true),
                                            Copied(old(disk)[id].data, entry.report.outputs))
                && disk[id].modified == env.now
                && (id in entries ==> entries[id].time == env.now)
    {
      if id !in disk || disk[id].meta.None? {
        return Success(None), false;
      }
      if env.fails(Opening) {
        return Failure(Io), false;
      }
      var meta := disk[id].meta.value;
      if meta.size > MAX_REPORT || meta.parsed.None? {
        return Success(None), false;
      }
      var entry := meta.parsed.value;
      if entry.schema != 1 || entry.identity != id || entry.report.errors != [] ||
          entry.reportSha256 != hashes.fingerprint(entry.report) {
        return Success(None), false;
      }
      if env.fails(Staging) {
        return Failure(Io), false;
      }
      var copied := CopyOutputs(hashes, disk[id].data, entry.report.outputs, limit, env);
      if copied.Failure? {
        return Failure(copied.error), false;
      }
      if copied.value.None? {
        return Success(None), false;
      }
      if env.cancelled(Finishing) {
        return Failure(Cancelled), false;
      }
      var report := entry.report.(directory := directory, cacheHit := true);
      if env.fails(Publishing) {
        return Failure(Io), false;
      }
      if env.fails(Touching) {
        return Failure(Io), true;
      }
      Touch(id, env.now);
      return Success(Some(Decoded(report, copied.value.value))), true;
    }

    /** Sets the time of an entry, on disk and in the index. */
    method Touch(id: string, now: int)
      requires id in disk
      modifies this
      ensures bytes == old(bytes) && entries.Keys == old(entries).Keys &&
              disk == old(disk)[id := old(disk)[id].(modified := now)]
      ensures forall x | x in entries ::
              entries[x] == if x == id then old(entries)[x].(time := now) else old(entries)[x]
      ensures (old(Indexed()) ==> Indexed()) && (old(Accounted()) ==> Accounted()) &&
              (old(WithinLimits()) ==> WithinLimits())
    {
      disk := disk[id := disk[id].(modified := now)];
      if id in entries {
        entries := entries[id := entries[id].(time := now)];
      }
      SizesKept(old(entries), entries);
    }

    // ---- Storing -------------------------------------------------------------------------------

    /** What `Store` writes for a report. */
    function EntryOf(id: string, report: Report): Entry {
      Entry(1, id, hashes.fingerprint(report), report)
    }

    function StoredSize(id: string, report: Report): nat {
      hashes.length(EntryOf(id, report)) + Bytes(report.outputs)
    }

    /** Short enough to be written at all. */
    predicate Writable(id: string, report: Report) {
      hashes.length(EntryOf(id, report)) <= MAX_REPORT && StoredSize(id, report) <= U64_MAX
    }

    /** Too large ever to fit: such a resource is simply not cached. */
    predicate Oversized(id: string, report: Report) {
      maxBytes.Some? && StoredSize(id, report) > maxBytes.value
    }

    /** Everything up to replacing the entry on disk works: room, staging, no cancellation. */
    ghost predicate Prepared(id: string, files: map<string, Content>, report: Report, env: Env)
      reads this
    {
      && Room(entries, disk, Some(id), StoredSize(id, report), 1, maxBytes, maxEntries, env)
      && Copyable(hashes, files, report.outputs, limit) && Undisturbed(env, |report.outputs|)
      && !env.fails(Staging) && !env.fails(Recording) && !env.cancelled(Finishing)
    }

    /** The new entry takes its place. */
    predicate Replaced(id: string, env: Env)
      reads this
    {
      (id in disk ==> !env.fails(Replacing)) && !env.fails(Renaming)
    }

    /** The harm that inserting does to an entry: on the way to making room, or in its place. */
    ghost predicate Meets(id: string, files: map<string, Content>, report: Report, env: Env, harm: Harm)
      reads this
    {
      Inserting(entries, disk, id, Prepared(id, files, report, env), harm, StoredSize(id, report),
                maxBytes, maxEntries, env)
    }

    /** Inserting does such harm, and the directory loses something by it. */
    ghost predicate Wounds(id: string, files: map<string, Content>, report: Report, env: Env)
      reads this
    {
      exists harm :: Meets(id, files, report, env, harm) && Hurts(disk, harm, env.spares)
    }

    /** Storing does. */
    ghost predicate Breaks(id: string, files: map<string, Content>, report: Report, env: Env)
      reads this
    {
      Writable(id, report) && !Oversized(id, report) && Wounds(id, files, report, env)
    }

    /** Builds the new entry in a staging directory. */
    method Stage(id: string, files: map<string, Content>, report: Report, env: Env)
      returns (r: Result<Stored, CacheError>)
      ensures r.Success? <==>
                && Copyable(hashes, files, report.outputs, limit) && Undisturbed(env, |report.outputs|)
                && !env.fails(Staging) && !env.fails(Recording)
      ensures r.Success? ==>
              r.value == NewEntry(id, files, report, env.written) && TreeSize(r.value) == StoredSize(id, report)
    {
      if env.fails(Staging) {
        return Failure(Io);
      }
      var staged := CopyOutputs(hashes, files, report.outputs, limit, env);
      if staged.Failure? {
        return Failure(staged.error);
      }
      if staged.value.None? {
        return Failure(Verification);
      }
      if env.fails(Recording) {
        return Failure(Io);
      }
      var entry := Entry(1, id, hashes.fingerprint(report), report);
      assert Lengths(map[]) == map[];
      return Success(Stored(Some(MetaFile(hashes.length(entry), Some(entry))), env.written, staged.value.value, map[]));
    }

    /** The directory a successful `Store` leaves. */
    function NewEntry(id: string, files: map<string, Content>, report: Report, written: int): Stored {
      Stored(Some(MetaFile(hashes.length(EntryOf(id, report)), Some(EntryOf(id, report)))), written,
          Copied(files, report.outputs), map[])
    }

    /** Replaces the entry on disk by the staged one and records it. */
    method Place(id: string, size: nat, d: Stored, env: Env) returns (r: Result<(), CacheError>, ghost harm: Harm)
      requires Indexed()
      requires bytes + size <= U64_MAX + (if id in entries then entries[id].size else 0)
      modifies this
      ensures Indexed()
      ensures r.Success? <==> old(Replaced(id, env))
      ensures harm == Mishap(old(disk), id, env)
      ensures r.Success? ==> disk == old(disk)[id := d] && entries == old(entries)[id := Slot(size, env.now)]
      ensures r.Failure? ==>
              r.error == Io && entries == old(entries) && disk == AfterHarm(old(disk), harm, env.spares)
    {
      harm := Mishap(disk, id, env);
      if id in disk {
        var removed := RemoveManaged(id, Replacing, env);
        if !removed {
          return Failure(Io), harm;
        }
      }
      if env.fails(Renaming) {
        return Failure(Io), harm;
      }
      InsertCounts(entries, bytes, id, Slot(size, env.now));
      disk := disk[id := d];
      var replaced := if id in entries then entries[id].size else 0;
      entries := entries[id := Slot(size, env.now)];
      bytes := bytes - replaced + size;
      return Success(()), harm;
    }

    /** Makes room for a resource that may be cached, stages it and puts it in place. */
    method Insert(id: string, files: map<string, Content>, report: Report, env: Env)
      returns (r: Result<(), CacheError>, ghost gone: set<string>, ghost harm: Harm)
      requires Indexed()
      modifies this
      ensures Indexed()
      ensures LruPrefix(old(entries), Some(id), gone)
      ensures NoMoreThanNeeded(old(entries), Some(id), gone, StoredSize(id, report), 1, maxBytes, maxEntries)
      ensures r.Success? <==> old(Prepared(id, files, report, env) && Replaced(id, env))
      ensures r.Success? ==>
                && harm == Unharmed
                && Fits(old(entries), Some(id), gone, StoredSize(id, report), 1, maxBytes, maxEntries)
                && TreeSize(NewEntry(id, files, report, env.written)) == StoredSize(id, report)
                && disk == (old(disk) - gone)[id := NewEntry(id, files, report, env.written)]
                && entries == (old(entries) - gone)[id := Slot(StoredSize(id, report), env.now)]
      ensures r.Failure? ==>
                entries == old(entries) - gone && disk == AfterHarm(old(disk) - gone, harm, env.spares)
      ensures harm != Unharmed ==> harm.id in old(disk) - gone && old(Meets(id, files, report, env, harm))
      ensures old(Wounds(id, files, report, env)) <==> Hurts(old(disk), harm, env.spares)
    {
      var room;
      ghost var made;
      room, gone, made := MakeRoom(Some(id), StoredSize(id, report), 1, env);
      ghost var prepared, size := old(Prepared(id, files, report, env)), StoredSize(id, report);
      harm := if prepared then Mishap(disk, id, env) else made;
      HarmDecided(old(entries), old(disk), id, gone, made, prepared, harm, size, maxBytes, maxEntries, env);
      if room.Failure? {
        return Failure(room.error), gone, harm;
      }
      var staged := Stage(id, files, report, env);
      if staged.Failure? {
        return Failure(staged.error), gone, harm;
      }
      if env.cancelled(Finishing) {
        return Failure(Cancelled), gone, harm;
      }
      ghost var placed;
      r, placed := Place(id, StoredSize(id, report), staged.value, env);
    }

    /** The same, with what it does to agreement and limits. */
    method InsertKeeping(id: string, files: map<string, Content>, report: Report, env: Env)
      returns (r: Result<(), CacheError>, ghost gone: set<string>, ghost harm: Harm)
      requires Indexed()
      modifies this
      ensures Indexed()
      ensures LruPrefix(old(entries), Some(id), gone)
      ensures NoMoreThanNeeded(old(entries), Some(id), gone, StoredSize(id, report), 1, maxBytes, maxEntries)
      ensures r.Success? <==> old(Prepared(id, files, report, env) && Replaced(id, env))
      ensures old(Accounted()) ==> (Accounted() <==> !old(Wounds(id, files, report, env)))
      ensures old(WithinLimits()) ==> WithinLimits()
      ensures r.Success? ==>
                && harm == Unharmed
                && Fits(old(entries), Some(id), gone, StoredSize(id, report), 1, maxBytes, maxEntries)
                && TreeSize(NewEntry(id, files, report, env.written)) == StoredSize(id, report)
                && disk == (old(disk) - gone)[id := NewEntry(id, files, report, env.written)]
                && entries == (old(entries) - gone)[id := Slot(StoredSize(id, report), env.now)]
      ensures r.Failure? ==>
                entries == old(entries) - gone && disk == AfterHarm(old(disk) - gone, harm, env.spares)
      ensures harm != Unharmed ==> old(Meets(id, files, report, env, harm))
      ensures old(Wounds(id, files, report, env)) <==> Hurts(old(disk), harm, env.spares)
    {
      r, gone, harm := Insert(id, files, report, env);
      StoreKeeps(old(entries), old(disk), entries, disk, gone, id, Slot(StoredSize(id, report), env.now),
                 NewEntry(id, files, report, env.written), maxBytes, maxEntries, r.Success?, harm, env.spares);
    }

    /** Storing succeeds. */
    ghost predicate Stores(id: string, files: map<string, Content>, report: Report, env: Env)
      reads this
    {
      Writable(id, report) && (Oversized(id, report) || (Prepared(id, files, report, env) && Replaced(id, env)))
    }

    /**
     Stores a decoded resource, evicting `gone` first. Index and directory go on agreeing unless, and
     only unless, a removal fails after it deleted something, or the old entry was removed and renaming
     the new one into place fails.
     */
    method Store(id: string, files: map<string, Content>, report: Report, env: Env)
      returns (r: Result<(), CacheError>, ghost gone: set<string>, ghost harm: Harm)
      requires Indexed()
      modifies this
      ensures Indexed()
      ensures r.Success? <==> old(Stores(id, files, report, env))
      ensures old(Breaks(id, files, report, env)) <==> Hurts(old(disk), harm, env.spares)
      ensures old(Accounted()) ==> (Accounted() <==> !old(Breaks(id, files, report, env)))
      ensures old(WithinLimits()) ==> WithinLimits()
      ensures LruPrefix(old(entries), Some(id), gone)
      ensures NoMoreThanNeeded(old(entries), Some(id), gone, StoredSize(id, report), 1, maxBytes, maxEntries)
      ensures r.Success? && Oversized(id, report) ==>
              disk == old(disk) && entries == old(entries) && bytes == old(bytes)
      ensures r.Success? && !Oversized(id, report) ==>
                && Fits(old(entries), Some(id), gone, StoredSize(id, report), 1, maxBytes, maxEntries)
                && TreeSize(NewEntry(id, files, report, env.written)) == StoredSize(id, report)
                && disk == (old(disk) - gone)[id := NewEntry(id, files, report, env.written)]
                && entries == (old(entries) - gone)[id := Slot(StoredSize(id, report), env.now)]
      ensures r.Failure? ==>
                entries == old(entries) - gone && disk == AfterHarm(old(disk) - gone, harm, env.spares)
      ensures r.Success? ==> harm == Unharmed
      ensures harm != Unharmed ==> old(Meets(id, files, report, env, harm))
      ensures old(Accounted() && Storable(id, files, report)) && Quiet(env) ==> r.Success?
    {
      if Accounted() && Storable(id, files, report) && Quiet(env) {
        QuietStores(id, files, report, env);
      }
      var length := hashes.length(Entry(1, id, hashes.fingerprint(report), report));
      var size := length + Bytes(report.outputs);
      if length > MAX_REPORT || size > U64_MAX || (maxBytes.Some? && size > maxBytes.value) {
        NoneGone(disk);
        NothingEvicted(entries, Some(id), size, 1, maxBytes, maxEntries);
        return if length > MAX_REPORT || size > U64_MAX then Failure(Size) else Success(()), {}, Unharmed;
      }
      r, gone, harm := InsertKeeping(id, files, report, env);
    }

    /** A decoded report that a quiet store takes: short enough, described by its files, and admitted. */
    ghost predicate Storable(id: string, files: map<string, Content>, report: Report)
      reads this
    {
      && Writable(id, report)
      && (Oversized(id, report) ||
          (&& Copyable(hashes, files, report.outputs, limit) && (maxEntries.Some? ==> maxEntries.value >= 1)
           && Total(Sizes(Without(entries, Some(id)))) + StoredSize(id, report) <= U64_MAX))
    }

    /** When nothing interferes, such a report is stored. */
    lemma QuietStores(id: string, files: map<string, Content>, report: Report, env: Env)
      requires Accounted() && Quiet(env) && Storable(id, files, report)
      ensures Stores(id, files, report, env) && !Breaks(id, files, report, env)
    {
      var size := StoredSize(id, report);
      if !Oversized(id, report) {
        QuietRoom(entries, disk, id, size, maxBytes, maxEntries, env);
      }
      QuietHarmless(entries, disk, id, Prepared(id, files, report, env), size, maxBytes, maxEntries, env);
    }

    // ---- Processing ----------------------------------------------------------------------------

    /** What the decoder gave is stored, or need not be. */
    ghost predicate Keeps(id: string, decoded: Decoded, env: Env)
      reads this
    {
      decoded.report.errors == [] ==> !env.cancelled(Keeping) && Stores(id, decoded.files, decoded.report, env)
    }

    ghost predicate Loses(id: string, decoded: Decoded, env: Env)
      reads this
    {
      decoded.report.errors == [] && !env.cancelled(Keeping) && Breaks(id, decoded.files, decoded.report, env)
    }

    /** Stores what the decoder gave, unless it reports errors; nothing else on disk is rewritten. */
    method Keep(id: string, decoded: Decoded, env: Env) returns (r: Result<(), CacheError>)
      requires Indexed()
      modifies this
      ensures Indexed()
      ensures r.Success? <==> old(Keeps(id, decoded, env))
      ensures old(Loses(id, decoded, env)) ==> r.Failure?
      ensures old(Accounted()) ==> (Accounted() <==> !old(Loses(id, decoded, env)))
      ensures old(WithinLimits()) ==> WithinLimits()
      ensures Rewritten(old(disk), disk, id, decoded.report)
    {
      if decoded.report.errors != [] {
        return Success(());
      }
      if env.cancelled(Keeping) {
        return Failure(Cancelled);
      }
      ghost var gone, harm;
      r, gone, harm := Store(id, decoded.files, decoded.report, env);
      if r.Failure? {
        HarmRewrites(old(disk), gone, harm, env.spares, id, decoded.report);
      } else if !Oversized(id, decoded.report) {
        StoreRewrites(old(disk), gone, id, NewEntry(id, decoded.files, decoded.report, env.written), decoded.report);
      }
    }

    /** Processing answers with a report. */
    ghost predicate Serves(id: string, index: nat, decode: Decoder, env: Env, storeEnv: Env)
      reads this
    {
      && !env.cancelled(Starting)
      && ((Restores(id, env) && !env.fails(Touching)) ||
          (Misses(id, env) && decode(id, index).Success? && Keeps(id, decode(id, index).value, storeEnv)))
    }

    /** A directory is published, by restoring or by decoding, and the call fails all the same. */
    ghost predicate Abandons(id: string, index: nat, decode: Decoder, env: Env, storeEnv: Env)
      reads this
    {
      && !env.cancelled(Starting)
      && ((Restores(id, env) && env.fails(Touching)) ||
          (Misses(id, env) && decode(id, index).Success? && !Keeps(id, decode(id, index).value, storeEnv)))
    }

    /** Processing comes to storing, and storing breaks agreement. */
    ghost predicate Spoils(id: string, index: nat, decode: Decoder, env: Env, storeEnv: Env)
      reads this
    {
      && !env.cancelled(Starting) && Misses(id, env)
      && decode(id, index).Success? && Loses(id, decode(id, index).value, storeEnv)
    }

    /**
     The cached result of one resource, or the decoder's, which is then stored unless it failed.
     `published` tells whether the directory of the resource is there afterwards.
     */
    method Process(id: string, index: nat, decode: Decoder, env: Env, storeEnv: Env)
      returns (r: Result<Decoded, CacheError>, published: bool)
      requires Indexed()
      modifies this
      ensures Indexed()
      ensures Injective(hashes) && Deterministic(hashes, decode) && old(Unforged(hashes, decode, disk)) ==>
                && Unforged(hashes, decode, disk)
                && (r.Success? ==> Stems(decode, id, index, r.value.report))
                && (r.Success? && decode(id, index).Success? ==> Transparent(r.value, decode(id, index).value))
      // Only reports without errors are ever stored.
      ensures forall x | x in disk ::
                (x in old(disk) && Aged(old(disk)[x], disk[x])) || (x == id && HoldsSuccess(disk[x]))
      ensures r.Success? <==> old(Serves(id, index, decode, env, storeEnv))
      ensures r.Success? ==> (published <==> r.value.report.errors == [])
      ensures r.Failure? && published <==> old(Abandons(id, index, decode, env, storeEnv))
      ensures old(Accounted()) ==> (Accounted() <==> !old(Spoils(id, index, decode, env, storeEnv)))
      ensures old(WithinLimits()) ==> WithinLimits()
      ensures old(Accounted() && Servable(id, index, decode)) && Quiet(env) && Quiet(storeEnv) ==> r.Success?
    {
      if Accounted() && Servable(id, index, decode) && Quiet(env) && Quiet(storeEnv) {
        QuietServes(id, index, decode, env, storeEnv);
      }
      if env.cancelled(Starting) {
        return Failure(Cancelled), false;
      }
      var reused;
      reused, published := Reuse(id, index, decode, env);
      if reused.Failure? {
        return Failure(reused.error), published;
      }
      if reused.value.Some? {
        return Success(reused.value.value), published;
      }
      r, published := Decode(id, index, decode, storeEnv);
    }

    /** Processing as far as an entry that is there: what it answers is what decoding gives. */
    method Reuse(id: string, index: nat, decode: Decoder, env: Env)
      returns (r: Result<Option<Decoded>, CacheError>, published: bool)
      modifies this
      ensures (old(Indexed()) ==> Indexed()) && (old(Accounted()) ==> Accounted()) &&
              (old(WithinLimits()) ==> WithinLimits())
      ensures r == Success(None) <==> old(Misses(id, env))
      ensures published <==> old(Restores(id, env))
      ensures published ==> r != Success(None)
      ensures (r.Success? && r.value.Some?) <==> published && !env.fails(Touching)
      ensures r.Failure? || r.value.None? ==> unchanged(this)
      ensures r.Success? && r.value.Some? ==> r.value.value.report.errors == []
      ensures forall x | x in disk :: x in old(disk) && disk[x].meta == old(disk)[x].meta
      ensures old(Unforged(hashes, decode, disk)) ==> Unforged(hashes, decode, disk)
      ensures old(Unforged(hashes, decode, disk)) && r.Success? && r.value.Some? ==>
                && Stems(decode, id, index, r.value.value.report)
                && (Injective(hashes) && Deterministic(hashes, decode) && decode(id, index).Success? ==>
                      Transparent(r.value.value, decode(id, index).value))
    {
      r, published := Restore(id, FiveDigits(index), env);
      if r.Success? && r.value.Some? && old(Unforged(hashes, decode, disk)) {
        ghost var report := old(disk)[id].meta.value.parsed.value.report;
        RestoredAnswer(hashes, decode, id, index, report, old(disk)[id].data, limit, r.value.value);
      }
    }

    /** Processing when there is no entry to restore. */
    method Decode(id: string, index: nat, decode: Decoder, env: Env)
      returns (r: Result<Decoded, CacheError>, published: bool)
      requires Indexed()
      modifies this
      ensures Indexed()
      ensures r.Success? ==> r == decode(id, index) && Stems(decode, id, index, r.value.report)
      ensures Injective(hashes) && Deterministic(hashes, decode) && r.Success? ==>
                Transparent(r.value, decode(id, index).value)
      ensures old(Unforged(hashes, decode, disk)) ==> Unforged(hashes, decode, disk)
      ensures forall x | x in disk ::
                (x in old(disk) && Aged(old(disk)[x], disk[x])) || (x == id && HoldsSuccess(disk[x]))
      ensures r.Success? <==> decode(id, index).Success? && old(Keeps(id, decode(id, index).value, env))
      ensures r.Success? ==> (published <==> r.value.report.errors == [])
      ensures r.Failure? && published <==> decode(id, index).Success? && !old(Keeps(id, decode(id, index).value, env))
      ensures old(Accounted()) ==>
              (Accounted() <==> !(decode(id, index).Success? && old(Loses(id, decode(id, index).value, env))))
      ensures old(WithinLimits()) ==> WithinLimits()
    {
      var decoded := decode(id, index);
      if decoded.Failure? {
        return Failure(decoded.error), false;
      }
      assert StemsFrom(decode, id, index, index, decoded.value.report);
      published := decoded.value.report.errors == [];
      var kept := Keep(id, decoded.value, env);
      StillUnforged(hashes, decode, old(disk), disk, id, index);
      return if kept.Failure? then Failure(kept.error) else decoded, published;
    }

    /** Decoding succeeds, with failures or with something storable; an entry there has sizes in 64 bits. */
    ghost predicate Servable(id: string, index: nat, decode: Decoder)
      reads this
    {
      && decode(id, index).Success?
      && (var decoded := decode(id, index).value;
          decoded.report.errors == [] ==> Storable(id, decoded.files, decoded.report))
      && (Legible(id) ==> Bytes(disk[id].meta.value.parsed.value.report.outputs) <= U64_MAX)
    }

    /** When nothing interferes, such a resource is answered. */
    lemma QuietServes(id: string, index: nat, decode: Decoder, env: Env, storeEnv: Env)
      requires Accounted() && Quiet(env) && Quiet(storeEnv) && Servable(id, index, decode)
      ensures Serves(id, index, decode, env, storeEnv) && !Abandons(id, index, decode, env, storeEnv)
    {
      var decoded := decode(id, index).value;
      if decoded.report.errors == [] {
        QuietStores(id, decoded.files, decoded.report, storeEnv);
      }
      if Legible(id) {
        CopyExact(hashes, disk[id].data, disk[id].meta.value.parsed.value.report.outputs, limit, env);
      }
    }
  }

  /** The same metadata, or what a failing removal left of an entry without it. */
  predicate Aged(before: Stored, after: Stored) {
    after.meta == before.meta || after.meta.None?
  }

  /** A report under number `index` that the decoder gave for this identity, perhaps under another number. */
  ghost predicate Stems(decode: Decoder, id: string, index: nat, report: Report) {
    exists i :: StemsFrom(decode, id, i, index, report)
  }

  ghost predicate StemsFrom(decode: Decoder, id: string, i: nat, index: nat, report: Report) {
    && decode(id, i).Success?
    && var given := decode(id, i).value.report;
    (report == given && i == index) ||
    (report == given.(directory := FiveDigits(index), cacheHit := true) && given.errors == [])
  }

  /** A restored answer is one the decoder gave, and what it gives for this number. */
  lemma RestoredAnswer(h: Hashes, decode: Decoder, id: string, index: nat, report: Report, data: map<string, Content>,
                       limit: nat, answer: Decoded)
    requires Genuine(decode, id, report) && report.errors == [] && Copyable(h, data, report.outputs, limit)
    requires answer == Decoded(report.(directory := FiveDigits(index), cacheHit := true), Copied(data, report.outputs))
    ensures Stems(decode, id, index, answer.report)
    ensures Injective(h) && Deterministic(h, decode) && decode(id, index).Success? ==>
            Transparent(answer, decode(id, index).value)
  {
    var i :| decode(id, i).Success? && decode(id, i).value.report == report;
    assert StemsFrom(decode, id, i, index, answer.report);
    if Injective(h) && Deterministic(h, decode) && decode(id, index).Success? {
      RestoredIsDecoded(h, decode, id, index, report, data, limit);
    }
  }

  /** Every entry is the old one or a part of it, or holds `report`, which then has no errors. */
  ghost predicate Rewritten(before: map<string, Stored>, after: map<string, Stored>, id: string, report: Report) {
    forall x | x in after ::
      || (x in before && Aged(before[x], after[x]))
      || (x == id && HoldsSuccess(after[x]) && after[x].meta.value.parsed.value.report == report)
  }

  lemma HarmRewrites(before: map<string, Stored>, gone: set<string>, harm: Harm, spares: Part -> bool,
                     id: string, report: Report)
    ensures Rewritten(before, AfterHarm(before - gone, harm, spares), id, report)
  {
    var left := before - gone;
    var after := AfterHarm(left, harm, spares);
    forall x | x in after ensures x in before && Aged(before[x], after[x]) {
      assert x in left;
    }
  }

  lemma StoreRewrites(before: map<string, Stored>, gone: set<string>, id: string, d: Stored, report: Report)
    requires HoldsSuccess(d) && d.meta.value.parsed.value.report == report
    ensures Rewritten(before, (before - gone)[id := d], id, report)
  {
  }

  lemma StillUnforged(h: Hashes, decode: Decoder, before: map<string, Stored>, after: map<string, Stored>,
                      id: string, index: nat)
    requires decode(id, index).Success? && Rewritten(before, after, id, decode(id, index).value.report)
    ensures Unforged(h, decode, before) ==> Unforged(h, decode, after)
    ensures forall x | x in after :: (x in before && Aged(before[x], after[x])) || (x == id && HoldsSuccess(after[x]))
  {
    assert Genuine(decode, id, decode(id, index).value.report);
  }

  /** The same outputs as decoding, up to the directory number and the cache flag. */
  predicate Transparent(got: Decoded, decoded: Decoded) {
    SameReport(got.report, decoded.report) && got.files == decoded.files
  }

  predicate HoldsSuccess(d: Stored) {
    d.meta.Some? && d.meta.value.parsed.Some? && d.meta.value.parsed.value.report.errors == []
  }

  /** Touching an entry leaves every total as it was. */
  lemma SizesKept(before: map<string, Slot>, after: map<string, Slot>)
    requires before.Keys == after.Keys && forall x | x in after :: after[x].size == before[x].size
    ensures Sizes(before) == Sizes(after)
  {
    assert Sizes(before).Keys == Sizes(after).Keys;
  }

  lemma FewerFit(all: map<string, Slot>, gone: set<string>)
    ensures Total(Sizes(all - gone)) <= Total(Sizes(all)) && |all - gone| <= |all|
  {
    TotalShrinks(Sizes(all), gone);
    assert Sizes(all) - gone == Sizes(all - gone);
    assert (all - gone).Keys == all.Keys - gone;
    assert |(all - gone).Keys| == |all - gone| && |all.Keys| == |all|;
  }

  /** What a store does to agreement and limits, whichever way it ends. */
  lemma StoreKeeps(all: map<string, Slot>, files: map<string, Stored>, entries: map<string, Slot>,
                   disk: map<string, Stored>, gone: set<string>, id: string, slot: Slot, d: Stored,
                   maxBytes: Option<nat>, maxEntries: Option<nat>, stored: bool, harm: Harm, spares: Part -> bool)
    requires stored ==>
               && Fits(all, Some(id), gone, slot.size, 1, maxBytes, maxEntries)
               && TreeSize(d) == slot.size && harm == Unharmed
               && entries == (all - gone)[id := slot] && disk == (files - gone)[id := d]
    requires !stored ==> entries == all - gone && disk == AfterHarm(files - gone, harm, spares)
    requires harm != Unharmed ==> harm.id in files - gone
    ensures Mirrors(all, files) ==> (Mirrors(entries, disk) <==> !Hurts(files, harm, spares))
    ensures Limited(all, maxBytes, maxEntries) ==> Limited(entries, maxBytes, maxEntries)
  {
    if Mirrors(all, files) {
      MirrorsMinus(all, files, gone);
      HarmMirrors(all - gone, files - gone, harm, spares);
      if stored {
        MirrorsMinus(all - gone, files - gone, {id});
        InsertMirrors(all - gone, files - gone, id, slot, d);
      }
    }
    if stored {
      FitsInserted(all, gone, id, slot, maxBytes, maxEntries);
    } else {
      FewerFit(all, gone);
    }
  }
}
