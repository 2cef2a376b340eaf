/** What the decoded-resource cache stores, and when an eviction or a restored entry is right. */
module CacheModel {
  import opened Wrappers
  import opened MapTotals
  import opened Paths
  import opened Reports
  import opened Seqs

  type Content = seq<bv8>

  datatype Entry = Entry(schema: nat, identity: string, reportSha256: string, report: Report)

  /** `entry.json`: its length, and what it parses to, if it does. */
  datatype MetaFile = MetaFile(size: nat, parsed: Option<Entry>)

  /** One entry directory: `entry.json` and its time, the files below `data`, and anything else. */
  datatype Stored = Stored(meta: Option<MetaFile>, modified: int, data: map<string, Content>,
      strays: map<string, Content>)

  datatype Slot = Slot(size: nat, time: int)

  /** SHA-256 of contents and of serialized reports, and the serialized length of an entry. */
  datatype Hashes = Hashes(sha: Content -> string, fingerprint: Report -> string, length: Entry -> nat)

  datatype CacheError = Cancelled | Size | Io | Verification

  const U64_MAX: nat := 0xFFFF_FFFF_FFFF_FFFF
  type U64 = n: nat | n <= U64_MAX

  const MAX_REPORT: nat := 16 * 1024 * 1024
  const UNIX_EPOCH: int := 0

  predicate HexDigit(c: char) {
    '0' <= c <= '9' || 'a' <= c <= 'f' || 'A' <= c <= 'F'
  }

  predicate Digest(s: string) {
    |s| == 64 && forall c | c in s :: HexDigit(c)
  }

  // ---- Sizes on disk ---------------------------------------------------------------------------

  function Sizes(entries: map<string, Slot>): map<string, nat> {
    map id | id in entries :: entries[id].size
  }

  function Lengths(files: map<string, Content>): map<string, nat> {
    map p | p in files :: |files[p]|
  }

  /** The bytes of all files of an entry directory. */
  ghost function TreeSize(d: Stored): nat {
    (if d.meta.Some? then d.meta.value.size else 0) + Total(Lengths(d.data)) + Total(Lengths(d.strays))
  }

  /** The files of an entry directory. */
  datatype Part = Meta | Datum(path: string) | Stray(path: string)

  /** What a removal leaves that failed on the way: the directory and the files that it did not get to. */
  function Spared(d: Stored, spares: Part -> bool): Stored {
    Stored(if spares(Meta) then d.meta else None, d.modified,
           map p | p in d.data && spares(Datum(p)) :: d.data[p],
           map p | p in d.strays && spares(Stray(p)) :: d.strays[p])
  }

  /** No file with anything in it was deleted. */
  predicate Untouched(d: Stored, spares: Part -> bool) {
    && (d.meta.Some? && d.meta.value.size > 0 ==> spares(Meta))
    && (forall p | p in d.data && d.data[p] != [] :: spares(Datum(p)))
    && (forall p | p in d.strays && d.strays[p] != [] :: spares(Stray(p)))
  }

  lemma FilesLeft(files: map<string, Content>, left: map<string, Content>)
    requires left.Keys <= files.Keys && forall p | p in left :: left[p] == files[p]
    ensures Total(Lengths(left)) <= Total(Lengths(files))
    ensures Total(Lengths(left)) == Total(Lengths(files)) <==> forall p | p in files && files[p] != [] :: p in left
  {
    var gone := files.Keys - left.Keys;
    TotalShrinks(Lengths(files), gone);
    TotalKept(Lengths(files), gone);
    assert Lengths(files) - gone == Lengths(left);
    assert forall p | p in gone :: p in files && Lengths(files)[p] == |files[p]|;
    assert forall p | p in files :: p in gone <==> p !in left;
  }

  /** The size shrinks exactly when something was deleted. */
  lemma SparedSize(d: Stored, spares: Part -> bool)
    ensures TreeSize(Spared(d, spares)) <= TreeSize(d)
    ensures TreeSize(Spared(d, spares)) == TreeSize(d) <==> Untouched(d, spares)
  {
    FilesLeft(d.data, Spared(d, spares).data);
    FilesLeft(d.strays, Spared(d, spares).strays);
  }

  /** The time an entry directory is ordered by. */
  function Accessed(d: Stored): int {
    if d.meta.Some? then d.modified else UNIX_EPOCH
  }

  /** The byte counter is the sum over the index. */
  ghost predicate Counted(entries: map<string, Slot>, bytes: nat) {
    bytes == Total(Sizes(entries))
  }

  /** Index and directory agree, entry by entry. */
  ghost predicate Mirrors(entries: map<string, Slot>, disk: map<string, Stored>) {
    entries.Keys == disk.Keys && forall id | id in entries :: entries[id].size == TreeSize(disk[id])
  }

  lemma EvictCounts(entries: map<string, Slot>, bytes: nat, id: string)
    requires Counted(entries, bytes) && id in entries
    ensures bytes >= entries[id].size && Counted(entries - {id}, bytes - entries[id].size)
  {
    TotalRemove(Sizes(entries), id);
    assert Sizes(entries - {id}) == Sizes(entries) - {id};
  }

  lemma MirrorsMinus(entries: map<string, Slot>, disk: map<string, Stored>, gone: set<string>)
    requires Mirrors(entries, disk)
    ensures Mirrors(entries - gone, disk - gone)
  {
    assert (entries - gone).Keys == entries.Keys - gone && (disk - gone).Keys == disk.Keys - gone;
  }

  /** Replacing or adding one entry keeps the counter, and agreement when the directory follows. */
  lemma InsertCounts(entries: map<string, Slot>, bytes: nat, id: string, slot: Slot)
    requires Counted(entries, bytes)
    ensures var replaced := if id in entries then entries[id].size else 0;
            replaced <= bytes && Counted(entries[id := slot], bytes - replaced + slot.size)
  {
    TotalAdd(Sizes(entries), id, slot.size);
    assert Sizes(entries[id := slot]) == Sizes(entries)[id := slot.size];
    if id in entries {
      TotalRemove(Sizes(entries), id);
    }
  }

  lemma InsertMirrors(entries: map<string, Slot>, disk: map<string, Stored>, id: string, slot: Slot, d: Stored)
    requires Mirrors(entries - {id}, disk - {id}) && slot.size == TreeSize(d)
    ensures Mirrors(entries[id := slot], disk[id := d])
  {
    var e, f := entries[id := slot], disk[id := d];
    assert e.Keys == (entries - {id}).Keys + {id} && f.Keys == (disk - {id}).Keys + {id};
    forall x | x in e ensures e[x].size == TreeSize(f[x]) {
      assert x == id || x in entries - {id};
    }
  }

  lemma MinusTwice<V>(m: map<string, V>, gone: set<string>, x: string)
    ensures m - gone - {x} == m - (gone + {x})
    ensures x in m - gone ==> |m - gone - {x}| < |m - gone|
  {
    var rest := m - gone;
    if x in rest {
      assert rest.Keys == (rest - {x}).Keys + {x};
      assert |rest.Keys| == |rest| && |(rest - {x}).Keys| == |rest - {x}|;
    }
  }

  // ---- Eviction --------------------------------------------------------------------------------

  /** Least recently used first, equal times by id. */
  predicate Before(entries: map<string, Slot>, a: string, b: string)
    requires a in entries && b in entries
  {
    a != b && (entries[a].time < entries[b].time || (entries[a].time == entries[b].time && StringLeq(a, b)))
  }

  lemma BeforeOrders(entries: map<string, Slot>, a: string, b: string, c: string)
    requires a in entries && b in entries && c in entries
    ensures a == b || Before(entries, a, b) || Before(entries, b, a)
    ensures !(Before(entries, a, b) && Before(entries, b, a))
    ensures Before(entries, a, b) && Before(entries, b, c) ==> Before(entries, a, c)
  {
    StringOrder(a, b, c);
    StringOrder(b, a, b);
    StringOrder(a, c, a);
    StringOrder(c, b, c);
  }

  /** `gone` is a prefix of the other entries in eviction order. */
  ghost predicate LruPrefix(entries: map<string, Slot>, keep: Option<string>, gone: set<string>) {
    && gone <= entries.Keys
    && (keep.Some? ==> keep.value !in gone)
    && forall r, k | r in gone && k in entries && k !in gone && keep != Some(k) :: Before(entries, r, k)
  }

  function Without(entries: map<string, Slot>, keep: Option<string>): map<string, Slot> {
    if keep.Some? then entries - {keep.value} else entries
  }

  /** With `gone` evicted and the replaced entry discounted, the new bytes and count fit. */
  ghost predicate Fits(entries: map<string, Slot>, keep: Option<string>, gone: set<string>,
                       size: nat, count: nat, maxBytes: Option<nat>, maxEntries: Option<nat>) {
    var left := Without(entries - gone, keep);
    && (maxBytes.Some? ==> Total(Sizes(left)) + size <= maxBytes.value)
    && (maxEntries.Some? ==> |left| + count <= maxEntries.value)
  }

  /** `gone` is inside every eviction prefix that makes room: the shortest such prefix. */
  ghost predicate NoMoreThanNeeded(entries: map<string, Slot>, keep: Option<string>, gone: set<string>,
                                   size: nat, count: nat, maxBytes: Option<nat>, maxEntries: Option<nat>) {
    forall p: set<string> | LruPrefix(entries, keep, p) && Fits(entries, keep, p, size, count, maxBytes, maxEntries) ::
      gone <= p
  }

  /** The oldest entry left extends the prefix, and every sufficient prefix contains it. */
  lemma EvictOldest(entries: map<string, Slot>, keep: Option<string>, gone: set<string>, x: string,
                    size: nat, count: nat, maxBytes: Option<nat>, maxEntries: Option<nat>)
    requires LruPrefix(entries, keep, gone) && !Fits(entries, keep, gone, size, count, maxBytes, maxEntries)
    requires NoMoreThanNeeded(entries, keep, gone, size, count, maxBytes, maxEntries)
    requires x in entries && x !in gone && keep != Some(x)
    requires forall k | k in entries && k !in gone && k != x && keep != Some(k) :: Before(entries, x, k)
    ensures LruPrefix(entries, keep, gone + {x})
    ensures NoMoreThanNeeded(entries, keep, gone + {x}, size, count, maxBytes, maxEntries)
  {
    forall p: set<string> | LruPrefix(entries, keep, p) && Fits(entries, keep, p, size, count, maxBytes, maxEntries)
      ensures gone + {x} <= p
    {
      assert gone <= p && p != gone;
      var y :| y in p && y !in gone;
      if x !in p {
        BeforeOrders(entries, x, y, x);
      }
    }
  }

  /** When all other entries are evicted, anything the limits admit at all fits. */
  lemma AllGoneFits(entries: map<string, Slot>, keep: Option<string>, gone: set<string>,
                    size: nat, count: nat, maxBytes: Option<nat>, maxEntries: Option<nat>)
    requires forall k | k in entries && keep != Some(k) :: k in gone
    requires maxBytes.Some? ==> size <= maxBytes.value
    requires maxEntries.Some? ==> count <= maxEntries.value
    ensures Fits(entries, keep, gone, size, count, maxBytes, maxEntries)
  {
    assert Without(entries - gone, keep) == map[];
  }

  // ---- Copying outputs -------------------------------------------------------------------------

  predicate SafePath(path: string) {
    (forall c | c in path :: c != '\\' && c != ':' && c != '\0') && forall part | part in Split(path) :: SafePart(part)
  }

  /** An output record that matches a file of the source tree. */
  predicate Intact(h: Hashes, files: map<string, Content>, item: Output) {
    && SafePath(item.path) && Digest(item.sha256)
    && item.path in files && |files[item.path]| == item.bytes && h.sha(files[item.path]) == item.sha256
  }

  predicate Unlisted(outputs: seq<Output>, path: string) {
    forall k | 0 <= k < |outputs| :: outputs[k].path != path
  }

  /** Everything `copy_outputs` checks: each record intact, no path twice, the total within the limit. */
  predicate Copyable(h: Hashes, files: map<string, Content>, outputs: seq<Output>, limit: nat) {
    if outputs == [] then true
    else
      var init, last := outputs[..|outputs| - 1], outputs[|outputs| - 1];
      Copyable(h, files, init, limit) && Intact(h, files, last) && Unlisted(init, last.path) && Bytes(outputs) <= limit
  }

  /** The files a successful copy creates. */
  function Copied(files: map<string, Content>, outputs: seq<Output>): map<string, Content> {
    if outputs == [] then map[]
    else
      var init, last := outputs[..|outputs| - 1], outputs[|outputs| - 1];
      if last.path in files then Copied(files, init)[last.path := files[last.path]] else Copied(files, init)
  }

  lemma {:induction false} CopiedMembers(h: Hashes, files: map<string, Content>, outputs: seq<Output>, limit: nat)
    requires Copyable(h, files, outputs, limit)
    ensures forall k | 0 <= k < |outputs| :: Intact(h, files, outputs[k]) && outputs[k].path in Copied(files, outputs)
    ensures forall p | p in Copied(files, outputs) ::
            p in files && Copied(files, outputs)[p] == files[p] && !Unlisted(outputs, p)
    ensures Total(Lengths(Copied(files, outputs))) == Bytes(outputs)
  {
    if outputs == [] {
      assert Lengths(Copied(files, outputs)) == map[];
    } else {
      var init, last := outputs[..|outputs| - 1], outputs[|outputs| - 1];
      CopiedMembers(h, files, init, limit);
      var before := Copied(files, init);
      assert last.path !in before;
      TotalAdd(Lengths(before), last.path, last.bytes);
      assert Lengths(Copied(files, outputs)) == Lengths(before)[last.path := last.bytes];
      assert forall k | 0 <= k < |init| :: init[k] == outputs[k];
      assert forall p :: !Unlisted(init, p) ==> !Unlisted(outputs, p);
    }
  }

  // ---- Transparency ----------------------------------------------------------------------------

  /** What decoding yields: the report and the files it left in its output directory. */
  datatype Decoded = Decoded(report: Report, files: map<string, Content>)

  type Decoder = (string, nat) -> Result<Decoded, CacheError>

  ghost predicate Injective(h: Hashes) {
    && (forall a: Content, b: Content :: h.sha(a) == h.sha(b) ==> a == b)
    && (forall a: Report, b: Report :: h.fingerprint(a) == h.fingerprint(b) ==> a == b)
  }

  /** Two reports that differ at most in the directory number and the cache flag. */
  predicate SameReport(a: Report, b: Report) {
    a.(cacheHit := false, directory := "") == b.(cacheHit := false, directory := "")
  }

  /** The decoder's result is determined by the identity, and its records describe its files. */
  ghost predicate Deterministic(h: Hashes, decode: Decoder) {
    && (forall id, i, j :: decode(id, i).Success? && decode(id, j).Success? ==>
          SameReport(decode(id, i).value.report, decode(id, j).value.report) &&
          decode(id, i).value.files == decode(id, j).value.files)
    && (forall id, i :: decode(id, i).Success? ==> Describes(h, decode(id, i).value))
  }

  predicate Describes(h: Hashes, d: Decoded) {
    && !d.report.cacheHit
    && (forall p | p in d.files :: exists k | 0 <= k < |d.report.outputs| :: d.report.outputs[k].path == p)
    && (forall k | 0 <= k < |d.report.outputs| ::
          d.report.outputs[k].path in d.files && h.sha(d.files[d.report.outputs[k].path]) == d.report.outputs[k].sha256)
  }

  /** The entry passes every check `restore` makes on `entry.json`. */
  predicate Accepted(h: Hashes, id: string, e: Entry) {
    e.schema == 1 && e.identity == id && e.report.errors == [] && e.reportSha256 == h.fingerprint(e.report)
  }

  /** The report is one the decoder gave for this identity. */
  ghost predicate Genuine(decode: Decoder, id: string, report: Report) {
    exists i :: decode(id, i).Success? && decode(id, i).value.report == report
  }

  /**
   Entries may be damaged in any way, but no one made up a report and a matching fingerprint: an
   entry that is accepted carries a report the decoder gave.
   */
  ghost predicate Unforged(h: Hashes, decode: Decoder, disk: map<string, Stored>) {
    forall id | id in disk && disk[id].meta.Some? && disk[id].meta.value.parsed.Some? ::
      Accepted(h, id, disk[id].meta.value.parsed.value) ==> Genuine(decode, id, disk[id].meta.value.parsed.value.report)
  }

  /** Files that match the decoder's records by hash are the decoder's files. */
  lemma CopiesMatch(h: Hashes, data: map<string, Content>, got: Decoded, limit: nat)
    requires Injective(h) && Describes(h, got) && Copyable(h, data, got.report.outputs, limit)
    ensures Copied(data, got.report.outputs) == got.files
  {
    var outputs := got.report.outputs;
    var copied := Copied(data, outputs);
    CopiedMembers(h, data, outputs, limit);
    forall p | p in copied ensures p in got.files && copied[p] == got.files[p] {
      var k :| 0 <= k < |outputs| && outputs[k].path == p;
      assert Intact(h, data, outputs[k]);
    }
    assert copied.Keys == got.files.Keys;
  }

  /** A restored entry has exactly the decoder's files, whatever happened to the directory. */
  lemma RestoredIsDecoded(h: Hashes, decode: Decoder, id: string, index: nat, report: Report,
                          data: map<string, Content>, limit: nat)
    requires Injective(h) && Deterministic(h, decode) && Genuine(decode, id, report)
    requires Copyable(h, data, report.outputs, limit) && decode(id, index).Success?
    ensures SameReport(report, decode(id, index).value.report)
    ensures Copied(data, report.outputs) == decode(id, index).value.files
  {
    var i :| decode(id, i).Success? && decode(id, i).value.report == report;
    CopiesMatch(h, data, decode(id, i).value, limit);
  }
}
