/** PCM WAVE files: the checks on a decoded file, and the samples that later comparisons rely on. */
module Wav {
  import opened Wrappers
  import opened Seqs
  import opened CatalogReader

  type Bytes = seq<Byte>

  const RIFF: Bytes := [0x52, 0x49, 0x46, 0x46]
  const WAVE: Bytes := [0x57, 0x41, 0x56, 0x45]
  const FMT: Bytes := [0x66, 0x6D, 0x74, 0x20]
  const DATA: Bytes := [0x64, 0x61, 0x74, 0x61]

  function Little2(s: Bytes, at: nat): nat
    requires at + 2 <= |s|
  {
    s[at] as int + 0x100 * (s[at + 1] as int)
  }

  function Little4(s: Bytes, at: nat): nat
    requires at + 4 <= |s|
  {
    Little2(s, at) + 0x1_0000 * Little2(s, at + 2)
  }

  // ---- The chunks of a file --------------------------------------------------------------------

  function SizeAt(s: Bytes, p: nat): nat
    requires p + 8 <= |s|
  {
    Little4(s, p + 4)
  }

  /** Where the next chunk starts: chunks are padded to even sizes. */
  function Next(s: Bytes, p: nat): nat
    requires p + 8 <= |s|
  {
    p + 8 + SizeAt(s, p) + SizeAt(s, p) % 2
  }

  /** A whole chunk starts at `p`. */
  predicate Inside(s: Bytes, p: nat) {
    p + 8 <= |s| && p + 8 + SizeAt(s, p) <= |s|
  }

  /** The starts of the chunks from `p` on, if they fill the file exactly. */
  function Starts(s: Bytes, p: nat): Option<seq<nat>>
    decreases |s| - p
  {
    if p + 8 > |s| then if p == |s| then Some([]) else None
    else if !Inside(s, p) then None
    else Prepend([p], Starts(s, Next(s, p)))
  }

  function Prepend(done: seq<nat>, rest: Option<seq<nat>>): Option<seq<nat>> {
    match rest
    case Some(starts) => Some(done + starts)
    case None => None
  }

  ghost predicate Remaining(s: Bytes, done: seq<nat>, p: nat) {
    Starts(s, 12) == Prepend(done, Starts(s, p))
  }

  lemma RemainingStep(s: Bytes, done: seq<nat>, p: nat)
    requires Remaining(s, done, p)
    ensures p + 8 <= |s| && !Inside(s, p) ==> Starts(s, 12).None?
    ensures Inside(s, p) ==> Remaining(s, done + [p], Next(s, p))
    ensures p + 8 > |s| ==> Starts(s, 12) == if p == |s| then Some(done) else None
  {
    if Inside(s, p) {
      var rest := Starts(s, Next(s, p));
      if rest.Some? {
        assert done + ([p] + rest.value) == done + [p] + rest.value;
      }
    } else {
      assert done + [] == done;
    }
  }

  predicate HasTag(s: Bytes, p: nat, tag: Bytes) {
    p + 4 <= |s| && s[p..p + 4] == tag
  }

  function Tagged(s: Bytes, tag: Bytes): nat -> bool {
    (p: nat) => HasTag(s, p, tag)
  }

  // ---- The format chunk ------------------------------------------------------------------------

  function Channels(s: Bytes, p: nat): nat {
    if p + 24 <= |s| then Little2(s, p + 10) else 0
  }

  function Rate(s: Bytes, p: nat): nat {
    if p + 24 <= |s| then Little4(s, p + 12) else 0
  }

  function Block(s: Bytes, p: nat): nat {
    if p + 24 <= |s| then Little2(s, p + 20) else 0
  }

  /** 16-bit PCM with coherent channel count, frame size and byte rate. */
  predicate GoodFormat(s: Bytes, p: nat) {
    && p + 24 <= |s| && SizeAt(s, p) >= 16
    && Little2(s, p + 8) == 1
    && 1 <= Channels(s, p) <= 16
    && Rate(s, p) != 0
    && Little2(s, p + 22) == 16
    && Block(s, p) == Channels(s, p) * 2
    && Little4(s, p + 16) == Rate(s, p) * Block(s, p)
  }

  ghost predicate AllGood(s: Bytes, formats: seq<nat>) {
    forall i | 0 <= i < |formats| :: GoodFormat(s, formats[i])
  }

  predicate Riff(s: Bytes) {
    |s| >= 44 && s[..4] == RIFF && s[8..12] == WAVE && Little4(s, 4) + 8 == |s|
  }

  /** What the chunks of an accepted file are: formats that are all good, one data chunk of whole frames. */
  ghost predicate GoodChunks(s: Bytes, starts: seq<nat>) {
    var formats, data := Filter(starts, Tagged(s, FMT)), Filter(starts, Tagged(s, DATA));
    && AllGood(s, formats) && formats != [] && |data| == 1
    && Inside(s, data[0]) && SizeAt(s, data[0]) > 0
    && SizeAt(s, data[0]) % Block(s, formats[|formats| - 1]) == 0
  }

  ghost predicate ValidWav(s: Bytes) {
    Riff(s) && Starts(s, 12).Some? && GoodChunks(s, Starts(s, 12).value)
  }

  /** The format and data chunks among the chunks read so far. */
  ghost predicate Sorted(s: Bytes, done: seq<nat>, formats: seq<nat>, datas: seq<nat>) {
    formats == Filter(done, Tagged(s, FMT)) && datas == Filter(done, Tagged(s, DATA))
  }

  function Plus(list: seq<nat>, p: nat, add: bool): seq<nat> {
    if add then list + [p] else list
  }

  lemma SortedMore(s: Bytes, done: seq<nat>, formats: seq<nat>, datas: seq<nat>, p: nat)
    requires Sorted(s, done, formats, datas)
    ensures Sorted(s, done + [p], Plus(formats, p, HasTag(s, p, FMT)), Plus(datas, p, HasTag(s, p, DATA)))
    ensures !(HasTag(s, p, FMT) && HasTag(s, p, DATA))
  {
    assert (done + [p])[..|done|] == done;
    assert formats + [] == formats && datas + [] == datas;
    TagsDiffer(s, p);
  }

  lemma TagsDiffer(s: Bytes, p: nat)
    ensures !(HasTag(s, p, FMT) && HasTag(s, p, DATA))
  {
    assert FMT[0] != DATA[0];
  }

  /** The chunks still to come only add to what was read. */
  lemma SortedFinal(s: Bytes, done: seq<nat>, formats: seq<nat>, datas: seq<nat>, p: nat)
    requires Sorted(s, done, formats, datas) && Remaining(s, done, p) && Starts(s, 12).Some?
    ensures formats <= Filter(Starts(s, 12).value, Tagged(s, FMT))
    ensures datas <= Filter(Starts(s, 12).value, Tagged(s, DATA))
  {
    var rest := Starts(s, p).value;
    FilterAppend(done, rest, Tagged(s, FMT));
    FilterAppend(done, rest, Tagged(s, DATA));
  }

  /** The frame size of the last format and the size of the data, as the checks keep them. */
  ghost predicate Seen(s: Bytes, formats: seq<nat>, datas: seq<nat>, alignment: Option<nat>, data: Option<nat>) {
    && AllGood(s, formats)
    && (forall i | 0 <= i < |datas| :: Inside(s, datas[i])) && |datas| <= 1
    && (if formats == [] then alignment.None? else alignment == Some(Block(s, formats[|formats| - 1])))
    && (if datas == [] then data.None? else data == Some(SizeAt(s, datas[0])))
  }

  /** A bad format or a second data chunk cannot be made good by what follows. */
  lemma NeverGood(s: Bytes, done: seq<nat>, formats: seq<nat>, datas: seq<nat>, p: nat)
    requires Sorted(s, done, formats, datas) && Remaining(s, done, p)
    requires |datas| > 1 || (formats != [] && !GoodFormat(s, formats[|formats| - 1]))
    ensures !ValidWav(s)
  {
    if Starts(s, 12).Some? {
      SortedFinal(s, done, formats, datas, p);
      var all := Filter(Starts(s, 12).value, Tagged(s, FMT));
      assert formats != [] ==> all[|formats| - 1] == formats[|formats| - 1];
    }
  }

  method ValidateWav(s: Bytes) returns (ok: bool)
    ensures ok <==> ValidWav(s)
  {
    if !Riff(s) {
      return false;
    }
    var p := 12;
    var alignment: Option<nat>, data: Option<nat> := None, None;
    ghost var done: seq<nat>, formats: seq<nat>, datas: seq<nat> := [], [], [];
    StartsAll(s);
    while p + 8 <= |s|
      invariant Remaining(s, done, p) && Sorted(s, done, formats, datas) && Seen(s, formats, datas, alignment, data)
      decreases |s| - p
    {
      RemainingStep(s, done, p);
      if p + 8 + SizeAt(s, p) > |s| {
        return false;
      }
      SortedMore(s, done, formats, datas, p);
      done := done + [p];
      formats, datas := Plus(formats, p, HasTag(s, p, FMT)), Plus(datas, p, HasTag(s, p, DATA));
      if HasTag(s, p, FMT) {
        if !GoodFormat(s, p) {
          NeverGood(s, done, formats, datas, Next(s, p));
          return false;
        }
        alignment := Some(Block(s, p));
      } else if HasTag(s, p, DATA) {
        if data.Some? {
          NeverGood(s, done, formats, datas, Next(s, p));
          return false;
        }
        data := Some(SizeAt(s, p));
      }
      p := Next(s, p);
    }
    RemainingStep(s, done, p);
    ok := p == |s| && data.Some? && alignment.Some? && data.value > 0 && data.value % alignment.value == 0;
  }

  lemma StartsAll(s: Bytes)
    ensures Remaining(s, [], 12)
  {
    if Starts(s, 12).Some? {
      assert [] + Starts(s, 12).value == Starts(s, 12).value;
    }
  }

  // ---- The samples -----------------------------------------------------------------------------

  function DataAt(s: Bytes, p: nat): Bytes {
    if Inside(s, p) then s[p + 8..p + 8 + SizeAt(s, p)] else []
  }

  datatype Pcm = Pcm(channels: nat, rate: nat, samples: Bytes)

  function PcmFrom(s: Bytes, formats: seq<nat>, datas: seq<nat>): Pcm
    requires formats != [] && datas != []
  {
    Pcm(Channels(s, formats[|formats| - 1]), Rate(s, formats[|formats| - 1]), DataAt(s, datas[0]))
  }

  /** The last format and the one data chunk of a valid file. */
  ghost function PcmOf(s: Bytes): Pcm
    requires ValidWav(s)
  {
    PcmFrom(s, Filter(Starts(s, 12).value, Tagged(s, FMT)), Filter(Starts(s, 12).value, Tagged(s, DATA)))
  }

  /** What the second walk has collected: the last format's numbers, and the last data chunk's bytes. */
  ghost predicate Collected(s: Bytes, formats: seq<nat>, datas: seq<nat>, channels: nat, rate: nat,
                            pcm: Option<Bytes>) {
    && (formats != [] ==> var f := formats[|formats| - 1]; channels == Channels(s, f) && rate == Rate(s, f))
    && (if datas == [] then pcm.None? else pcm == Some(DataAt(s, datas[|datas| - 1])))
  }

  /** In a valid file, the walk meets only whole chunks and good formats. */
  lemma WalkInside(s: Bytes, done: seq<nat>, formats: seq<nat>, datas: seq<nat>, p: nat)
    requires ValidWav(s) && Remaining(s, done, p) && Sorted(s, done, formats, datas) && p + 8 <= |s|
    ensures Inside(s, p) && Remaining(s, done + [p], Next(s, p))
    ensures HasTag(s, p, FMT) ==> GoodFormat(s, p)
  {
    RemainingStep(s, done, p);
    SortedMore(s, done, formats, datas, p);
    if HasTag(s, p, FMT) && !GoodFormat(s, p) {
      NeverGood(s, done + [p], formats + [p], Plus(datas, p, HasTag(s, p, DATA)), Next(s, p));
    }
  }

  lemma CollectedMore(s: Bytes, formats: seq<nat>, datas: seq<nat>, channels: nat, rate: nat, pcm: Option<Bytes>,
                      p: nat)
    requires Collected(s, formats, datas, channels, rate, pcm)
    ensures var format, data := HasTag(s, p, FMT), HasTag(s, p, DATA);
            Collected(s, Plus(formats, p, format), Plus(datas, p, data), if format then Channels(s, p) else channels,
                      if format then Rate(s, p) else rate, if data then Some(DataAt(s, p)) else pcm)
  {
  }

  lemma CollectStep(s: Bytes, done: seq<nat>, formats: seq<nat>, datas: seq<nat>, p: nat, channels: nat, rate: nat,
                    pcm: Option<Bytes>)
    requires ValidWav(s) && p + 8 <= |s|
    requires Remaining(s, done, p) && Sorted(s, done, formats, datas) &&
             Collected(s, formats, datas, channels, rate, pcm)
    ensures Inside(s, p) && Remaining(s, done + [p], Next(s, p))
    ensures HasTag(s, p, FMT) ==> GoodFormat(s, p)
    ensures var format, data := HasTag(s, p, FMT), HasTag(s, p, DATA);
            && Sorted(s, done + [p], Plus(formats, p, format), Plus(datas, p, data))
            && Collected(s, Plus(formats, p, format), Plus(datas, p, data), if format then Channels(s, p) else channels,
                         if format then Rate(s, p) else rate, if data then Some(DataAt(s, p)) else pcm)
  {
    WalkInside(s, done, formats, datas, p);
    CollectedMore(s, formats, datas, channels, rate, pcm, p);
    SortedMore(s, done, formats, datas, p);
  }

  /** The second walk over an accepted file: what it reads is there to be read. */
  method Collect(s: Bytes) returns (channels: nat, rate: nat, found: Option<Bytes>)
    requires ValidWav(s)
    ensures found.Some? && Pcm(channels, rate, found.value) == PcmOf(s)
  {
    var p := 12;
    channels, rate, found := 0, 0, None;
    ghost var done: seq<nat>, formats: seq<nat>, datas: seq<nat> := [], [], [];
    StartsAll(s);
    while p + 8 <= |s|
      invariant Remaining(s, done, p) && Sorted(s, done, formats, datas) &&
                Collected(s, formats, datas, channels, rate, found)
      decreases |s| - p
    {
      CollectStep(s, done, formats, datas, p, channels, rate, found);
      done := done + [p];
      formats, datas := Plus(formats, p, HasTag(s, p, FMT)), Plus(datas, p, HasTag(s, p, DATA));
      if HasTag(s, p, FMT) {
        channels, rate := Little2(s, p + 10), Little4(s, p + 12);
      }
      if HasTag(s, p, DATA) {
        found := Some(s[p + 8..p + 8 + SizeAt(s, p)]);
      }
      p := Next(s, p);
    }
    CollectedAll(s, done, formats, datas, p, channels, rate, found);
  }

  lemma CollectedAll(s: Bytes, done: seq<nat>, formats: seq<nat>, datas: seq<nat>, p: nat, channels: nat, rate: nat,
                     found: Option<Bytes>)
    requires ValidWav(s) && p + 8 > |s|
    requires Remaining(s, done, p) && Sorted(s, done, formats, datas) &&
             Collected(s, formats, datas, channels, rate, found)
    ensures found.Some? && Pcm(channels, rate, found.value) == PcmOf(s)
  {
    RemainingStep(s, done, p);
    assert |datas| == 1 && formats != [];
    CollectedPcm(s, formats, datas, channels, rate, found);
  }

  lemma CollectedPcm(s: Bytes, formats: seq<nat>, datas: seq<nat>, channels: nat, rate: nat, found: Option<Bytes>)
    requires Collected(s, formats, datas, channels, rate, found) && |datas| == 1 && formats != []
    ensures found.Some? && Pcm(channels, rate, found.value) == PcmFrom(s, formats, datas)
  {
  }

  /** Every chunk lies inside the file, and every format chunk with all the fields that are read. */
  ghost predicate InBounds(s: Bytes, starts: seq<nat>) {
    forall i | 0 <= i < |starts| :: Inside(s, starts[i]) && (HasTag(s, starts[i], FMT) ==> starts[i] + 24 <= |s|)
  }

  lemma {:induction false} StartsInside(s: Bytes, p: nat)
    ensures Starts(s, p).Some? ==> forall i | 0 <= i < |Starts(s, p).value| :: Inside(s, Starts(s, p).value[i])
    decreases |s| - p
  {
    if Inside(s, p) {
      StartsInside(s, Next(s, p));
    }
  }

  lemma ValidInBounds(s: Bytes)
    requires ValidWav(s)
    ensures InBounds(s, Starts(s, 12).value)
  {
    var starts := Starts(s, 12).value;
    StartsInside(s, 12);
    FilterMembers(starts, Tagged(s, FMT));
    forall i | 0 <= i < |starts| && HasTag(s, starts[i], FMT) ensures starts[i] + 24 <= |s| {
      assert starts[i] in starts && Tagged(s, FMT)(starts[i]);
      var formats := Filter(starts, Tagged(s, FMT));
      var k :| 0 <= k < |formats| && formats[k] == starts[i];
      assert GoodFormat(s, formats[k]);
    }
  }

  /** Reads stay in bounds for every file that validation accepts; there is at least one whole frame. */
  method PcmIdentity(s: Bytes) returns (r: Option<Pcm>)
    ensures r.Some? <==> ValidWav(s)
    ensures r.Some? ==> InBounds(s, Starts(s, 12).value) && r.value == PcmOf(s) && WholeFrames(r.value)
  {
    var ok := ValidateWav(s);
    if !ok {
      return None;
    }
    var channels, rate, found := Collect(s);
    FramesWhole(s);
    ValidInBounds(s);
    return Some(Pcm(channels, rate, found.value));
  }

  predicate WholeFrames(pcm: Pcm) {
    && 1 <= pcm.channels <= 16 && pcm.rate > 0
    && |pcm.samples| > 0 && |pcm.samples| % (2 * pcm.channels) == 0
  }

  lemma FramesWhole(s: Bytes)
    requires ValidWav(s)
    ensures WholeFrames(PcmOf(s))
  {
    var starts := Starts(s, 12).value;
    PcmWhole(s, Filter(starts, Tagged(s, FMT)), Filter(starts, Tagged(s, DATA)));
  }

  lemma PcmWhole(s: Bytes, formats: seq<nat>, datas: seq<nat>)
    requires AllGood(s, formats) && formats != [] && datas != [] && Inside(s, datas[0]) && SizeAt(s, datas[0]) > 0
    requires Block(s, formats[|formats| - 1]) > 0 ==> SizeAt(s, datas[0]) % Block(s, formats[|formats| - 1]) == 0
    ensures WholeFrames(PcmFrom(s, formats, datas))
  {
    LastGood(s, formats);
    assert |DataAt(s, datas[0])| == SizeAt(s, datas[0]);
  }

  lemma LastGood(s: Bytes, formats: seq<nat>)
    requires AllGood(s, formats) && formats != []
    ensures var f := formats[|formats| - 1];
            1 <= Channels(s, f) <= 16 && Rate(s, f) > 0 && Block(s, f) == 2 * Channels(s, f)
  {
    assert GoodFormat(s, formats[|formats| - 1]);
  }
}
