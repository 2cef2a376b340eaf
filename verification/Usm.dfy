/** USM containers: framed chunks, and splitting a movie into a colour and an alpha movie. */
module Usm {
  import opened Wrappers
  import opened Seqs
  import opened CatalogReader

  type Bytes = seq<Byte>

  const CRID: Bytes := [0x43, 0x52, 0x49, 0x44]
  const SFV: Bytes := [0x40, 0x53, 0x46, 0x56]
  const SFA: Bytes := [0x40, 0x53, 0x46, 0x41]
  const ALP: Bytes := [0x40, 0x41, 0x4C, 0x50]

  function Big2(s: Bytes, at: nat): nat
    requires at + 2 <= |s|
  {
    0x100 * (s[at] as int) + s[at + 1] as int
  }

  function Big4(s: Bytes, at: nat): nat
    requires at + 4 <= |s|
  {
    0x1_0000 * Big2(s, at) + Big2(s, at + 2)
  }

  // ---- Framing ---------------------------------------------------------------------------------

  /** Sizes in a chunk header: after the first eight bytes, of the header, and of the padding. */
  function BodySize(h: Bytes): nat
    requires |h| >= 32
  {
    Big4(h, 4)
  }

  function HeadSize(h: Bytes): nat
    requires |h| >= 32
  {
    Big2(h, 8)
  }

  function PadSize(h: Bytes): nat
    requires |h| >= 32
  {
    Big2(h, 10)
  }

  predicate GoodHeader(h: Bytes)
    requires |h| >= 32
  {
    HeadSize(h) >= 24 && HeadSize(h) + PadSize(h) <= BodySize(h) && h[12] == 0
  }

  /** One whole chunk. */
  predicate Framed(c: Bytes) {
    |c| >= 32 && GoodHeader(c) && |c| == BodySize(c) + 8
  }

  function Type(c: Bytes): Bytes
    requires |c| >= 4
  {
    c[..4]
  }

  function Payload(c: Bytes): Bytes
    requires Framed(c)
  {
    c[8 + HeadSize(c)..|c| - PadSize(c)]
  }

  function Concat(chunks: seq<Bytes>): Bytes {
    if chunks == [] then [] else chunks[0] + Concat(chunks[1..])
  }

  ghost predicate AllFramed(chunks: seq<Bytes>) {
    forall i | 0 <= i < |chunks| :: Framed(chunks[i])
  }

  /** The bytes are exactly these chunks. */
  ghost predicate Chunked(bytes: Bytes, chunks: seq<Bytes>) {
    AllFramed(chunks) && Concat(chunks) == bytes
  }

  /** The end of the chunk at `offset`, if a whole well-formed chunk starts there. */
  function ChunkEnd(bytes: Bytes, offset: nat): (end: Option<nat>)
    ensures end.Some? ==> offset < end.value <= |bytes| && Framed(bytes[offset..end.value])
  {
    if offset + 32 > |bytes| then None
    else
      var h := bytes[offset..offset + 32];
      var end := offset + BodySize(h) + 8;
      if !GoodHeader(h) || end > |bytes| then None
      else
        HeaderOnly(bytes[offset..end], h);
        Some(end)
  }

  /** Framing only looks at the header. */
  lemma HeaderOnly(c: Bytes, h: Bytes)
    requires |h| == 32 <= |c| && c[..32] == h
    ensures BodySize(c) == BodySize(h) && HeadSize(c) == HeadSize(h) && PadSize(c) == PadSize(h)
    ensures GoodHeader(c) <==> GoodHeader(h)
  {
    assert forall i | 0 <= i < 32 :: c[i] == h[i];
  }

  lemma {:induction false} ConcatMore(chunks: seq<Bytes>, c: Bytes)
    ensures Concat(chunks + [c]) == Concat(chunks) + c
  {
    if chunks == [] {
      assert [c][1..] == [];
    } else {
      ConcatMore(chunks[1..], c);
      assert (chunks + [c])[1..] == chunks[1..] + [c];
      assert chunks[0] + (Concat(chunks[1..]) + c) == chunks[0] + Concat(chunks[1..]) + c;
    }
  }

  /** The chunks of a container, if it is whole chunks to its end. */
  function Parse(bytes: Bytes): Option<seq<Bytes>>
    decreases |bytes|
  {
    if bytes == [] then Some([])
    else
      match ChunkEnd(bytes, 0)
      case None => None
      case Some(end) =>
        match Parse(bytes[end..])
        case None => None
        case Some(rest) => Some([bytes[..end]] + rest)
  }

  /** A chunk at the head of the bytes is read as that chunk, whatever follows. */
  lemma FirstChunk(c: Bytes, rest: Bytes)
    requires Framed(c)
    ensures ChunkEnd(c + rest, 0) == Some(|c|) && (c + rest)[..|c|] == c && (c + rest)[|c|..] == rest
  {
    var h := (c + rest)[0..32];
    assert c[..32] == h;
    HeaderOnly(c, h);
  }

  /** Parsing loses nothing, and framing is unambiguous: parsing and joining are inverse. */
  lemma {:induction false} ParseSound(bytes: Bytes)
    requires Parse(bytes).Some?
    ensures Chunked(bytes, Parse(bytes).value)
    decreases |bytes|
  {
    if bytes != [] {
      var end := ChunkEnd(bytes, 0).value;
      ParseSound(bytes[end..]);
      assert bytes[0..end] == bytes[..end];
      var rest := Parse(bytes[end..]).value;
      assert ([bytes[..end]] + rest)[1..] == rest;
    }
  }

  lemma {:induction false} ParseConcat(chunks: seq<Bytes>)
    requires AllFramed(chunks)
    ensures Parse(Concat(chunks)) == Some(chunks)
  {
    if chunks != [] {
      var rest := Concat(chunks[1..]);
      FirstChunk(chunks[0], rest);
      ParseConcat(chunks[1..]);
      ParseOne(chunks[0] + rest);
      assert chunks == [chunks[0]] + chunks[1..];
    }
  }

  lemma ChunkEndShift(bytes: Bytes, offset: nat)
    requires offset <= |bytes|
    ensures ChunkEnd(bytes[offset..], 0).None? <==> ChunkEnd(bytes, offset).None?
    ensures ChunkEnd(bytes, offset).Some? ==>
            ChunkEnd(bytes, offset).value == offset + ChunkEnd(bytes[offset..], 0).value
  {
    if offset + 32 <= |bytes| {
      assert bytes[offset..][0..32] == bytes[offset..offset + 32];
    }
  }

  function Prepend(done: seq<Bytes>, rest: Option<seq<Bytes>>): Option<seq<Bytes>> {
    match rest
    case Some(chunks) => Some(done + chunks)
    case None => None
  }

  /** How parsing continues after the first chunks. */
  ghost predicate Remaining(bytes: Bytes, done: seq<Bytes>, offset: nat)
    requires offset <= |bytes|
  {
    Parse(bytes) == Prepend(done, Parse(bytes[offset..]))
  }

  lemma RemainingAll(bytes: Bytes)
    ensures Remaining(bytes, [], 0)
  {
    assert bytes[0..] == bytes;
    if Parse(bytes).Some? {
      assert [] + Parse(bytes).value == Parse(bytes).value;
    }
  }

  lemma RemainingNone(bytes: Bytes, done: seq<Bytes>)
    requires Remaining(bytes, done, |bytes|)
    ensures Parse(bytes) == Some(done)
  {
    assert bytes[|bytes|..] == [];
    assert done + [] == done;
  }

  lemma PrependTwice(done: seq<Bytes>, c: Bytes, rest: Option<seq<Bytes>>)
    ensures Prepend(done, Prepend([c], rest)) == Prepend(done + [c], rest)
  {
    if rest.Some? {
      assert done + ([c] + rest.value) == done + [c] + rest.value;
    }
  }

  lemma ParseOne(tail: Bytes)
    requires tail != []
    ensures Parse(tail) == match ChunkEnd(tail, 0)
                           case None => None
                           case Some(end) => Prepend([tail[..end]], Parse(tail[end..]))
  {
  }

  lemma ParseStep(bytes: Bytes, done: seq<Bytes>, offset: nat)
    requires offset < |bytes| && Remaining(bytes, done, offset)
    ensures match ChunkEnd(bytes, offset)
            case None => Parse(bytes).None?
            case Some(end) => Remaining(bytes, done + [bytes[offset..end]], end)
  {
    ChunkEndShift(bytes, offset);
    ParseOne(bytes[offset..]);
    if ChunkEnd(bytes, offset).Some? {
      var end := ChunkEnd(bytes, offset).value;
      SliceTwice(bytes, offset, end);
      PrependTwice(done, bytes[offset..end], Parse(bytes[end..]));
    }
  }

  lemma SliceTwice(bytes: Bytes, offset: nat, end: nat)
    requires offset <= end <= |bytes|
    ensures bytes[offset..][end - offset..] == bytes[end..] && bytes[offset..][..end - offset] == bytes[offset..end]
  {
  }

  // ---- Colour and alpha ------------------------------------------------------------------------

  predicate Known(c: Bytes)
    requires |c| >= 4
  {
    Type(c) == CRID || Type(c) == SFV || Type(c) == SFA || Type(c) == ALP
  }

  ghost predicate AllKnown(chunks: seq<Bytes>) {
    forall i | 0 <= i < |chunks| :: |chunks[i]| >= 4 && Known(chunks[i])
  }

  function OfType(t: Bytes): Bytes -> bool {
    (c: Bytes) => |c| >= 4 && Type(c) == t
  }

  function NotAlpha(): Bytes -> bool {
    (c: Bytes) => !(|c| >= 4 && Type(c) == ALP)
  }

  function ForAlpha(): Bytes -> bool {
    (c: Bytes) => |c| >= 4 && (Type(c) == CRID || Type(c) == ALP)
  }

  /** An alpha chunk presented as a video chunk; everything after the type is kept. */
  function Relabel(c: Bytes): Bytes {
    if |c| >= 4 && Type(c) == ALP then SFV + c[4..] else c
  }

  function Relabelled(chunks: seq<Bytes>): seq<Bytes> {
    Map(chunks, Relabel)
  }

  lemma RelabelKeeps(c: Bytes)
    requires Framed(c)
    ensures Framed(Relabel(c)) && |Relabel(c)| == |c| && Relabel(c)[4..] == c[4..] && Payload(Relabel(c)) == Payload(c)
    ensures Type(Relabel(c)) == if Type(c) == ALP then SFV else Type(c)
  {
    var r := Relabel(c);
    if Type(c) == ALP {
      assert r[4..] == c[4..] && r[..4] == SFV;
      assert forall i | 4 <= i < |c| :: r[i] == c[i];
    }
  }

  lemma {:induction false} FilterFramed(chunks: seq<Bytes>, p: Bytes -> bool)
    requires AllFramed(chunks)
    ensures AllFramed(Filter(chunks, p))
    ensures forall i | 0 <= i < |Filter(chunks, p)| :: p(Filter(chunks, p)[i])
  {
    if chunks != [] {
      FilterFramed(chunks[..|chunks| - 1], p);
    }
  }

  datatype Split = Invalid | NoAlpha | Pair(color: Bytes, alpha: Bytes)

  /** One pass over the container: its chunks, and whether any is an alpha chunk. */
  method Scan(bytes: Bytes) returns (chunks: Option<seq<Bytes>>, alpha: bool)
    ensures chunks.Some? <==> Parse(bytes).Some? && AllKnown(Parse(bytes).value)
    ensures chunks.Some? ==> chunks == Parse(bytes) && (alpha <==> Filter(chunks.value, OfType(ALP)) != [])
  {
    var done: seq<Bytes> := [];
    var offset := 0;
    alpha := false;
    RemainingAll(bytes);
    while offset < |bytes|
      invariant offset <= |bytes| && Remaining(bytes, done, offset)
      invariant AllKnown(done) && (alpha <==> Filter(done, OfType(ALP)) != [])
    {
      ParseStep(bytes, done, offset);
      var end := ChunkEnd(bytes, offset);
      if end.None? {
        return None, alpha;
      }
      var chunk := bytes[offset..end.value];
      if !Known(chunk) {
        UnknownChunk(bytes, done, chunk, end.value);
        return None, alpha;
      }
      KnownMore(done, chunk);
      alpha := alpha || Type(chunk) == ALP;
      done := done + [chunk];
      offset := end.value;
    }
    RemainingNone(bytes, done);
    chunks := Some(done);
  }

  lemma KnownMore(done: seq<Bytes>, chunk: Bytes)
    requires AllKnown(done) && |chunk| >= 4 && Known(chunk)
    ensures AllKnown(done + [chunk])
    ensures Filter(done + [chunk], OfType(ALP)) != [] <==> Filter(done, OfType(ALP)) != [] || Type(chunk) == ALP
  {
    assert (done + [chunk])[..|done|] == done;
  }

  lemma UnknownChunk(bytes: Bytes, done: seq<Bytes>, chunk: Bytes, end: nat)
    requires end <= |bytes| && Remaining(bytes, done + [chunk], end) && |chunk| >= 4 && !Known(chunk)
    ensures Parse(bytes).Some? ==> !AllKnown(Parse(bytes).value)
  {
    if Parse(bytes).Some? {
      assert Parse(bytes).value[|done|] == chunk;
    }
  }

  /** Both halves, chunk by chunk. */
  method Distribute(chunks: seq<Bytes>) returns (color: Bytes, alpha: Bytes)
    requires AllFramed(chunks)
    ensures color == Concat(Filter(chunks, NotAlpha()))
    ensures alpha == Concat(Relabelled(Filter(chunks, ForAlpha())))
  {
    color, alpha := [], [];
    for i := 0 to |chunks|
      invariant color == Concat(Filter(chunks[..i], NotAlpha()))
      invariant alpha == Concat(Relabelled(Filter(chunks[..i], ForAlpha())))
    {
      var chunk := chunks[i];
      ColorMore(chunks, i);
      AlphaMore(chunks, i);
      if Type(chunk) == CRID {
        color := color + chunk;
        alpha := alpha + chunk;
      } else if Type(chunk) == ALP {
        alpha := alpha + (SFV + chunk[4..]);
      } else {
        color := color + chunk;
      }
    }
    assert chunks[..|chunks|] == chunks;
  }

  lemma FilterOne(chunks: seq<Bytes>, i: nat, p: Bytes -> bool)
    requires i < |chunks|
    ensures Filter(chunks[..i + 1], p) == Filter(chunks[..i], p) + if p(chunks[i]) then [chunks[i]] else []
  {
    assert chunks[..i + 1][..i] == chunks[..i];
  }

  lemma ColorMore(chunks: seq<Bytes>, i: nat)
    requires AllFramed(chunks) && i < |chunks|
    ensures var before := Concat(Filter(chunks[..i], NotAlpha()));
            Concat(Filter(chunks[..i + 1], NotAlpha())) == if Type(chunks[i]) == ALP then before else before + chunks[i]
  {
    FilterOne(chunks, i, NotAlpha());
    ConcatMore(Filter(chunks[..i], NotAlpha()), chunks[i]);
    assert Filter(chunks[..i], NotAlpha()) + [] == Filter(chunks[..i], NotAlpha());
  }

  lemma AlphaMore(chunks: seq<Bytes>, i: nat)
    requires AllFramed(chunks) && i < |chunks|
    ensures var c, before := chunks[i], Concat(Relabelled(Filter(chunks[..i], ForAlpha())));
            Concat(Relabelled(Filter(chunks[..i + 1], ForAlpha()))) ==
            if Type(c) == ALP || Type(c) == CRID then before + Relabel(c) else before
  {
    var done := Filter(chunks[..i], ForAlpha());
    FilterOne(chunks, i, ForAlpha());
    ConcatMore(Relabelled(done), Relabel(chunks[i]));
    assert Relabelled(done + [chunks[i]]) == Relabelled(done) + [Relabel(chunks[i])];
    assert done + [] == done;
  }

  /** What splitting is: the chunks that are not alpha, and the alpha chunks relabelled after every `CRID`. */
  ghost function SplitOf(bytes: Bytes): Split {
    if Parse(bytes).None? || !AllKnown(Parse(bytes).value) then Invalid
    else
      var chunks := Parse(bytes).value;
      if Filter(chunks, OfType(ALP)) == [] then NoAlpha
      else Pair(Concat(Filter(chunks, NotAlpha())), Concat(Relabelled(Filter(chunks, ForAlpha()))))
  }

  method SplitAlpha(bytes: Bytes) returns (r: Split)
    ensures r == SplitOf(bytes)
  {
    var chunks, alpha := Scan(bytes);
    if chunks.None? {
      return Invalid;
    }
    if !alpha {
      return NoAlpha;
    }
    ParseSound(bytes);
    var c, a := Distribute(chunks.value);
    return Pair(c, a);
  }

  lemma {:induction false} FilterKnown(chunks: seq<Bytes>, p: Bytes -> bool)
    requires AllKnown(chunks)
    ensures AllKnown(Filter(chunks, p))
  {
    if chunks != [] {
      FilterKnown(chunks[..|chunks| - 1], p);
    }
  }

  lemma NoneOfType(chunks: seq<Bytes>, t: Bytes)
    requires forall i | 0 <= i < |chunks| :: !OfType(t)(chunks[i])
    ensures Filter(chunks, OfType(t)) == []
  {
    FilterAll(chunks, OfType(t));
  }

  lemma ColorHasNoAlpha(chunks: seq<Bytes>)
    requires AllFramed(chunks) && AllKnown(chunks)
    ensures var color := Filter(chunks, NotAlpha());
            Parse(Concat(color)) == Some(color) && AllKnown(color) && Filter(color, OfType(ALP)) == []
  {
    FilterFramed(chunks, NotAlpha());
    FilterKnown(chunks, NotAlpha());
    ParseConcat(Filter(chunks, NotAlpha()));
    NoneOfType(Filter(chunks, NotAlpha()), ALP);
  }

  lemma AlphaHasNoAlpha(chunks: seq<Bytes>)
    requires AllFramed(chunks) && AllKnown(chunks)
    ensures var kept := Filter(chunks, ForAlpha());
            var alpha := Relabelled(kept);
            && Parse(Concat(alpha)) == Some(alpha) && AllKnown(alpha) && Filter(alpha, OfType(ALP)) == []
            && forall i | 0 <= i < |kept| ::
                Framed(kept[i]) && Framed(alpha[i]) && Payload(alpha[i]) == Payload(kept[i])
  {
    FilterFramed(chunks, ForAlpha());
    FilterKnown(chunks, ForAlpha());
    var kept := Filter(chunks, ForAlpha());
    var alpha := Relabelled(kept);
    forall i | 0 <= i < |alpha|
      ensures Framed(alpha[i]) && Known(alpha[i]) && !OfType(ALP)(alpha[i]) && Payload(alpha[i]) == Payload(kept[i])
    {
      RelabelKeeps(kept[i]);
    }
    ParseConcat(alpha);
    NoneOfType(alpha, ALP);
  }

  /** Both halves are containers again, without alpha: splitting them finds nothing to split. */
  lemma HalvesAreWhole(bytes: Bytes)
    requires SplitOf(bytes).Pair?
    ensures SplitOf(SplitOf(bytes).color) == NoAlpha
    ensures SplitOf(SplitOf(bytes).alpha) == NoAlpha
    ensures var chunks := Parse(bytes).value;
            && Parse(SplitOf(bytes).color) == Some(Filter(chunks, NotAlpha()))
            && Parse(SplitOf(bytes).alpha) == Some(Relabelled(Filter(chunks, ForAlpha())))
  {
    ParseSound(bytes);
    ColorHasNoAlpha(Parse(bytes).value);
    AlphaHasNoAlpha(Parse(bytes).value);
  }

  /** No frame is dropped and none is altered: the alpha movie carries every alpha payload, in order. */
  lemma AlphaPayloads(bytes: Bytes, i: nat)
    requires SplitOf(bytes).Pair?
    requires i < |Filter(Parse(bytes).value, ForAlpha())|
    ensures var kept := Filter(Parse(bytes).value, ForAlpha());
            var alpha := Parse(SplitOf(bytes).alpha);
            && alpha.Some? && |alpha.value| == |kept|
            && Framed(alpha.value[i]) && Framed(kept[i]) && Payload(alpha.value[i]) == Payload(kept[i])
  {
    ParseSound(bytes);
    HalvesAreWhole(bytes);
    AlphaHasNoAlpha(Parse(bytes).value);
  }
}
