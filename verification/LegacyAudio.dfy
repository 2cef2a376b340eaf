/** Audio of old USM headers: packets are masked from a fixed offset on, each by itself. */
module LegacyAudio {
  import opened Wrappers
  import opened CatalogReader
  import opened Usm

  /** Plain bytes at the start of every audio packet. */
  const LEAD: nat := 0x140

  function Power(n: nat): (p: nat)
    ensures p > 0
  {
    if n == 0 then 1 else 2 * Power(n - 1)
  }

  /** Exclusive or of the low `n` bits. */
  function XorBits(a: nat, b: nat, n: nat): (r: nat)
    ensures r < Power(n)
  {
    if n == 0 then 0 else (a + b) % 2 + 2 * XorBits(a / 2, b / 2, n - 1)
  }

  function Xor(a: Byte, b: Byte): Byte {
    assert Power(8) == 256 by { assert Power(4) == 16; }
    XorBits(a, b, 8)
  }

  lemma Parity(a: nat, b: nat, x: nat)
    ensures var r := (a + b) % 2 + 2 * x; r / 2 == x && (r + b) % 2 == a % 2
  {
  }

  lemma {:induction false} XorBitsTwice(a: nat, b: nat, n: nat)
    requires a < Power(n)
    ensures XorBits(XorBits(a, b, n), b, n) == a
  {
    if n > 0 {
      var x := XorBits(a / 2, b / 2, n - 1);
      XorBitsTwice(a / 2, b / 2, n - 1);
      Parity(a, b, x);
      XorStep(XorBits(a, b, n), b, n);
    }
  }

  lemma XorStep(r: nat, b: nat, n: nat)
    requires n > 0
    ensures XorBits(r, b, n) == (r + b) % 2 + 2 * XorBits(r / 2, b / 2, n - 1)
  {
  }

  /** The packet with its mask applied; the mask repeats every 32 bytes and starts after the lead. */
  function MaskPacket(packet: Bytes, mask: Bytes): (r: Bytes)
    requires |mask| == 32
    ensures |r| == |packet|
    ensures forall i | 0 <= i < |r| :: r[i] == if i < LEAD then packet[i] else Xor(packet[i], mask[(i - LEAD) % 32])
  {
    seq(|packet|, i requires 0 <= i < |packet| => if i < LEAD then packet[i] else Xor(packet[i], mask[(i - LEAD) % 32]))
  }

  lemma XorTwice(a: Byte, m: Byte)
    ensures Xor(Xor(a, m), m) == a
  {
    assert Power(8) == 256 by { assert Power(4) == 16; }
    XorBitsTwice(a, m, 8);
  }

  /** Masking twice restores the packet. */
  lemma MaskTwice(packet: Bytes, mask: Bytes)
    requires |mask| == 32
    ensures MaskPacket(MaskPacket(packet, mask), mask) == packet
  {
    var once := MaskPacket(packet, mask);
    var twice := MaskPacket(once, mask);
    forall i | 0 <= i < |packet| ensures twice[i] == packet[i] {
      if i >= LEAD {
        XorTwice(packet[i], mask[(i - LEAD) % 32]);
      }
    }
  }

  /** An audio chunk that carries sound, not a header or an index. */
  predicate IsPacket(c: Bytes)
    requires Framed(c)
  {
    Type(c) == SFA && c[15] % 4 == 0
  }

  function AudioOf(c: Bytes, mask: Bytes): Bytes
    requires Framed(c) && |mask| == 32
  {
    if IsPacket(c) then MaskPacket(Payload(c), mask) else []
  }

  function Unmasked(chunks: seq<Bytes>, mask: Bytes): Bytes
    requires |mask| == 32 && forall i | 0 <= i < |chunks| :: Framed(chunks[i])
  {
    if chunks == [] then [] else Unmasked(chunks[..|chunks| - 1], mask) + AudioOf(chunks[|chunks| - 1], mask)
  }

  method ApplyMask(packet: Bytes, mask: Bytes) returns (r: Bytes)
    requires |mask| == 32
    ensures r == MaskPacket(packet, mask)
  {
    r := packet;
    var i := 0;
    while LEAD + i < |packet|
      invariant LEAD + i <= |packet| || (i == 0 && |packet| < LEAD)
      invariant |r| == |packet|
      invariant forall k | 0 <= k < LEAD + i && k < |r| :: r[k] == MaskPacket(packet, mask)[k]
      invariant forall k | LEAD + i <= k < |r| :: r[k] == packet[k]
    {
      r := r[LEAD + i := Xor(r[LEAD + i], mask[i % 32])];
      i := i + 1;
    }
  }

  /** The audio of a container, unmasked packet by packet; only whole containers are read. */
  method LegacyStream(bytes: Bytes, mask: Bytes) returns (r: Option<Bytes>)
    requires |mask| == 32
    ensures r.Some? <==> Parse(bytes).Some?
    ensures r.Some? ==> AllFramed(Parse(bytes).value) && r.value == Unmasked(Parse(bytes).value, mask)
  {
    var result: Bytes := [];
    ghost var done: seq<Bytes> := [];
    var offset := 0;
    RemainingAll(bytes);
    while offset < |bytes|
      invariant offset <= |bytes| && Remaining(bytes, done, offset)
      invariant AllFramed(done) && result == Unmasked(done, mask)
    {
      ParseStep(bytes, done, offset);
      var end := ChunkEnd(bytes, offset);
      if end.None? {
        return None;
      }
      var chunk := bytes[offset..end.value];
      UnmaskedMore(done, chunk, mask);
      if IsPacket(chunk) {
        var packet := ApplyMask(Payload(chunk), mask);
        result := result + packet;
      }
      done := done + [chunk];
      offset := end.value;
    }
    RemainingNone(bytes, done);
    return Some(result);
  }

  lemma UnmaskedMore(done: seq<Bytes>, c: Bytes, mask: Bytes)
    requires |mask| == 32 && AllFramed(done) && Framed(c)
    ensures AllFramed(done + [c]) && Unmasked(done + [c], mask) == Unmasked(done, mask) + AudioOf(c, mask)
    ensures !IsPacket(c) ==> Unmasked(done + [c], mask) == Unmasked(done, mask)
  {
    assert (done + [c])[..|done|] == done;
    assert Unmasked(done, mask) + [] == Unmasked(done, mask);
  }

  // ---- Round trip ------------------------------------------------------------------------------

  /** The chunk with its payload masked, as an encoder would store it. */
  function MaskChunk(c: Bytes, mask: Bytes): Bytes
    requires Framed(c) && |mask| == 32
  {
    if IsPacket(c) then c[..8 + HeadSize(c)] + MaskPacket(Payload(c), mask) + c[|c| - PadSize(c)..] else c
  }

  lemma MaskChunkKeeps(c: Bytes, mask: Bytes)
    requires Framed(c) && |mask| == 32
    ensures var m := MaskChunk(c, mask);
            && |m| == |c| && m[..32] == c[..32] && Framed(m) && (IsPacket(m) <==> IsPacket(c))
            && (IsPacket(c) ==> Payload(m) == MaskPacket(Payload(c), mask))
  {
    var m := MaskChunk(c, mask);
    if IsPacket(c) {
      var head, body, tail := c[..8 + HeadSize(c)], MaskPacket(Payload(c), mask), c[|c| - PadSize(c)..];
      assert m == head + body + tail && |head| >= 32;
      assert m[..32] == head[..32] == c[..32];
      HeaderOnly(m, c[..32]);
      HeaderOnly(c, c[..32]);
      SameHeader(c, m);
      assert m[|head|..|head| + |body|] == body;
    }
  }

  lemma SameHeader(c: Bytes, m: Bytes)
    requires Framed(c) && Framed(m) && m[..32] == c[..32]
    ensures IsPacket(m) <==> IsPacket(c)
  {
    assert m[..32][..4] == m[..4] && c[..32][..4] == c[..4];
    assert m[15] == m[..32][15] && c[15] == c[..32][15];
  }

  function MaskAll(chunks: seq<Bytes>, mask: Bytes): (r: seq<Bytes>)
    requires |mask| == 32 && AllFramed(chunks)
    ensures |r| == |chunks| && forall i | 0 <= i < |r| :: r[i] == MaskChunk(chunks[i], mask)
  {
    seq(|chunks|, i requires 0 <= i < |chunks| => MaskChunk(chunks[i], mask))
  }

  /** The payloads of the sound chunks, joined. */
  function Sound(chunks: seq<Bytes>): Bytes
    requires forall i | 0 <= i < |chunks| :: Framed(chunks[i])
  {
    if chunks == [] then []
    else
      var c := chunks[|chunks| - 1];
      Sound(chunks[..|chunks| - 1]) + if IsPacket(c) then Payload(c) else []
  }

  lemma {:induction false} UnmaskMasked(chunks: seq<Bytes>, mask: Bytes)
    requires |mask| == 32 && AllFramed(chunks)
    ensures AllFramed(MaskAll(chunks, mask)) && Unmasked(MaskAll(chunks, mask), mask) == Sound(chunks)
  {
    forall i | 0 <= i < |chunks| ensures Framed(MaskAll(chunks, mask)[i]) {
      MaskChunkKeeps(chunks[i], mask);
    }
    if chunks != [] {
      var n := |chunks| - 1;
      UnmaskMasked(chunks[..n], mask);
      assert MaskAll(chunks, mask)[..n] == MaskAll(chunks[..n], mask);
      MaskChunkKeeps(chunks[n], mask);
      if IsPacket(chunks[n]) {
        MaskTwice(Payload(chunks[n]), mask);
      }
    }
  }

  /** Reading a container whose sound was masked chunk by chunk gives the sound back. */
  lemma LegacyRoundTrip(chunks: seq<Bytes>, mask: Bytes)
    requires |mask| == 32 && AllFramed(chunks)
    ensures var stored := Concat(MaskAll(chunks, mask));
            AllFramed(MaskAll(chunks, mask)) && Parse(stored) == Some(MaskAll(chunks, mask)) &&
                Unmasked(MaskAll(chunks, mask), mask) == Sound(chunks)
  {
    UnmaskMasked(chunks, mask);
    ParseConcat(MaskAll(chunks, mask));
  }
}
