/** Bounded reads of the binary catalog: words, arrays and strings, the latter against a budget. */
module CatalogReader {
  import opened Wrappers
  import opened Paths

  type Byte = b: int | 0 <= b < 256 witness 0

  datatype CatalogError = TooLarge | Malformed | BadSelection

  /** The file, and how UTF-16 text decodes. */
  datatype Blob = Blob(bytes: seq<Byte>, utf16: seq<Byte> -> Option<string>)

  /** No reference. */
  const NONE: nat := 0xFFFF_FFFF
  /** Flag bits of a string reference; the bits below are its offset. */
  const DYNAMIC: nat := 0x4000_0000
  const UNICODE: nat := 0x8000_0000
  const MAX_LINKS: nat := 1_000_000
  const MAX_LOCATIONS: nat := 100_000
  const MAX_FILE: nat := 64 * 1024 * 1024
  const MAX_TEXT: nat := 64 * 1024
  const MAX_PARTS: nat := 256

  function Offset(id: nat): nat {
    id % DYNAMIC
  }

  predicate IsDynamic(id: nat) {
    id / DYNAMIC % 2 == 1
  }

  predicate IsUnicode(id: nat) {
    id / UNICODE % 2 == 1
  }

  function Slice(b: Blob, offset: nat, len: nat): Option<seq<Byte>> {
    if offset + len <= |b.bytes| then Some(b.bytes[offset..offset + len]) else None
  }

  function Word(bytes: seq<Byte>): (w: nat)
    requires |bytes| == 4
    ensures w <= NONE
  {
    bytes[0] as int + 0x100 * (bytes[1] as int) + 0x1_0000 * (bytes[2] as int) + 0x100_0000 * (bytes[3] as int)
  }

  function U32(b: Blob, offset: nat): (r: Option<nat>)
    ensures r.Some? ==> r.value <= NONE
  {
    match Slice(b, offset, 4)
    case Some(s) => Some(Word(s))
    case None => None
  }

  /** The word stored before an array or a string: its length in bytes. */
  function Length(b: Blob, offset: nat): Option<nat> {
    if offset < 4 then None else U32(b, offset - 4)
  }

  function Array(b: Blob, id: nat, stride: nat): (r: Option<seq<Byte>>)
    requires stride > 0
    ensures r.Some? ==> |r.value| % stride == 0 && |r.value| / stride <= MAX_LINKS
  {
    if id == NONE then Some([])
    else
      match Length(b, id)
      case None => None
      case Some(size) => if size % stride != 0 || size / stride > MAX_LINKS then None else Slice(b, id, size)
  }

  function Words(bytes: seq<Byte>): (w: seq<nat>)
    requires |bytes| % 4 == 0
    ensures |w| == |bytes| / 4
    ensures forall i | 0 <= i < |w| :: w[i] == Word(bytes[4 * i..4 * i + 4])
  {
    seq(|bytes| / 4, i requires 0 <= i < |bytes| / 4 => Word(bytes[4 * i..4 * i + 4]))
  }

  function Ids(b: Blob, id: nat): (r: Option<seq<nat>>)
    ensures r.Some? ==> |r.value| <= MAX_LINKS
  {
    match Array(b, id, 4)
    case Some(bytes) => Some(Words(bytes))
    case None => None
  }

  // ---- Strings ---------------------------------------------------------------------------------

  predicate IsAscii(bytes: seq<Byte>) {
    forall i | 0 <= i < |bytes| :: bytes[i] < 128
  }

  function Ascii(bytes: seq<Byte>): string
    requires IsAscii(bytes)
  {
    seq(|bytes|, i requires 0 <= i < |bytes| => bytes[i] as char)
  }

  /** The stored string a reference names, and its stored length, whatever the budget. */
  function Plain(b: Blob, id: nat): Option<(string, nat)> {
    if id == NONE then Some(("", 0))
    else
      match Length(b, Offset(id))
      case None => None
      case Some(len) =>
        if len > MAX_TEXT then None
        else
          match Slice(b, Offset(id), len)
          case None => None
          case Some(bytes) =>
            if IsUnicode(id) then
              if len % 2 != 0 then None
              else match b.utf16(bytes) case Some(s) => Some((s, len)) case None => None
            else if IsAscii(bytes) then Some((Ascii(bytes), len))
            else None
  }

  /** Separated parts, last part first. */
  function JoinReversed(parts: seq<string>, separator: string): string {
    if parts == [] then ""
    else if |parts| == 1 then parts[0]
    else JoinReversed(parts[1..], separator) + separator + parts[0]
  }

  /** Where a chain of parts goes on: the string of this part, its stored length, and the next reference. */
  datatype Link = Link(part: string, cost: nat, following: nat)

  function NodeAt(b: Blob, next: nat): Option<Link> {
    match U32(b, Offset(next))
    case None => None
    case Some(reference) =>
      match Plain(b, reference)
      case None => None
      case Some((part, cost)) =>
        match U32(b, Offset(next) + 4)
        case None => None
        case Some(following) => Some(Link(part, cost, following))
  }

  function Nodes(b: Blob): nat -> Option<Link> {
    (next: nat) => NodeAt(b, next)
  }

  /** `offsets` are the nodes a chain of parts visits from `next` to its end, and `parts` what they hold. */
  ghost predicate Chain(nodes: nat -> Option<Link>, next: nat, offsets: seq<nat>, parts: seq<string>)
    decreases |offsets|
  {
    |offsets| == |parts| &&
    if offsets == [] then next == NONE
    else
      && next != NONE && offsets[0] == Offset(next)
      && nodes(next).Some? && nodes(next).value.part == parts[0]
      && Chain(nodes, nodes(next).value.following, offsets[1..], parts[1..])
  }

  ghost predicate Distinct(s: seq<nat>) {
    forall i, j | 0 <= i < j < |s| :: s[i] != s[j]
  }

  /** The length the bound on text is about: every part counts with a separator. */
  function TextSize(parts: seq<string>, gap: nat): nat {
    if parts == [] then 0 else Size(parts[0]) + gap + TextSize(parts[1..], gap)
  }

  /** What a string reference means: a stored string, or a chain of distinct parts joined in reverse. */
  ghost predicate Means(b: Blob, id: nat, separator: string, s: string) {
    if id == NONE || !IsDynamic(id) then Plain(b, id).Some? && Plain(b, id).value.0 == s
    else exists offsets, parts ::
        ChainText(Nodes(b), id, Size(separator), offsets, parts) && s == JoinReversed(parts, separator)
  }

  ghost predicate ChainText(nodes: nat -> Option<Link>, id: nat, gap: nat, offsets: seq<nat>, parts: seq<string>) {
    Chain(nodes, id, offsets, parts) && Distinct(offsets) && |offsets| <= MAX_PARTS && TextSize(parts, gap) <= MAX_TEXT
  }

  /** The next node of a walk, unless it was seen, there have been too many, or the text gets too long. */
  function Step(nodes: nat -> Option<Link>, next: nat, gap: nat, seen: set<nat>, len: nat): Option<Link> {
    if Offset(next) in seen || |seen| >= MAX_PARTS || nodes(next).None? ||
        len + Size(nodes(next).value.part) + gap > MAX_TEXT
    then None
    else nodes(next)
  }

  /** The parts from `next` on and their stored lengths. */
  function Walk(nodes: nat -> Option<Link>, next: nat, gap: nat, seen: set<nat>, len: nat): Option<(seq<string>, nat)>
    decreases MAX_PARTS - |seen|
  {
    if next == NONE then Some(([], 0))
    else
      match Step(nodes, next, gap, seen, len)
      case None => None
      case Some(link) =>
        match Walk(nodes, link.following, gap, seen + {Offset(next)}, len + Size(link.part) + gap)
        case None => None
        case Some((parts, cost)) => Some(([link.part] + parts, link.cost + cost))
  }

  /** The text of a string reference and the stored length of everything read for it. */
  function Text(b: Blob, id: nat, separator: string): Option<(string, nat)> {
    if id == NONE || !IsDynamic(id) then Plain(b, id)
    else
      match Walk(Nodes(b), id, Size(separator), {}, 0)
      case None => None
      case Some((parts, cost)) => Some((JoinReversed(parts, separator), cost))
  }

  lemma {:induction false} WalkChains(nodes: nat -> Option<Link>, next: nat, gap: nat, seen: set<nat>, len: nat)
    returns (offsets: seq<nat>)
    requires Walk(nodes, next, gap, seen, len).Some? && |seen| <= MAX_PARTS && len <= MAX_TEXT
    ensures var parts := Walk(nodes, next, gap, seen, len).value.0;
            && Chain(nodes, next, offsets, parts) && len + TextSize(parts, gap) <= MAX_TEXT
            && Distinct(offsets) && (forall o | o in offsets :: o !in seen) && |seen| + |offsets| <= MAX_PARTS
    decreases MAX_PARTS - |seen|
  {
    if next == NONE {
      return [];
    }
    var link := nodes(next).value;
    var more := len + Size(link.part) + gap;
    var rest := WalkChains(nodes, link.following, gap, seen + {Offset(next)}, more);
    var parts := Walk(nodes, link.following, gap, seen + {Offset(next)}, more).value.0;
    assert ([link.part] + parts)[1..] == parts;
    offsets := [Offset(next)] + rest;
    assert offsets[1..] == rest;
  }

  lemma {:induction false} ChainWalks(nodes: nat -> Option<Link>, next: nat, gap: nat, seen: set<nat>, len: nat,
                                      offsets: seq<nat>, parts: seq<string>)
    requires Chain(nodes, next, offsets, parts) && len + TextSize(parts, gap) <= MAX_TEXT
    requires Distinct(offsets) && (forall o | o in offsets :: o !in seen) && |seen| + |offsets| <= MAX_PARTS
    ensures Walk(nodes, next, gap, seen, len).Some? && Walk(nodes, next, gap, seen, len).value.0 == parts
    decreases |offsets|
  {
    if offsets != [] {
      var link := nodes(next).value;
      var more := len + Size(link.part) + gap;
      assert offsets[0] in offsets && forall o | o in offsets[1..] :: o in offsets && o != offsets[0];
      ChainWalks(nodes, link.following, gap, seen + {Offset(next)}, more, offsets[1..], parts[1..]);
      assert [parts[0]] + parts[1..] == parts;
    }
  }

  /** A reference is readable exactly when it means something, and what is read is what it means. */
  lemma TextExact(b: Blob, id: nat, separator: string, s: string)
    ensures Text(b, id, separator).Some? && Text(b, id, separator).value.0 == s <==> Means(b, id, separator, s)
  {
    var nodes, gap := Nodes(b), Size(separator);
    if id != NONE && IsDynamic(id) {
      if Walk(nodes, id, gap, {}, 0).Some? {
        var offsets := WalkChains(nodes, id, gap, {}, 0);
        assert ChainText(nodes, id, gap, offsets, Walk(nodes, id, gap, {}, 0).value.0);
      }
      forall offsets, parts | ChainText(nodes, id, gap, offsets, parts)
        ensures Walk(nodes, id, gap, {}, 0).Some? && Walk(nodes, id, gap, {}, 0).value.0 == parts
      {
        ChainWalks(nodes, id, gap, {}, 0, offsets, parts);
      }
    }
  }

  /** How far a walk has come: the parts were read at the price of `spent`. */
  datatype Cursor = Cursor(next: nat, seen: set<nat>, len: nat, parts: seq<string>, spent: nat)

  function Advance(c: Cursor, gap: nat, link: Link): Cursor {
    Cursor(link.following, c.seen + {Offset(c.next)}, c.len + Size(link.part) + gap, c.parts + [link.part],
        c.spent + link.cost)
  }

  /** What is left to walk decides about the whole. */
  ghost predicate Onward(whole: Option<(seq<string>, nat)>, nodes: nat -> Option<Link>, gap: nat, c: Cursor) {
    var left := Walk(nodes, c.next, gap, c.seen, c.len);
    && (whole.Some? <==> left.Some?)
    && (left.Some? ==> whole.value.0 == c.parts + left.value.0 && whole.value.1 == c.spent + left.value.1)
  }

  lemma OnwardMore(whole: Option<(seq<string>, nat)>, nodes: nat -> Option<Link>, gap: nat, c: Cursor)
    requires Onward(whole, nodes, gap, c) && c.next != NONE
    ensures var step := Step(nodes, c.next, gap, c.seen, c.len);
            && (step.None? ==> whole.None?)
            && (step.Some? ==>
                  && (whole.Some? ==> whole.value.1 >= c.spent + step.value.cost)
                  && Onward(whole, nodes, gap, Advance(c, gap, step.value)))
  {
    var left := Walk(nodes, c.next, gap, c.seen, c.len);
    if left.Some? {
      var link := nodes(c.next).value;
      var rest := Walk(nodes, link.following, gap, c.seen + {Offset(c.next)}, c.len + Size(link.part) + gap).value.0;
      assert c.parts + ([link.part] + rest) == c.parts + [link.part] + rest;
    }
  }

  lemma OnwardEnds(nodes: nat -> Option<Link>, id: nat, gap: nat, c: Cursor)
    ensures Onward(Walk(nodes, id, gap, {}, 0), nodes, gap, Cursor(id, {}, 0, [], 0))
    ensures c.next == NONE && Onward(Walk(nodes, id, gap, {}, 0), nodes, gap, c) ==>
              Walk(nodes, id, gap, {}, 0) == Some((c.parts, c.spent))
  {
    var whole := Walk(nodes, id, gap, {}, 0);
    if whole.Some? {
      assert [] + whole.value.0 == whole.value.0;
    }
    assert c.parts + [] == c.parts;
  }

  class Reader {
    const blob: Blob
    /** Bytes of text that may still be read. */
    var budget: nat

    constructor (blob: Blob)
      ensures this.blob == blob && budget == MAX_FILE
    {
      this.blob := blob;
      budget := MAX_FILE;
    }

    method PlainString(id: nat) returns (r: Option<string>)
      modifies this
      ensures r.Some? <==> Plain(blob, id).Some? && Plain(blob, id).value.1 <= old(budget)
      ensures r.Some? ==> r.value == Plain(blob, id).value.0 && budget == old(budget) - Plain(blob, id).value.1
      ensures budget <= old(budget)
    {
      if id == NONE {
        return Some("");
      }
      var offset := Offset(id);
      var len := Length(blob, offset);
      if len.None? || len.value > MAX_TEXT || len.value > budget {
        return None;
      }
      budget := budget - len.value;
      var bytes := Slice(blob, offset, len.value);
      if bytes.None? {
        return None;
      }
      if IsUnicode(id) {
        return if len.value % 2 != 0 then None else blob.utf16(bytes.value);
      }
      return if IsAscii(bytes.value) then Some(Ascii(bytes.value)) else None;
    }

    method NextPart(next: nat) returns (r: Option<Link>)
      modifies this
      ensures r.Some? <==> NodeAt(blob, next).Some? && NodeAt(blob, next).value.cost <= old(budget)
      ensures r.Some? ==> r == NodeAt(blob, next) && budget == old(budget) - r.value.cost
      ensures budget <= old(budget)
    {
      var reference := U32(blob, Offset(next));
      if reference.None? {
        return None;
      }
      var part := PlainString(reference.value);
      if part.None? {
        return None;
      }
      var following := U32(blob, Offset(next) + 4);
      if following.None? {
        return None;
      }
      return Some(Link(part.value, Plain(blob, reference.value).value.1, following.value));
    }

    /** A node is visited at most once, so cyclic chains are refused, not followed forever. */
    method TakeStep(next: nat, gap: nat, seen: set<nat>, len: nat) returns (r: Option<Link>)
      modifies this
      ensures var step := Step(Nodes(blob), next, gap, seen, len);
              && (r.Some? <==> step.Some? && step.value.cost <= old(budget))
              && (r.Some? ==> r == step && budget == old(budget) - step.value.cost)
      ensures budget <= old(budget)
    {
      if Offset(next) in seen || |seen| + 1 > MAX_PARTS {
        return None;
      }
      var link := NextPart(next);
      if link.None? || len + Size(link.value.part) + gap > MAX_TEXT {
        return None;
      }
      return link;
    }

    method Parts(id: nat, gap: nat) returns (r: Option<seq<string>>)
      modifies this
      ensures var walk := Walk(Nodes(blob), id, gap, {}, 0);
              && (r.Some? <==> walk.Some? && walk.value.1 <= old(budget))
              && (r.Some? ==> r.value == walk.value.0 && budget == old(budget) - walk.value.1)
      ensures budget <= old(budget)
    {
      var c := Cursor(id, {}, 0, [], 0);
      ghost var whole := Walk(Nodes(blob), id, gap, {}, 0);
      OnwardEnds(Nodes(blob), id, gap, c);
      while c.next != NONE
        invariant |c.seen| <= MAX_PARTS && budget == old(budget) - c.spent
        invariant Onward(whole, Nodes(blob), gap, c)
        decreases MAX_PARTS - |c.seen|
      {
        OnwardMore(whole, Nodes(blob), gap, c);
        var link := TakeStep(c.next, gap, c.seen, c.len);
        if link.None? {
          return None;
        }
        c := Advance(c, gap, link.value);
      }
      OnwardEnds(Nodes(blob), id, gap, c);
      return Some(c.parts);
    }

    /** Reads a string exactly when it means something and what has to be read for it is in the budget. */
    method String(id: nat, separator: string) returns (r: Option<string>)
      modifies this
      ensures r.Some? <==> Text(blob, id, separator).Some? && Text(blob, id, separator).value.1 <= old(budget)
      ensures r.Some? ==> r.value == Text(blob, id, separator).value.0 && Means(blob, id, separator, r.value)
      ensures r.Some? ==> budget == old(budget) - Text(blob, id, separator).value.1
      ensures budget <= old(budget)
    {
      if id == NONE || !IsDynamic(id) {
        r := PlainString(id);
        return;
      }
      var parts := Parts(id, Size(separator));
      if parts.None? {
        return None;
      }
      TextExact(blob, id, separator, JoinReversed(parts.value, separator));
      return Some(JoinReversed(parts.value, separator));
    }
  }
}
