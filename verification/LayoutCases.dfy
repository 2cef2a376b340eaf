/** Plans that are not what one would expect: a path that is too long, and one content planned twice. */
module LayoutCases {
  import opened CaseFolding
  import opened Decimal
  import opened KeyFolding
  import opened LayoutPlan
  import opened StableLayout
  import opened Wrappers

  /** Whoever holds what a claim asked for has a path that compares equal. */
  lemma HolderAsked(k: Scheme, p: Plan, key: string, n: nat, i: nat)
    requires Indexed(k, p) && Holder(k, p, k.variant(key, n)) == Some(i)
    ensures i < |p.entries| && k.fold(p.entries[i].path) == Asked(k, key, n)
  {
    var f := Asked(k, key, n);
    assert f in p.lowered && p.lowered[f] in p.claimed;
  }

  /** The first claim of a plan gets the name it asks for. */
  lemma FirstClaim(k: Scheme, p: Plan, q: Plan, entry: Entry, c: Request)
    requires Indexed(k, q) && Settled(k, q, c) && p.entries == [] && Extends(k, p, q, entry, c)
    ensures c.attempt == 1 && q.entries == [entry.(path := k.variant(c.key, 1))]
  {
    assert c.attempt > 1 ==> Refused(k, q, c.key, c.bytes, c.sha256, 1);
  }

  /** When the name is taken by another content, the second claim gets the second name. */
  lemma SecondClaim(k: Scheme, p: Plan, q: Plan, entry: Entry, c: Request)
    requires Separating(k) && Indexed(k, q) && Settled(k, q, c) && |p.entries| == 1 && Extends(k, p, q, entry, c)
    requires p.entries[0].path == k.variant(c.key, 1) && !SameContent(p.entries[0], c.bytes, c.sha256)
    ensures c.home == 1 && q.entries == [p.entries[0], entry.(path := k.variant(c.key, 2))]
  {
    assert q.entries[0] == p.entries[0];
    assert Holder(k, q, q.entries[0].path) == Some(0);
    assert Asked(k, c.key, 1) != Asked(k, c.key, 2);
    assert c.attempt > 2 ==> Refused(k, q, c.key, c.bytes, c.sha256, 2);
    if c.attempt > 2 {
      HolderAsked(k, q, c.key, 2, 0);
    }
  }

  /** Whoever refuses the second name of the other spelling would have to hold it. */
  lemma NotRefused(k: Scheme, p: Plan, c: Request, key: string)
    requires Separating(k) && Indexed(k, p) && 2 <= |p.entries| <= 3
    requires p.entries[0].path == k.variant(key, 1) && p.entries[1].path == k.variant(key, 2)
    requires |p.entries| == 3 ==> SameContent(p.entries[2], c.bytes, c.sha256)
    requires Asked(k, c.key, 1) == Asked(k, key, 1) && SameContent(p.entries[1], c.bytes, c.sha256)
    ensures !Refused(k, p, c.key, c.bytes, c.sha256, 2)
  {
    assert Asked(k, c.key, 1) != Asked(k, c.key, 2);
    var h := Holder(k, p, k.variant(c.key, 2));
    if h.Some? {
      HolderAsked(k, p, c.key, 2, h.value);
    }
  }

  /** A claim on a spelling with another second name does not find the entry of its content. */
  lemma ThirdClaim(k: Scheme, p: Plan, q: Plan, entry: Entry, c: Request, key: string)
    requires Separating(k) && Indexed(k, q) && Settled(k, q, c) && |p.entries| == 2 && Extends(k, p, q, entry, c)
    requires p.entries[0].path == k.variant(key, 1) && p.entries[1].path == k.variant(key, 2)
    requires Asked(k, c.key, 1) == Asked(k, key, 1) && Asked(k, c.key, 2) != Asked(k, key, 2)
    requires !SameContent(p.entries[0], c.bytes, c.sha256) && SameContent(p.entries[1], c.bytes, c.sha256)
    ensures c.home == 2
  {
    NotRefused(k, q, c, key);
    assert Asked(k, key, 1) != Asked(k, key, 2);
    if c.home < 2 {
      HolderAsked(k, q, c.key, c.attempt, c.home);
    }
  }

  /** A content claimed in an empty plan. */
  method FirstContent(al: Alphabet, key: string, first: Entry) returns (p: Planner)
    requires Casing(al)
    ensures fresh(p) && p.Valid() && p.k == Naming(al) && |p.claims| == 1
    ensures p.plan.entries == [first.(path := p.k.variant(key, 1))]
    ensures Made(p.claims) == [(key, first.bytes, first.sha256)]
  {
    p := new Planner(al);
    ghost var p0 := p.plan;
    ghost var a := p.Claim(key, first);
    assert Settled(p.k, p.plan, p.claims[0]);
    FirstClaim(p.k, p0, p.plan, first, a);
  }

  /** Two contents claimed under one key, from an empty plan. */
  method TwoContents(al: Alphabet, key: string, first: Entry, second: Entry) returns (p: Planner)
    requires Casing(al) && !SameContent(first, second.bytes, second.sha256)
    ensures fresh(p) && p.Valid() && p.k == Naming(al) && |p.claims| == 2 && p.claims[1].home == 1
    ensures p.plan.entries == [first.(path := p.k.variant(key, 1)), second.(path := p.k.variant(key, 2))]
    ensures Made(p.claims) == [(key, first.bytes, first.sha256), (key, second.bytes, second.sha256)]
  {
    p := FirstContent(al, key, first);
    ghost var p1 := p.plan;
    ghost var b := p.Claim(key, second);
    assert Settled(p.k, p.plan, p.claims[1]);
    SecondClaim(p.k, p1, p.plan, second, b);
  }

  /** The length of a key is checked before its suffix is added: this plan has a path nobody could claim. */
  method LongKeyPlanned(al: Alphabet, first: Entry, second: Entry) returns (p: Planner)
    requires Casing(al) && !SameContent(first, second.bytes, second.sha256)
    ensures p.Valid() &&
            Made(p.claims) == [(Zeros(255), first.bytes, first.sha256), (Zeros(255), second.bytes, second.sha256)]
    ensures ValidKey(Zeros(255)) && |p.plan.entries| == 2 && !ValidKey(p.plan.entries[1].path)
  {
    p := TwoContents(al, Zeros(255), first, second);
    LongKeyOutgrows();
  }

  lemma OtherAsks(al: Alphabet, key: string, other: string)
    requires Casing(al) && Fold(al, key) == Fold(al, other) && !PartsEqual(al, key, other)
    ensures Asked(Naming(al), other, 1) == Asked(Naming(al), key, 1) &&
            Asked(Naming(al), other, 2) != Asked(Naming(al), key, 2)
  {
    if Fold(al, Variant(key, 2)) == Fold(al, Variant(other, 2)) {
      SecondAsks(al, key, other);
    }
  }

  /** The second content again, under another spelling. */
  method ClaimAgain(p: Planner, key: string, other: string, first: Entry, second: Entry)
    requires p.Valid() && |p.claims| == 2 && p.claims[1].home == 1 && !SameContent(first, second.bytes, second.sha256)
    requires p.plan.entries == [first.(path := p.k.variant(key, 1)), second.(path := p.k.variant(key, 2))]
    requires Asked(p.k, other, 1) == Asked(p.k, key, 1) && Asked(p.k, other, 2) != Asked(p.k, key, 2)
    modifies p
    ensures p.Valid() && |p.claims| == 3 && p.claims[1] == old(p.claims[1]) && p.claims[2].home == 2
    ensures Made(p.claims) == Made(old(p.claims)) + [(other, second.bytes, second.sha256)]
  {
    ghost var p0 := p.plan;
    ghost var c := p.Claim(other, second);
    assert Settled(p.k, p.plan, p.claims[2]);
    ThirdClaim(p.k, p0, p.plan, second, c, key);
  }

  /**
   Keys that compare equal although their stems or extensions do not: one content claimed under both is
   planned twice. Such keys exist (`SigmaSplits`); all others are alike (`AlikeExactly`).
   */
  method PlannedTwice(al: Alphabet, key: string, other: string, first: Entry, second: Entry) returns (p: Planner)
    requires Casing(al) && Fold(al, key) == Fold(al, other) && !PartsEqual(al, key, other)
    requires !SameContent(first, second.bytes, second.sha256)
    ensures p.Valid() && p.k == Naming(al) && |p.claims| == 3 && p.claims[1].home != p.claims[2].home
    ensures Made(p.claims) == [(key, first.bytes, first.sha256), (key, second.bytes, second.sha256),
                               (other, second.bytes, second.sha256)]
  {
    OtherAsks(al, key, other);
    p := TwoContents(al, key, first, second);
    ClaimAgain(p, key, other, first, second);
  }
}
