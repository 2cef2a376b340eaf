/** The two admission gates: a byte-weighted budget and a counting gate, both under a mutex. */
module Admission {
  import opened Wrappers

  datatype GateError = Config | Cancelled | TimedOut

  function Sum(s: seq<nat>): nat {
    if s == [] then 0 else s[0] + Sum(s[1..])
  }

  lemma {:induction false} SumAppend(a: seq<nat>, b: seq<nat>)
    ensures Sum(a + b) == Sum(a) + Sum(b)
  {
    if a == [] {
      assert a + b == b;
    } else {
      SumAppend(a[1..], b);
      assert (a + b)[1..] == a[1..] + b;
    }
  }

  lemma {:induction false} SumRemove(s: seq<nat>, k: nat)
    requires k < |s|
    ensures Sum(s[..k] + s[k + 1..]) + s[k] == Sum(s)
  {
    SumAppend(s[..k], s[k + 1..]);
    SumAppend(s[..k], s[k..]);
    assert s == s[..k] + s[k..];
  }

  function SaturatingSub(a: nat, b: nat): nat {
    if a < b then 0 else a - b
  }

  /** What a request of `bytes` weighs: at least one, and never more than the whole budget. */
  function Weight(bytes: nat, limit: nat): (w: nat)
    requires limit > 0
    ensures 1 <= w <= limit
  {
    var b := if bytes == 0 then 1 else bytes;
    if b < limit then b else limit
  }

  class Budget {
    const limit: nat
    var used: nat
    /** Weights of the permits not yet dropped. */
    ghost var live: seq<nat>

    ghost predicate Valid()
      reads this
    {
      used == Sum(live) && used <= limit && forall k | 0 <= k < |live| :: 1 <= live[k] <= limit
    }

    constructor (limit: nat)
      ensures this.limit == limit && used == 0 && live == [] && Valid()
    {
      this.limit := limit;
      used, live := 0, [];
    }

    /** One pass of the admission loop: admit, give up, or wait. */
    method Poll(bytes: nat, cancelled: bool) returns (r: Result<Option<nat>, GateError>)
      requires Valid()
      modifies this
      ensures Valid()
      ensures match r
              case Failure(e) =>
                (e == Config <==> limit == 0) && (e == Cancelled <==> limit > 0 && cancelled)
                && used == old(used) && live == old(live)
              case Success(None) =>
                limit > 0 && !cancelled && used == old(used) && live == old(live) && Weight(bytes, limit) + used > limit
              case Success(Some(w)) =>
                limit > 0 && !cancelled && w == Weight(bytes, limit)
                && live == old(live) + [w] && used == old(used) + w
      // An idle budget admits a request of any size; an oversized request is then alone.
      ensures limit > 0 && !cancelled && old(live) == [] ==> r.Success? && r.value.Some?
      ensures bytes >= limit && r.Success? && r.value.Some? ==> old(live) == []
    {
      if limit == 0 {
        return Failure(Config);
      }
      var weight := Weight(bytes, limit);
      if cancelled {
        return Failure(Cancelled);
      }
      if weight <= limit - used {
        SumAppend(live, [weight]);
        assert old(live) != [] ==> Sum(live) >= live[0] + 0;
        used := used + weight;
        live := live + [weight];
        return Success(Some(weight));
      }
      return Success(None);
    }

    /** Other threads run while this one waits: anything valid may be found afterwards. */
    method Wait()
      requires Valid()
      modifies this
      ensures Valid()
    {
    }

    /** The admission loop over the readings of the cancel flag; `None` when still waiting after them. */
    method Acquire(bytes: nat, readings: seq<bool>) returns (r: Result<Option<nat>, GateError>)
      requires Valid()
      modifies this
      ensures Valid()
      ensures r.Success? && r.value.Some? ==>
              limit > 0 && r.value.value == Weight(bytes, limit) && r.value.value in live
      ensures r == Failure(Cancelled) ==> limit > 0 && true in readings
      ensures r == Failure(Config) ==> limit == 0
    {
      for i := 0 to |readings|
        invariant Valid()
      {
        r := Poll(bytes, readings[i]);
        if r.Failure? || r.value.Some? {
          if r.Success? { assert live[|live| - 1] == r.value.value; }
          return;
        }
        Wait();
      }
      return Success(None);
    }

    /** Dropping permit `k`: the subtraction never underflows. */
    method Release(weight: nat, ghost k: nat)
      requires Valid() && k < |live| && live[k] == weight
      modifies this
      ensures Valid()
      ensures live == old(live[..k] + live[k + 1..]) && used + weight == old(used)
    {
      SumRemove(live, k);
      ghost var rest := live[..k] + live[k + 1..];
      assert forall i | 0 <= i < |rest| :: rest[i] == if i < k then live[i] else live[i + 1];
      used := used - weight;
      live := rest;
    }
  }

  class Gate {
    var active: nat
    /** Permits not yet dropped. */
    ghost var live: nat

    ghost predicate Valid()
      reads this
    {
      active == live
    }

    constructor ()
      ensures active == 0 && live == 0
    {
      active, live := 0, 0;
    }

    /** One pass of the admission loop, for a caller that may use `limit` permits. */
    method Poll(limit: nat, cancelled: bool, now: int, deadline: int) returns (r: Result<bool, GateError>)
      requires Valid()
      modifies this
      ensures Valid()
      ensures match r
              case Failure(e) =>
                && (e == Config <==> limit == 0)
                && (e == Cancelled <==> limit > 0 && cancelled)
                && (e == TimedOut <==> limit > 0 && !cancelled && now >= deadline)
                && active == old(active)
              case Success(admitted) =>
                && limit > 0 && !cancelled && now < deadline
                && (admitted <==> old(active) < limit)
                && active == old(active) + (if admitted then 1 else 0)
      ensures old(active) <= limit ==> active <= limit
    {
      if limit == 0 {
        return Failure(Config);
      }
      if cancelled {
        return Failure(Cancelled);
      }
      if now >= deadline {
        return Failure(TimedOut);
      }
      if active < limit {
        active, live := active + 1, live + 1;
        return Success(true);
      }
      return Success(false);
    }

    /** Dropping a permit; the saturating subtraction never saturates. */
    method Release()
      requires Valid() && live > 0
      modifies this
      ensures Valid() && active + 1 == old(active) && live + 1 == old(live)
    {
      active := SaturatingSub(active, 1);
      live := live - 1;
    }
  }
}
