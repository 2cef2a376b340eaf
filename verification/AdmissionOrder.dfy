/** Workers of any exports take nested permits in rank order, so they never block each other. */
module AdmissionOrder {
  import opened Admission

  datatype Kind = Bundle | Acb | Usm | Image | Hca | AudioEncode | VideoEncode | Media | Cpu

  /** A gate or budget of one export job, or one the service shares between its jobs. */
  datatype Resource = Local(owner: nat, kind: Kind) | Shared(kind: Kind)

  const TOP: nat := 8

  function Rank(r: Resource): (n: nat)
    ensures n <= TOP
  {
    match r.kind
    case Bundle => if r.Local? then 0 else 1
    case Acb => 2
    case Usm => 2
    case Image => 2
    case Hca => 3
    case AudioEncode => 4
    case VideoEncode => 4
    case Media => if r.Local? then 5 else 6
    case Cpu => if r.Local? then 7 else 8
  }

  datatype Instr = Acquire(res: Resource, bytes: nat) | Release(res: Resource) | Work

  /** A thread: the weights it holds and the instructions it has left. */
  datatype Worker = Worker(held: map<Resource, nat>, todo: seq<Instr>)

  ghost predicate Positive(limit: Resource -> nat) {
    forall r :: limit(r) > 0
  }

  /** Every acquisition left is above all that will be held then, and everything gets released. */
  predicate Ranked(held: map<Resource, nat>, todo: seq<Instr>, limit: Resource -> nat)
    decreases |todo|
  {
    if todo == [] then held == map[]
    else
      match todo[0]
      case Acquire(r, bytes) =>
        && limit(r) > 0
        && (forall h | h in held :: Rank(h) < Rank(r))
        && Ranked(held[r := Weight(bytes, limit(r))], todo[1..], limit)
      case Release(r) => r in held && Ranked(held - {r}, todo[1..], limit)
      case Work => Ranked(held, todo[1..], limit)
  }

  // ---- The interleaved system ------------------------------------------------------------------

  function Held(w: Worker, r: Resource): nat {
    if r in w.held then w.held[r] else 0
  }

  /** What a gate counts as used: the weights of all live permits. */
  function Used(ws: seq<Worker>, r: Resource): nat {
    if ws == [] then 0 else Held(ws[0], r) + Used(ws[1..], r)
  }

  ghost predicate Inv(ws: seq<Worker>, limit: Resource -> nat) {
    && Positive(limit)
    && (forall r :: Used(ws, r) <= limit(r))
    && (forall i | 0 <= i < |ws| :: Ranked(ws[i].held, ws[i].todo, limit))
    && (forall i, r | 0 <= i < |ws| && r in ws[i].held :: 1 <= ws[i].held[r])
  }

  /** Whether worker `i` can take its next step without waiting. */
  predicate Enabled(ws: seq<Worker>, i: nat, limit: Resource -> nat)
    requires i < |ws|
  {
    ws[i].todo != [] &&
    (ws[i].todo[0].Acquire? ==>
       var r := ws[i].todo[0].res;
       limit(r) > 0 && Weight(ws[i].todo[0].bytes, limit(r)) + Used(ws, r) <= limit(r))
  }

  /** A worker's own next state. */
  function Advance(w: Worker, limit: Resource -> nat): Worker
    requires w.todo != [] && Ranked(w.held, w.todo, limit)
  {
    match w.todo[0]
    case Acquire(r, bytes) => Worker(w.held[r := Weight(bytes, limit(r))], w.todo[1..])
    case Release(r) => Worker(w.held - {r}, w.todo[1..])
    case Work => Worker(w.held, w.todo[1..])
  }

  function Step(ws: seq<Worker>, i: nat, limit: Resource -> nat): seq<Worker>
    requires i < |ws| && ws[i].todo != [] && Ranked(ws[i].held, ws[i].todo, limit)
  {
    ws[i := Advance(ws[i], limit)]
  }

  /** The permits of `held` dropped in the order `unwind`: an error, a cancellation or a timeout. */
  predicate Unwinds(held: map<Resource, nat>, unwind: seq<Instr>) {
    if unwind == [] then held == map[]
    else unwind[0].Release? && unwind[0].res in held && Unwinds(held - {unwind[0].res}, unwind[1..])
  }

  /** Worker `i` abandons its resource, drops its permits and turns to other resources, `next`. */
  function Abandon(ws: seq<Worker>, i: nat, unwind: seq<Instr>, next: seq<Instr>): seq<Worker>
    requires i < |ws|
  {
    ws[i := ws[i].(todo := unwind + next)]
  }

  function Remaining(ws: seq<Worker>): nat {
    if ws == [] then 0 else |ws[0].todo| + Remaining(ws[1..])
  }

  // ---- Sums over workers -----------------------------------------------------------------------

  lemma {:induction false} UsedUpdate(ws: seq<Worker>, i: nat, w: Worker, r: Resource)
    requires i < |ws|
    ensures Used(ws[i := w], r) + Held(ws[i], r) == Used(ws, r) + Held(w, r)
    ensures Remaining(ws[i := w]) + |ws[i].todo| == Remaining(ws) + |w.todo|
  {
    if i == 0 {
      assert ws[0 := w][1..] == ws[1..];
    } else {
      UsedUpdate(ws[1..], i - 1, w, r);
      assert ws[i := w][1..] == ws[1..][i - 1 := w];
    }
  }

  /** Whenever a gate is in use, some worker holds a permit of it. */
  lemma {:induction false} Holder(ws: seq<Worker>, r: Resource) returns (i: nat)
    requires Used(ws, r) > 0
    ensures i < |ws| && r in ws[i].held
  {
    if r in ws[0].held {
      i := 0;
    } else {
      var k := Holder(ws[1..], r);
      i := k + 1;
    }
  }

  lemma {:induction false} UsedCovers(ws: seq<Worker>, i: nat, r: Resource)
    requires i < |ws|
    ensures Held(ws[i], r) <= Used(ws, r)
  {
    if i > 0 {
      UsedCovers(ws[1..], i - 1, r);
    }
  }

  // ---- Safety ----------------------------------------------------------------------------------

  /** Admission never exceeds a limit, and dropping a permit never underflows. */
  lemma StepKeeps(ws: seq<Worker>, i: nat, limit: Resource -> nat)
    requires Inv(ws, limit) && i < |ws| && Enabled(ws, i, limit)
    ensures Inv(Step(ws, i, limit), limit)
    ensures Remaining(Step(ws, i, limit)) == Remaining(ws) - 1
    ensures ws[i].todo[0].Release? ==> Held(ws[i], ws[i].todo[0].res) <= Used(ws, ws[i].todo[0].res)
  {
    var w := Advance(ws[i], limit);
    var next := Step(ws, i, limit);
    forall r ensures Used(next, r) <= limit(r) {
      UsedUpdate(ws, i, w, r);
      UsedCovers(ws, i, r);
    }
    UsedUpdate(ws, i, w, Shared(Cpu));
    if ws[i].todo[0].Release? {
      UsedCovers(ws, i, ws[i].todo[0].res);
    }
  }

  lemma {:induction false} UnwindRanked(held: map<Resource, nat>, unwind: seq<Instr>, next: seq<Instr>,
                                        limit: Resource -> nat)
    requires Unwinds(held, unwind) && Ranked(map[], next, limit)
    ensures Ranked(held, unwind + next, limit)
    decreases |unwind|
  {
    if unwind == [] {
      assert unwind + next == next;
    } else {
      UnwindRanked(held - {unwind[0].res}, unwind[1..], next, limit);
      assert (unwind + next)[1..] == unwind[1..] + next;
    }
  }

  /** Errors, cancellations and timeouts at any point keep every worker's order. */
  lemma AbandonKeeps(ws: seq<Worker>, i: nat, unwind: seq<Instr>, next: seq<Instr>, limit: Resource -> nat)
    requires Inv(ws, limit) && i < |ws| && Unwinds(ws[i].held, unwind) && Ranked(map[], next, limit)
    ensures Inv(Abandon(ws, i, unwind, next), limit)
  {
    UnwindRanked(ws[i].held, unwind, next, limit);
    var after := Abandon(ws, i, unwind, next);
    forall r ensures Used(after, r) <= limit(r) {
      UsedUpdate(ws, i, after[i], r);
    }
  }

  // ---- Deadlock freedom ------------------------------------------------------------------------

  /** A waiting worker leads, through ever higher ranks, to one that can step. */
  lemma {:induction false} FindEnabled(ws: seq<Worker>, i: nat, limit: Resource -> nat) returns (j: nat)
    requires Inv(ws, limit) && i < |ws| && ws[i].todo != []
    ensures j < |ws| && Enabled(ws, j, limit)
    decreases TOP - (if ws[i].todo[0].Acquire? then Rank(ws[i].todo[0].res) else TOP)
  {
    if Enabled(ws, i, limit) {
      j := i;
    } else {
      var h := Holder(ws, ws[i].todo[0].res);
      assert Ranked(ws[h].held, ws[h].todo, limit);
      if Enabled(ws, h, limit) {
        j := h;
      } else {
        j := FindEnabled(ws, h, limit);
      }
    }
  }

  /** In every reachable interleaving, unfinished work means somebody can step, timeouts aside. */
  lemma NoDeadlock(ws: seq<Worker>, limit: Resource -> nat)
    requires Inv(ws, limit) && exists i | 0 <= i < |ws| :: ws[i].todo != []
    ensures exists j | 0 <= j < |ws| :: Enabled(ws, j, limit)
  {
    var i :| 0 <= i < |ws| && ws[i].todo != [];
    var j := FindEnabled(ws, i, limit);
  }

  /** A schedule: each worker named can step when its turn comes. */
  ghost predicate Schedule(ws: seq<Worker>, turns: seq<nat>, limit: Resource -> nat)
    decreases |turns|
  {
    turns == [] ||
    (turns[0] < |ws| && Inv(ws, limit) && Enabled(ws, turns[0], limit) &&
        Schedule(Step(ws, turns[0], limit), turns[1..], limit))
  }

  ghost function After(ws: seq<Worker>, turns: seq<nat>, limit: Resource -> nat): seq<Worker>
    requires Schedule(ws, turns, limit)
    decreases |turns|
  {
    if turns == [] then ws else After(Step(ws, turns[0], limit), turns[1..], limit)
  }

  /**
   Whatever the scheduler does, it can do at most as many steps as there are instructions; and a
   schedule it cannot extend has run every worker to its end with every gate idle.
   */
  lemma {:induction false} EverySchedule(ws: seq<Worker>, turns: seq<nat>, limit: Resource -> nat)
    requires Inv(ws, limit) && Schedule(ws, turns, limit)
    ensures |turns| + Remaining(After(ws, turns, limit)) == Remaining(ws)
    ensures Inv(After(ws, turns, limit), limit)
    ensures |After(ws, turns, limit)| == |ws|
    ensures (forall j | 0 <= j < |ws| :: !Enabled(After(ws, turns, limit), j, limit)) ==>
              && |turns| == Remaining(ws)
              && (forall i | 0 <= i < |ws| :: After(ws, turns, limit)[i] == Worker(map[], []))
              && (forall r :: Used(After(ws, turns, limit), r) == 0)
    decreases |turns|
  {
    if turns == [] {
      if forall j | 0 <= j < |ws| :: !Enabled(ws, j, limit) {
        StuckIsDone(ws, limit);
      }
    } else {
      StepKeeps(ws, turns[0], limit);
      EverySchedule(Step(ws, turns[0], limit), turns[1..], limit);
    }
  }

  lemma StuckIsDone(ws: seq<Worker>, limit: Resource -> nat)
    requires Inv(ws, limit) && forall j | 0 <= j < |ws| :: !Enabled(ws, j, limit)
    ensures forall i | 0 <= i < |ws| :: ws[i] == Worker(map[], [])
    ensures Remaining(ws) == 0 && forall r :: Used(ws, r) == 0
  {
    forall i | 0 <= i < |ws| ensures ws[i] == Worker(map[], []) {
      assert ws[i].todo == [] by {
        if exists k | 0 <= k < |ws| :: ws[k].todo != [] {
          NoDeadlock(ws, limit);
        }
      }
      assert Ranked(ws[i].held, ws[i].todo, limit);
    }
    forall r ensures Used(ws, r) == 0 {
      IdleUses(ws, r);
    }
    IdleUses(ws, Shared(Cpu));
  }

  lemma {:induction false} IdleUses(ws: seq<Worker>, r: Resource)
    requires forall i | 0 <= i < |ws| :: ws[i] == Worker(map[], [])
    ensures Used(ws, r) == 0 && Remaining(ws) == 0
  {
    if ws != [] {
      IdleUses(ws[1..], r);
    }
  }
}
