/** Whole runs of the service: calls, failed writes, crashes, restarts, and delivery loops. */
module JobRuns {
  import opened Wrappers
  import opened Seqs
  import opened JobModel
  import opened JobInvariant
  import opened JobProperties

  /** A delivery loop between reading the outbox and acknowledging: the event it holds. */
  datatype Sending = Sending(jobId: string, taken: bool)

  /** A job start, by the number of the submission that created the job. */
  datatype Start = Start(region: Region, ticket: nat)

  /** A finish that reached the disk, with the targets then configured. */
  datatype Ending = Ending(job: Job, targets: seq<Target>)

  datatype Ack = Ack(jobId: string, target: string)

  /**
   The file, the live process, and the history of the run: every id ever drawn with its number,
   starts and finishes that were persisted, receivers' acceptances, persisted acknowledgements.
   */
  datatype Sys = Sys(
    disk: Ledger, live: Option<Store>, targets: seq<Target>, tickets: map<string, nat>, issued: nat,
    started: seq<Start>, endings: seq<Ending>, sending: map<string, Sending>, accepted: set<Ack>, acked: seq<Ack>)

  const INITIAL := Sys(EMPTY, None, [], map[], 0, [], [], map[], {}, [])

  /** What becomes of an attempt to replace the file. */
  datatype Fate = Persisted | Lost | CrashBefore | CrashAfter {
    predicate Reached() {
      Persisted? || CrashAfter?
    }

    predicate Crashes() {
      CrashBefore? || CrashAfter?
    }
  }

  datatype Event =
    | Boot(limits: Limits, clock: nat -> int, targets: seq<Target>, fate: Fate)
    | Call(action: Action, fate: Fate)
    | BeginSend(target: string)
    | Taken(target: string)
    | NotTaken(target: string, reached: bool)
    | SendAck(target: string, fate: Fate)
    | Crash

  // ---- What a receiver is owed -----------------------------------------------------------------

  /** Jobs whose deliveries still list target `t`, in outbox order. */
  function PendingFor(box: seq<Delivery>, t: string): seq<string> {
    if box == [] then []
    else
      var d := box[|box| - 1];
      PendingFor(box[..|box| - 1], t) + if t in d.pending then [d.event.jobId] else []
  }

  /** Jobs whose persisted completion was addressed to `t`, in completion order. */
  function Addressed(endings: seq<Ending>, t: string): seq<string> {
    if endings == [] then []
    else
      var e := endings[|endings| - 1];
      Addressed(endings[..|endings| - 1], t) +
      if Owes(e.targets, e.job) && t in Recipients(e.targets, e.job.request.region) then [e.job.id] else []
  }

  function AckedBy(acked: seq<Ack>, t: string): seq<string> {
    if acked == [] then []
    else
      var a := acked[|acked| - 1];
      AckedBy(acked[..|acked| - 1], t) + if a.target == t then [a.jobId] else []
  }

  // ---- Steps -----------------------------------------------------------------------------------

  /** Fresh means unlike every id ever drawn, also those of jobs long dropped. */
  predicate Enabled(w: World, s: Sys, e: Event) {
    match e
    case Boot(_, _, _, _) => s.live.None?
    case Call(a, _) =>
      && s.live.Some? && !a.Acknowledge?
      && (DrawnId(a).Some? ==> w.isUuid(DrawnId(a).value) && DrawnId(a).value !in s.tickets)
    case BeginSend(t) =>
      s.live.Some? && t !in s.sending && (exists x | x in s.targets :: x.identity == t) &&
          PendingFor(s.disk.completions, t) != []
    case Taken(t) => s.live.Some? && t in s.sending && !s.sending[t].taken
    case NotTaken(t, _) => s.live.Some? && t in s.sending && !s.sending[t].taken
    case SendAck(t, _) => s.live.Some? && t in s.sending && s.sending[t].taken
    case Crash => s.live.Some?
  }

  function Down(s: Sys): Sys {
    s.(live := None, sending := map[])
  }

  function Draw(s: Sys, a: Action): Sys {
    if DrawnId(a).Some? then s.(tickets := s.tickets[DrawnId(a).value := s.issued], issued := s.issued + 1) else s
  }

  /** The state once a write reached the disk, with its history entry. */
  function Wrote(s: Sys, st: Store, a: Action, x: Write): Sys {
    var s1 := s.(disk := x.ledger, live := Some(st.(ledger := x.ledger)));
    match (a, x.job)
    case (Claim(_), Some(job)) =>
      if job.id in s.tickets then s1.(started := s.started + [Start(job.request.region, s.tickets[job.id])]) else s1
    case (Finish(_, _, _, _), Some(job)) => s1.(endings := s.endings + [Ending(job, st.targets)])
    case (Acknowledge(jobId, target), _) => s1.(acked := s.acked + [Ack(jobId, target)])
    case _ => s1
  }

  function Invoke(w: World, s: Sys, st: Store, a: Action, fate: Fate): Sys {
    var s1 := Draw(s, a);
    var s2 := match Written(w, st, a)
              case Some(x) => if fate.Reached() then Wrote(s1, st, a, x) else s1
              case None => s1;
    if fate.Crashes() then Down(s2) else s2
  }

  /** Opening the file and configuring targets, as the service does before anything else. */
  function BootUp(w: World, s: Sys, limits: Limits, clock: nat -> int, targets: seq<Target>, fate: Fate): Sys {
    match Open(w, s.disk, limits, clock, fate.Reached())
    case Failure(_) => s
    case Success(st) =>
      var s1 := s.(disk := st.ledger);
      if fate.Crashes() then s1
      else
        match Configure(st, targets)
        case Failure(_) => s1
        case Success(up) => s1.(live := Some(up), targets := targets)
  }

  function Next(w: World, s: Sys, e: Event): Sys
    requires Enabled(w, s, e)
  {
    match e
    case Boot(limits, clock, targets, fate) => BootUp(w, s, limits, clock, targets, fate)
    case Call(a, fate) => Invoke(w, s, s.live.value, a, fate)
    case BeginSend(t) => s.(sending := s.sending[t := Sending(PendingFor(s.disk.completions, t)[0], false)])
    case Taken(t) =>
      s.(accepted := s.accepted + {Ack(s.sending[t].jobId, t)}, sending := s.sending[t := s.sending[t].(taken := true)])
    case NotTaken(t, reached) =>
      s.(accepted := if reached then s.accepted + {Ack(s.sending[t].jobId, t)} else s.accepted,
         sending := s.sending - {t})
    case SendAck(t, fate) =>
      var s1 := Invoke(w, s, s.live.value, Acknowledge(s.sending[t].jobId, t), fate);
      s1.(sending := s1.sending - {t})
    case Crash => Down(s)
  }

  ghost predicate Run(w: World, states: seq<Sys>, events: seq<Event>) {
    && |states| == |events| + 1
    && states[0] == INITIAL
    && forall i | 0 <= i < |events| ::
        Enabled(w, states[i], events[i]) && states[i + 1] == Next(w, states[i], events[i])
  }

  // ---- The invariant of runs -------------------------------------------------------------------

  predicate Storage(w: World, disk: Ledger, live: Option<Store>, targets: seq<Target>) {
    && Sound(w, disk)
    && ValidTargets(targets)
    && Capacity(disk, targets)
    && (live.Some? ==> live.value.ledger == disk && live.value.targets == targets && Inv(w, live.value))
  }

  predicate Ticketed(jobs: seq<Job>, tickets: map<string, nat>) {
    && (forall i | 0 <= i < |jobs| :: jobs[i].id in tickets)
    && (forall i, k | 0 <= i < k < |jobs| :: tickets[jobs[i].id] < tickets[jobs[k].id])
  }

  predicate BoxTicketed(box: seq<Delivery>, tickets: map<string, nat>) {
    forall d | 0 <= d < |box| :: box[d].event.jobId in tickets
  }

  /** Every id in the file was drawn once, and the list is in submission order. */
  predicate Numbered(disk: Ledger, tickets: map<string, nat>, issued: nat) {
    && (forall id | id in tickets :: tickets[id] < issued)
    && Ticketed(disk.jobs, tickets)
    && BoxTicketed(disk.completions, tickets)
  }

  /** Whoever still waits in a region was submitted after everyone who started there. */
  predicate Later(started: seq<Start>, jobs: seq<Job>, tickets: map<string, nat>) {
    forall a, j | 0 <= a < |started| && j in jobs ::
      j.status.Queued? && j.request.region == started[a].region ==> j.id in tickets && started[a].ticket < tickets[j.id]
  }

  /** Within a region, starts follow submission order. */
  predicate InOrder(started: seq<Start>, jobs: seq<Job>, tickets: map<string, nat>, issued: nat) {
    && (forall a | 0 <= a < |started| :: started[a].ticket < issued)
    && (forall a, b | 0 <= a < b < |started| :: started[a].region == started[b].region ==>
        started[a].ticket < started[b].ticket)
    && Later(started, jobs, tickets)
  }

  /** What a receiver acknowledged, then what it is still owed, is exactly what was addressed to it. */
  ghost predicate Conserved(box: seq<Delivery>, endings: seq<Ending>, acked: seq<Ack>) {
    forall t :: AckedBy(acked, t) + PendingFor(box, t) == Addressed(endings, t)
  }

  /** Each delivery loop holds the first event owed to its receiver. */
  predicate InFlight(box: seq<Delivery>, sending: map<string, Sending>, accepted: set<Ack>) {
    forall t | t in sending ::
      && HexDigest(t)
      && PendingFor(box, t) != []
      && PendingFor(box, t)[0] == sending[t].jobId
      && (sending[t].taken ==> Ack(sending[t].jobId, t) in accepted)
  }

  ghost predicate SysInv(w: World, s: Sys) {
    && Storage(w, s.disk, s.live, s.targets)
    && Numbered(s.disk, s.tickets, s.issued)
    && InOrder(s.started, s.disk.jobs, s.tickets, s.issued)
    && Conserved(s.disk.completions, s.endings, s.acked)
    && InFlight(s.disk.completions, s.sending, s.accepted)
    && (forall a | a in s.acked :: a in s.accepted)
    && (s.live.None? ==> s.sending == map[])
  }

  // ---- The outbox, receiver by receiver --------------------------------------------------------

  lemma {:induction false} PendingAppend(a: seq<Delivery>, b: seq<Delivery>, t: string)
    ensures PendingFor(a + b, t) == PendingFor(a, t) + PendingFor(b, t)
  {
    if b == [] {
      assert a + b == a;
    } else {
      PendingAppend(a, b[..|b| - 1], t);
      assert (a + b)[..|a + b| - 1] == a + b[..|b| - 1];
    }
  }

  lemma {:induction false} PendingMembers(box: seq<Delivery>, t: string)
    ensures forall id :: id in PendingFor(box, t) <==>
            exists k | 0 <= k < |box| :: t in box[k].pending && box[k].event.jobId == id
  {
    if box != [] {
      var init := box[..|box| - 1];
      PendingMembers(init, t);
      assert forall k | 0 <= k < |init| :: init[k] == box[k];
    }
  }

  lemma {:induction false} PendingSkipsEmpty(box: seq<Delivery>, t: string)
    ensures PendingFor(Filter(box, HasPending()), t) == PendingFor(box, t)
  {
    if box != [] {
      var init, d := box[..|box| - 1], box[|box| - 1];
      PendingSkipsEmpty(init, t);
      if HasPending()(d) {
        PendingAppend(Filter(init, HasPending()), [d], t);
        assert [d][..0] == [];
      } else {
        assert Filter(box, HasPending()) == Filter(init, HasPending());
      }
    }
  }

  /** Taking `t` off one delivery changes only what `t` is owed. */
  lemma {:induction false} TrimmedPending(box: seq<Delivery>, i: nat, t: string, u: string)
    requires i < |box| && t in box[i].pending
    ensures var before, rest := PendingFor(box[..i], u), PendingFor(box[i + 1..], u);
            && PendingFor(Trimmed(box, i, t), u) ==
                before + (if u in box[i].pending && u != t then [box[i].event.jobId] else []) + rest
            && PendingFor(box, u) == before + (if u in box[i].pending then [box[i].event.jobId] else []) + rest
  {
    var d := box[i].(pending := Filter(box[i].pending, NotIdentity(t)));
    PendingSplit(box, i, box[i], u);
    PendingSplit(box, i, d, u);
    assert box[i := box[i]] == box;
    FilterMembers(box[i].pending, NotIdentity(t));
    assert u in d.pending <==> u in box[i].pending && u != t;
  }

  lemma {:induction false} PendingSplit(box: seq<Delivery>, i: nat, d: Delivery, u: string)
    requires i < |box|
    ensures PendingFor(box[i := d], u) ==
            PendingFor(box[..i], u) + (if u in d.pending then [d.event.jobId] else []) + PendingFor(box[i + 1..], u)
  {
    assert box[i := d] == box[..i] + [d] + box[i + 1..];
    PendingAppend(box[..i] + [d], box[i + 1..], u);
    PendingAppend(box[..i], [d], u);
    assert [d][..0] == [];
  }

  predicate DistinctEvents(box: seq<Delivery>) {
    forall a, b | 0 <= a < b < |box| :: box[a].event.jobId != box[b].event.jobId
  }

  /** An acknowledgement by `t` of the first delivery owed to it removes that one and no other. */
  lemma {:induction false} AcknowledgePending(box: seq<Delivery>, i: nat, t: string, u: string)
    requires i < |box| && t in box[i].pending
    requires DistinctEvents(box)
    requires PendingFor(box, t) != [] && PendingFor(box, t)[0] == box[i].event.jobId
    ensures PendingFor(Acknowledged(box, i, t), u) == if u == t then PendingFor(box, t)[1..] else PendingFor(box, u)
  {
    PendingSkipsEmpty(Trimmed(box, i, t), u);
    assert Acknowledged(box, i, t) == Filter(Trimmed(box, i, t), HasPending());
    TrimmedPending(box, i, t, u);
    if u == t {
      NoneBefore(box, i, t);
    }
  }

  lemma NothingBefore(before: seq<string>, x: string, rest: seq<string>)
    requires x !in before && (before + [x] + rest)[0] == x
    ensures before == []
  {
  }

  lemma NoneBefore(box: seq<Delivery>, i: nat, t: string)
    requires i < |box| && t in box[i].pending
    requires DistinctEvents(box)
    requires PendingFor(box, t) != [] && PendingFor(box, t)[0] == box[i].event.jobId
    ensures PendingFor(box[..i], t) == []
  {
    PendingSplit(box, i, box[i], t);
    assert box[i := box[i]] == box;
    PendingMembers(box[..i], t);
    var before := PendingFor(box[..i], t);
    NothingBefore(before, box[i].event.jobId, PendingFor(box[i + 1..], t));
  }

  lemma {:induction false} AckedAppend(acked: seq<Ack>, a: Ack, t: string)
    ensures AckedBy(acked + [a], t) == AckedBy(acked, t) + if a.target == t then [a.jobId] else []
  {
    assert (acked + [a])[..|acked|] == acked;
  }

  lemma {:induction false} AddressedAppend(endings: seq<Ending>, e: Ending, t: string)
    ensures Addressed(endings + [e], t) == Addressed(endings, t) + PendingFor(Owed(e.targets, e.job), t)
  {
    assert (endings + [e])[..|endings|] == endings;
    if Owes(e.targets, e.job) {
      assert [DeliveryOf(e.targets, e.job)][..0] == [];
    }
  }

  // ---- Each part of the invariant across one write ---------------------------------------------

  lemma {:induction false} TicketedFilter(jobs: seq<Job>, keep: nat, tickets: map<string, nat>)
    requires Ticketed(jobs, tickets)
    ensures Ticketed(Retain(jobs, keep), tickets)
  {
    if keep > 0 {
      var p := Kept(Expired(jobs, keep));
      var at := Positions(jobs, p);
      var kept := Filter(jobs, p);
      forall i, k | 0 <= i < k < |kept| ensures tickets[kept[i].id] < tickets[kept[k].id] {
        assert kept[i] == jobs[at[i]] && kept[k] == jobs[at[k]] && at[i] < at[k];
      }
    }
  }

  /** Position by position the same jobs, perhaps moved on, and perhaps one more at the end. */
  ghost predicate Grown(jobs: seq<Job>, next: seq<Job>, drawn: Option<string>) {
    && |jobs| <= |next| <= |jobs| + 1
    && (forall i | 0 <= i < |jobs| :: Evolves(jobs[i], next[i]))
    && (|next| > |jobs| ==> drawn == Some(next[|jobs|].id))
  }

  predicate Renewed(tickets: map<string, nat>, issued: nat, drawn: Option<string>, after: map<string, nat>) {
    && (forall id | id in tickets :: tickets[id] < issued)
    && after == (if drawn.Some? then tickets[drawn.value := issued] else tickets)
    && (drawn.Some? ==> drawn.value !in tickets)
  }

  lemma GrownTicketed(jobs: seq<Job>, next: seq<Job>, drawn: Option<string>, tickets: map<string, nat>, issued: nat,
                      after: map<string, nat>)
    requires Grown(jobs, next, drawn) && Renewed(tickets, issued, drawn, after) && Ticketed(jobs, tickets)
    ensures Ticketed(next, after)
  {
    forall i | 0 <= i < |jobs| ensures next[i].id in after && after[next[i].id] == tickets[jobs[i].id] {
      assert Evolves(jobs[i], next[i]);
    }
  }

  lemma GrownLater(
      jobs: seq<Job>, next: seq<Job>, drawn: Option<string>, tickets: map<string, nat>, issued: nat,
          after: map<string, nat>,
      started: seq<Start>, kept: seq<Job>)
    requires Grown(jobs, next, drawn) && Renewed(tickets, issued, drawn, after) && Ticketed(jobs, tickets)
    requires InOrder(started, jobs, tickets, issued)
    requires forall k | k in kept :: k in next
    ensures Later(started, kept, after)
  {
    forall a, k | 0 <= a < |started| && k in kept && k.status.Queued? && k.request.region == started[a].region
      ensures k.id in after && started[a].ticket < after[k.id]
    {
      var i :| 0 <= i < |next| && next[i] == k;
      if i < |jobs| {
        assert Evolves(jobs[i], next[i]);
        assert jobs[i] in jobs;
      }
    }
  }

  /** A claim starts the earliest submission still waiting in its region. */
  lemma ClaimLater(jobs: seq<Job>, next: seq<Job>, job: Job, tickets: map<string, nat>, kept: seq<Job>)
    requires Ticketed(jobs, tickets) && StartsFirst(jobs, job, next)
    requires forall k | k in kept :: k in next
    ensures job.id in tickets && exists i | 0 <= i < |jobs| :: jobs[i].status.Queued? && SameIdentity(jobs[i], job)
    ensures Later([Start(job.request.region, tickets[job.id])], kept, tickets)
  {
    var i :| 0 <= i < |jobs| && jobs[i].status.Queued? && job.status.Running? && SameIdentity(jobs[i], job)
             && next == jobs[i := job]
             && (forall k | 0 <= k < i && jobs[k].status.Queued? :: jobs[k].request.region != job.request.region);
    forall k | k in kept && k.status.Queued? && k.request.region == job.request.region
      ensures k.id in tickets && tickets[job.id] < tickets[k.id]
    {
      var n :| 0 <= n < |next| && next[n] == k;
      assert i < n;
    }
  }

  lemma InOrderAppend(started: seq<Start>, x: Start, jobs: seq<Job>, tickets: map<string, nat>, issued: nat)
    requires InOrder(started, jobs, tickets, issued) && Later([x], jobs, tickets) && x.ticket < issued
    requires forall a | 0 <= a < |started| && started[a].region == x.region :: started[a].ticket < x.ticket
    ensures InOrder(started + [x], jobs, tickets, issued)
  {
    var s := started + [x];
    forall a, j | 0 <= a < |s| && j in jobs && j.status.Queued? && j.request.region == s[a].region
      ensures j.id in tickets && s[a].ticket < tickets[j.id]
    {
      if a < |started| { assert s[a] == started[a]; } else { assert s[a] == [x][0]; }
    }
  }

  lemma {:induction false} AckBoxTicketed(box: seq<Delivery>, i: nat, t: string, tickets: map<string, nat>)
    requires i < |box| && BoxTicketed(box, tickets)
    ensures BoxTicketed(Acknowledged(box, i, t), tickets)
  {
    var after := Acknowledged(box, i, t);
    var at := Positions(Trimmed(box, i, t), HasPending());
    forall d | 0 <= d < |after| ensures after[d].event.jobId in tickets {
      assert after[d].event == box[at[d]].event;
    }
  }

  /** A persisted finish moves both sides of the balance alike. */
  lemma FinishConserves(box: seq<Delivery>, endings: seq<Ending>, acked: seq<Ack>, e: Ending)
    requires Conserved(box, endings, acked)
    ensures Conserved(box + Owed(e.targets, e.job), endings + [e], acked)
  {
    forall t ensures AckedBy(acked, t) + PendingFor(box + Owed(e.targets, e.job), t) == Addressed(endings + [e], t) {
      assert AckedBy(acked, t) + PendingFor(box, t) == Addressed(endings, t);
      PendingAppend(box, Owed(e.targets, e.job), t);
      AddressedAppend(endings, e, t);
    }
  }

  /** A persisted acknowledgement moves its event from owed to acknowledged, at the boundary. */
  lemma AckConserves(box: seq<Delivery>, endings: seq<Ending>, acked: seq<Ack>, i: nat, a: Ack)
    requires Conserved(box, endings, acked) && i < |box| && a.target in box[i].pending && box[i].event.jobId == a.jobId
    requires DistinctEvents(box)
    requires PendingFor(box, a.target) != [] && PendingFor(box, a.target)[0] == a.jobId
    ensures Conserved(Acknowledged(box, i, a.target), endings, acked + [a])
  {
    forall t ensures AckedBy(acked + [a], t) + PendingFor(Acknowledged(box, i, a.target), t) == Addressed(endings, t) {
      AckBalance(box, acked, i, a, t);
      assert AckedBy(acked, t) + PendingFor(box, t) == Addressed(endings, t);
    }
  }

  lemma AckBalance(box: seq<Delivery>, acked: seq<Ack>, i: nat, a: Ack, t: string)
    requires i < |box| && a.target in box[i].pending && box[i].event.jobId == a.jobId && DistinctEvents(box)
    requires PendingFor(box, a.target) != [] && PendingFor(box, a.target)[0] == a.jobId
    ensures AckedBy(acked + [a], t) + PendingFor(Acknowledged(box, i, a.target), t) ==
            AckedBy(acked, t) + PendingFor(box, t)
  {
    AckedAppend(acked, a, t);
    AcknowledgePending(box, i, a.target, t);
    var done, owed := AckedBy(acked, t), PendingFor(box, t);
    if t == a.target {
      Regroup(done, owed);
      assert AckedBy(acked + [a], t) == done + [owed[0]];
    } else {
      assert AckedBy(acked + [a], t) == done;
    }
  }

  lemma Regroup(done: seq<string>, owed: seq<string>)
    requires owed != []
    ensures done + [owed[0]] + owed[1..] == done + owed
  {
  }

  lemma FinishInFlight(box: seq<Delivery>, more: seq<Delivery>, sending: map<string, Sending>, accepted: set<Ack>)
    requires InFlight(box, sending, accepted)
    ensures InFlight(box + more, sending, accepted)
  {
    forall t | t in sending ensures PendingFor(box, t) <= PendingFor(box + more, t) {
      PendingAppend(box, more, t);
    }
  }

  lemma AckInFlight(box: seq<Delivery>, i: nat, a: Ack, sending: map<string, Sending>, accepted: set<Ack>)
    requires InFlight(box, sending, accepted) && i < |box| && a.target in box[i].pending &&
             box[i].event.jobId == a.jobId
    requires DistinctEvents(box)
    requires a.target in sending && sending[a.target].jobId == a.jobId
    ensures InFlight(Acknowledged(box, i, a.target), sending - {a.target}, accepted)
  {
    forall t | t in sending && t != a.target
      ensures PendingFor(Acknowledged(box, i, a.target), t) == PendingFor(box, t)
    {
      AcknowledgePending(box, i, a.target, t);
    }
  }

  // ---- One write -------------------------------------------------------------------------------

  predicate Draws(w: World, s: Sys, a: Action) {
    DrawnId(a).Some? ==> w.isUuid(DrawnId(a).value) && DrawnId(a).value !in s.tickets
  }

  lemma FreshForLedger(w: World, s: Sys, a: Action)
    requires Numbered(s.disk, s.tickets, s.issued) && Draws(w, s, a)
    ensures Fresh(w, s.disk, a)
  {
  }

  /** The state after a write reached the disk; a delivery loop that acknowledged is idle again. */
  function After(s: Sys, a: Action, x: Write): Sys
    requires s.live.Some?
  {
    Released(Wrote(Draw(s, a), s.live.value, a, x), a)
  }

  function Released(s: Sys, a: Action): Sys {
    if a.Acknowledge? then s.(sending := s.sending - {a.target}) else s
  }

  predicate HoldsEvent(s: Sys, a: Action) {
    a.Acknowledge? ==> a.target in s.sending && s.sending[a.target] == Sending(a.jobId, true)
  }

  lemma OrderKept(
      jobs: seq<Job>, next: seq<Job>, keep: nat, drawn: Option<string>, tickets: map<string, nat>, issued: nat,
      after: map<string, nat>, started: seq<Start>)
    requires Grown(jobs, next, drawn) && Renewed(tickets, issued, drawn, after) && Ticketed(jobs, tickets)
    requires InOrder(started, jobs, tickets, issued) && forall j | j in Retain(next, keep) :: j in next
    ensures Ticketed(Retain(next, keep), after)
    ensures InOrder(started, Retain(next, keep), after, issued)
  {
    GrownTicketed(jobs, next, drawn, tickets, issued, after);
    TicketedFilter(next, keep, after);
    GrownLater(jobs, next, drawn, tickets, issued, after, started, Retain(next, keep));
  }

  lemma OrderClaimed(
      jobs: seq<Job>, next: seq<Job>, kept: seq<Job>, job: Job, tickets: map<string, nat>, issued: nat,
          started: seq<Start>)
    requires Ticketed(jobs, tickets) && StartsFirst(jobs, job, next) && forall k | k in kept :: k in next
    requires InOrder(started, jobs, tickets, issued) && InOrder(started, kept, tickets, issued)
    requires forall id | id in tickets :: tickets[id] < issued
    ensures job.id in tickets && InOrder(started + [Start(job.request.region, tickets[job.id])], kept, tickets, issued)
  {
    ClaimLater(jobs, next, job, tickets, kept);
    var i :| 0 <= i < |jobs| && jobs[i].status.Queued? && SameIdentity(jobs[i], job);
    assert jobs[i] in jobs;
    InOrderAppend(started, Start(job.request.region, tickets[job.id]), kept, tickets, issued);
  }

  /** What a write does to the histories that order is about. */
  lemma AfterOrder(s: Sys, a: Action, x: Write)
    requires s.live.Some?
    ensures var s' := After(s, a, x);
            && s'.tickets == Draw(s, a).tickets && s'.issued == Draw(s, a).issued
            && (!a.Claim? ==> s'.started == s.started)
            && (a.Claim? && x.job.Some? && x.job.value.id in s.tickets ==>
                  s'.started == s.started + [Start(x.job.value.request.region, s.tickets[x.job.value.id])])
  {
  }

  lemma WroteOrder(w: World, s: Sys, a: Action, x: Write)
    requires Numbered(s.disk, s.tickets, s.issued) && InOrder(s.started, s.disk.jobs, s.tickets, s.issued)
    requires s.live.Some? && s.live.value.ledger == s.disk && Draws(w, s, a) && JobsMove(s.live.value, a, x)
    ensures var s' := After(s, a, x);
            && (forall id | id in s'.tickets :: s'.tickets[id] < s'.issued)
            && Ticketed(x.ledger.jobs, s'.tickets)
            && InOrder(s'.started, x.ledger.jobs, s'.tickets, s'.issued)
  {
    var st := s.live.value;
    var d := Draw(s, a);
    var drawn := DrawnId(a);
    AfterOrder(s, a, x);
    assert Grown(s.disk.jobs, x.next.jobs, drawn);
    assert Renewed(s.tickets, s.issued, drawn, d.tickets);
    OrderKept(s.disk.jobs, x.next.jobs, st.limits.retainTerminal, drawn, s.tickets, s.issued, d.tickets, s.started);
    if a.Claim? {
      OrderClaimed(s.disk.jobs, x.next.jobs, x.ledger.jobs, x.job.value, s.tickets, s.issued, s.started);
    }
  }

  lemma WroteOutbox(s: Sys, a: Action, x: Write)
    requires s.live.Some? && s.live.value.ledger == s.disk && s.live.value.targets == s.targets && HoldsEvent(s, a)
    requires DistinctEvents(s.disk.completions) && BoxTicketed(s.disk.completions, s.tickets)
    requires forall i | 0 <= i < |s.disk.jobs| :: s.disk.jobs[i].id in s.tickets
    requires Conserved(s.disk.completions, s.endings, s.acked) && InFlight(s.disk.completions, s.sending, s.accepted)
    requires OutboxMoves(s.live.value, a, x.job, x.ledger.completions)
    ensures var s' := After(s, a, x);
            && BoxTicketed(x.ledger.completions, s.tickets)
            && Conserved(x.ledger.completions, s'.endings, s'.acked)
            && InFlight(x.ledger.completions, s'.sending, s.accepted)
  {
    var box := s.disk.completions;
    if a.Finish? {
      FinishConserves(box, s.endings, s.acked, Ending(x.job.value, s.targets));
      FinishInFlight(box, Owed(s.targets, x.job.value), s.sending, s.accepted);
    } else if a.Acknowledge? {
      var i := First(box, IsDeliveryOf(a.jobId)).value;
      assert IsDeliveryOf(a.jobId)(box[i]);
      AckBoxTicketed(box, i, a.target, s.tickets);
      AckConserves(box, s.endings, s.acked, i, Ack(a.jobId, a.target));
      AckInFlight(box, i, Ack(a.jobId, a.target), s.sending, s.accepted);
    }
  }

  lemma WroteStorage(w: World, st: Store, l: Ledger)
    requires Inv(w, st.(ledger := l))
    ensures Storage(w, l, Some(st.(ledger := l)), st.targets)
  {
  }

  lemma MoreTickets(box: seq<Delivery>, s: Sys, a: Action)
    requires BoxTicketed(box, s.tickets)
    ensures BoxTicketed(box, Draw(s, a).tickets)
  {
  }

  lemma LiveFacts(w: World, s: Sys)
    requires SysInv(w, s) && s.live.Some?
    ensures s.live.value.ledger == s.disk && s.live.value.targets == s.targets && Inv(w, s.live.value)
    ensures DistinctEvents(s.disk.completions)
    ensures forall i | 0 <= i < |s.disk.jobs| :: s.disk.jobs[i].id in s.tickets
    ensures BoxTicketed(s.disk.completions, s.tickets)
  {
  }

  lemma WroteKeeps(w: World, s: Sys, a: Action, x: Write)
    requires SysInv(w, s) && s.live.Some? && Draws(w, s, a) && HoldsEvent(s, a)
    requires JobsMove(s.live.value, a, x) && OutboxMoves(s.live.value, a, x.job, x.ledger.completions)
    requires Inv(w, s.live.value.(ledger := x.ledger))
    ensures SysInv(w, After(s, a, x))
  {
    LiveFacts(w, s);
    WroteOrder(w, s, a, x);
    WroteOutbox(s, a, x);
    MoreTickets(x.ledger.completions, s, a);
    WroteStorage(w, s.live.value, x.ledger);
    AckRecorded(s, a, x);
  }

  lemma AckRecorded(s: Sys, a: Action, x: Write)
    requires s.live.Some? && HoldsEvent(s, a) && InFlight(s.disk.completions, s.sending, s.accepted)
    requires forall k | k in s.acked :: k in s.accepted
    ensures var s' := After(s, a, x);
            && s'.disk == x.ledger && s'.live == Some(s.live.value.(ledger := x.ledger)) && s'.targets == s.targets
            && s'.tickets == Draw(s, a).tickets && s'.accepted == s.accepted
            && (forall k | k in s'.acked :: k in s'.accepted)
  {
  }

  // ---- Each event ------------------------------------------------------------------------------

  /** Drawing an id that no write uses changes nothing that matters. */
  lemma DrawKeeps(w: World, s: Sys, a: Action)
    requires SysInv(w, s) && Draws(w, s, a)
    ensures SysInv(w, Draw(s, a))
  {
    var d := Draw(s, a);
    assert forall id | id in s.tickets :: id in d.tickets && d.tickets[id] == s.tickets[id];
    assert Ticketed(s.disk.jobs, d.tickets) && BoxTicketed(s.disk.completions, d.tickets);
    assert Later(s.started, s.disk.jobs, d.tickets);
  }

  lemma DownKeeps(w: World, s: Sys)
    requires SysInv(w, s)
    ensures SysInv(w, Down(s))
  {
    assert InFlight(s.disk.completions, map[], s.accepted);
  }

  lemma ReleaseKeeps(w: World, s: Sys, a: Action)
    requires SysInv(w, s)
    ensures SysInv(w, Released(s, a))
  {
    assert a.Acknowledge? ==> InFlight(s.disk.completions, s.sending - {a.target}, s.accepted);
  }

  /** The two outcomes of an invocation, before a possible crash. */
  function Settled(w: World, s: Sys, a: Action, fate: Fate): Sys
    requires s.live.Some?
  {
    if Written(w, s.live.value, a).Some? && fate.Reached() then After(s, a, Written(w, s.live.value, a).value)
    else Released(Draw(s, a), a)
  }

  lemma InvokeSettles(w: World, s: Sys, a: Action, fate: Fate)
    requires s.live.Some?
    ensures Released(Invoke(w, s, s.live.value, a, fate), a) ==
            if fate.Crashes() then Down(Settled(w, s, a, fate)) else Settled(w, s, a, fate)
  {
  }

  lemma InvokeKeeps(w: World, s: Sys, a: Action, fate: Fate)
    requires Honest(w) && SysInv(w, s) && s.live.Some? && Draws(w, s, a) && HoldsEvent(s, a)
    ensures SysInv(w, Released(Invoke(w, s, s.live.value, a, fate), a))
  {
    InvokeSettles(w, s, a, fate);
    SettledKeeps(w, s, a, fate);
    DownKeeps(w, Settled(w, s, a, fate));
  }

  lemma SettledKeeps(w: World, s: Sys, a: Action, fate: Fate)
    requires Honest(w) && SysInv(w, s) && s.live.Some? && Draws(w, s, a) && HoldsEvent(s, a)
    ensures SysInv(w, Settled(w, s, a, fate))
  {
    if Written(w, s.live.value, a).Some? && fate.Reached() {
      ReachedKeeps(w, s, a);
    } else {
      DrawKeeps(w, s, a);
      ReleaseKeeps(w, Draw(s, a), a);
    }
  }

  lemma ReachedKeeps(w: World, s: Sys, a: Action)
    requires Honest(w) && SysInv(w, s) && s.live.Some? && Draws(w, s, a) && HoldsEvent(s, a)
    requires Written(w, s.live.value, a).Some?
    ensures SysInv(w, After(s, a, Written(w, s.live.value, a).value))
  {
    LiveFacts(w, s);
    FreshForLedger(w, s, a);
    WrittenSteps(w, s.live.value, a);
    WroteKeeps(w, s, a, Written(w, s.live.value, a).value);
  }

  lemma RestartKeeps(w: World, disk: Ledger, limits: Limits, clock: nat -> int, tickets: map<string, nat>, issued: nat,
                     started: seq<Start>)
    requires Sound(w, disk) && Numbered(disk, tickets, issued) && InOrder(started, disk.jobs, tickets, issued)
    ensures var jobs := Retain(InterruptAll(disk.jobs, clock), limits.retainTerminal);
            Ticketed(jobs, tickets) && InOrder(started, jobs, tickets, issued)
  {
    var jobs := InterruptAll(disk.jobs, clock);
    var after := Retain(jobs, limits.retainTerminal);
    SoundDistinct(w, disk);
    ReopenEvolves(disk.jobs, limits.retainTerminal, clock);
    InterruptTicketed(disk.jobs, clock, tickets);
    TicketedFilter(jobs, limits.retainTerminal, tickets);
    forall a, k | 0 <= a < |started| && k in after && k.status.Queued? && k.request.region == started[a].region
      ensures k.id in tickets && started[a].ticket < tickets[k.id]
    {
      var j :| j in disk.jobs && Restarted(j, k);
    }
  }

  lemma InterruptTicketed(jobs: seq<Job>, clock: nat -> int, tickets: map<string, nat>)
    requires Ticketed(jobs, tickets)
    ensures Ticketed(InterruptAll(jobs, clock), tickets)
  {
    var after := InterruptAll(jobs, clock);
    assert forall i | 0 <= i < |jobs| :: after[i].id == jobs[i].id;
  }

  /** A restart keeps the invariant, and with the same targets the service comes up again. */
  lemma BootKeeps(w: World, s: Sys, limits: Limits, clock: nat -> int, targets: seq<Target>, fate: Fate)
    requires SysInv(w, s) && s.live.None?
    ensures SysInv(w, BootUp(w, s, limits, clock, targets, fate))
    ensures limits.maxRunning > 0 && limits.maxQueued > 0 && fate.Persisted? && targets == s.targets ==>
              BootUp(w, s, limits, clock, targets, fate).live.Some?
  {
    if limits.maxRunning > 0 && limits.maxQueued > 0 && fate.Reached() {
      ReopenSound(w, s.disk, limits, clock, targets);
      ReopenSound(w, s.disk, limits, clock, s.targets);
      RestartKeeps(w, s.disk, limits, clock, s.tickets, s.issued, s.started);
      BootStorage(w, s, limits, clock, targets);
    }
  }

  lemma BootStorage(w: World, s: Sys, limits: Limits, clock: nat -> int, targets: seq<Target>)
    requires SysInv(w, s) && s.live.None? && limits.maxRunning > 0 && limits.maxQueued > 0
    ensures Open(w, s.disk, limits, clock, true).Success?
    ensures var up := Open(w, s.disk, limits, clock, true).value;
            && Storage(w, up.ledger, None, s.targets)
            && (Configure(up, targets).Success? ==> Storage(w, up.ledger, Some(Configure(up, targets).value), targets))
            && Configure(up, s.targets).Success?
  {
    ReopenSound(w, s.disk, limits, clock, s.targets);
  }

  /** The invariant survives every event of a run. */
  lemma StepKeeps(w: World, s: Sys, e: Event)
    requires Honest(w) && SysInv(w, s) && Enabled(w, s, e)
    ensures SysInv(w, Next(w, s, e))
  {
    match e
    case Boot(limits, clock, targets, fate) => BootKeeps(w, s, limits, clock, targets, fate);
    case Call(a, fate) => InvokeKeeps(w, s, a, fate);
    case BeginSend(t) => RecipientIsDigest(s.targets, t);
    case Taken(t) =>
    case NotTaken(t, _) =>
    case SendAck(t, fate) => InvokeKeeps(w, s, Acknowledge(s.sending[t].jobId, t), fate);
    case Crash => DownKeeps(w, s);
  }

  lemma RecipientIsDigest(targets: seq<Target>, t: string)
    requires ValidTargets(targets) && exists x | x in targets :: x.identity == t
    ensures HexDigest(t)
  {
  }

  /** Every state of every run satisfies the invariant. */
  lemma {:induction false} RunsKeep(w: World, states: seq<Sys>, events: seq<Event>, i: nat)
    requires Honest(w) && Run(w, states, events) && i < |states|
    ensures SysInv(w, states[i])
  {
    if i == 0 {
      assert Map([], IdentityOf()) == [];
    } else {
      RunsKeep(w, states, events, i - 1);
      StepKeeps(w, states[i - 1], events[i - 1]);
      assert states[i - 1 + 1] == Next(w, states[i - 1], events[i - 1]);
    }
  }
}
