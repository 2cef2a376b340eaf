/** What holds in every state of every run of the service. */
module JobTheorems {
  import opened Wrappers
  import opened Seqs
  import opened JobModel
  import opened JobInvariant
  import opened JobRetention
  import opened JobProperties
  import opened JobRuns

  // ---- Slots, capacity and restarts ------------------------------------------------------------

  /** At most one job in flight per region, at most `max_running` overall, statuses consistent. */
  lemma SchedulingSafety(w: World, states: seq<Sys>, events: seq<Event>, i: nat)
    requires Honest(w) && Run(w, states, events) && i < |states|
    ensures forall a, b | 0 <= a < b < |states[i].disk.jobs| ::
            !SameSlot(states[i].disk.jobs[a], states[i].disk.jobs[b])
    ensures forall j | j in states[i].disk.jobs :: Consistent(j)
    ensures states[i].live.Some? ==>
              && states[i].live.value.ledger == states[i].disk
              && Count(states[i].disk.jobs, IsActive()) <= states[i].live.value.limits.maxRunning
  {
    RunsKeep(w, states, events, i);
  }

  /** Jobs of one region start in the order they were submitted, restarts included. */
  lemma StartsFollowSubmissions(w: World, states: seq<Sys>, events: seq<Event>, i: nat, a: nat, b: nat)
    requires Honest(w) && Run(w, states, events) && i < |states| && a < b < |states[i].started|
    requires states[i].started[a].region == states[i].started[b].region
    ensures states[i].started[a].ticket < states[i].started[b].ticket
  {
    RunsKeep(w, states, events, i);
  }

  /**
   In every state, deliveries plus unfinished targeted jobs fit the outbox, so no running service
   ever refuses to finish a job with `Full`.
   */
  lemma OutboxNeverFull(w: World, states: seq<Sys>, events: seq<Event>, i: nat,
                        id: string, code: Option<string>, outcome: Option<Outcome>, now: int, persisted: bool)
    requires Honest(w) && Run(w, states, events) && i < |states|
    ensures Capacity(states[i].disk, states[i].targets)
    ensures states[i].live.Some? ==>
              Perform(w, states[i].live.value, Finish(id, code, outcome, now), persisted).1 != Failure(Full)
  {
    RunsKeep(w, states, events, i);
    if states[i].live.Some? {
      FinishExact(w, states[i].live.value, id, code, outcome, now, persisted);
    }
  }

  /**
   Whatever file a run leaves behind, by crashes and failed writes at any point, opening accepts it,
   configuring the last targets again succeeds, and exactly the jobs in flight are failed.
   */
  lemma CrashThenReopen(w: World, states: seq<Sys>, events: seq<Event>, i: nat, limits: Limits, clock: nat -> int)
    requires Honest(w) && Run(w, states, events) && i < |states|
    requires limits.maxRunning > 0 && limits.maxQueued > 0
    ensures var s := states[i];
            var up := BootUp(w, Down(s), limits, clock, s.targets, Persisted);
            && Loadable(w, s.disk)
            && up.live.Some?
            && up.disk == Ledger(2, Retain(InterruptAll(s.disk.jobs, clock), limits.retainTerminal), s.disk.completions)
            && SysInv(w, up)
  {
    var s := states[i];
    RunsKeep(w, states, events, i);
    DownKeeps(w, s);
    BootKeeps(w, Down(s), limits, clock, s.targets, Persisted);
    ReopenSound(w, s.disk, limits, clock, s.targets);
  }

  // ---- Deliveries ------------------------------------------------------------------------------

  /**
   For each receiver, the events it acknowledged are a prefix of those addressed to it, in completion
   order; all the rest are still in the outbox; and nothing is acknowledged that it did not accept.
   Retention does not occur in the statement.
   */
  lemma DeliveredInOrder(w: World, states: seq<Sys>, events: seq<Event>, i: nat, t: string)
    requires Honest(w) && Run(w, states, events) && i < |states|
    ensures var s := states[i];
            && AckedBy(s.acked, t) <= Addressed(s.endings, t)
            && PendingFor(s.disk.completions, t) == Addressed(s.endings, t)[|AckedBy(s.acked, t)|..]
            && (forall id | id in AckedBy(s.acked, t) :: Ack(id, t) in s.accepted)
  {
    RunsKeep(w, states, events, i);
    var s := states[i];
    assert AckedBy(s.acked, t) + PendingFor(s.disk.completions, t) == Addressed(s.endings, t);
    AckedMembers(s.acked, t);
  }

  lemma {:induction false} AckedMembers(acked: seq<Ack>, t: string)
    ensures forall id | id in AckedBy(acked, t) :: Ack(id, t) in acked
  {
    if acked != [] {
      AckedMembers(acked[..|acked| - 1], t);
    }
  }

  // ---- Jobs over time --------------------------------------------------------------------------

  /** What a job of the file may be one event later. */
  predicate MayBecome(j: Job, k: Job) {
    Evolves(j, k) || Restarted(j, k)
  }

  /** Every job of the next file was in the last one, or was queued in this very event. */
  ghost predicate Descends(s: Sys, s': Sys) {
    && (forall id | id in s.tickets :: id in s'.tickets)
    && (forall k | k in s'.disk.jobs ::
          (exists j | j in s.disk.jobs :: MayBecome(j, k)) || (k.id !in s.tickets && k.status.Queued?))
  }

  lemma SameDescends(s: Sys, s': Sys)
    requires s'.disk.jobs == s.disk.jobs && forall id | id in s.tickets :: id in s'.tickets
    ensures Descends(s, s')
  {
    forall k | k in s'.disk.jobs ensures exists j | j in s.disk.jobs :: MayBecome(j, k) {
      assert MayBecome(k, k);
    }
  }

  lemma WriteDescends(s: Sys, a: Action, x: Write)
    requires s.live.Some? && s.live.value.ledger == s.disk && JobsMove(s.live.value, a, x)
    requires DrawnId(a).Some? ==> DrawnId(a).value !in s.tickets
    ensures Descends(s, After(s, a, x))
  {
    var jobs, next := s.disk.jobs, x.next.jobs;
    forall k | k in x.ledger.jobs
      ensures (exists j | j in jobs :: MayBecome(j, k)) || (k.id !in s.tickets && k.status.Queued?)
    {
      var i :| 0 <= i < |next| && next[i] == k;
      if i < |jobs| {
        assert jobs[i] in jobs && MayBecome(jobs[i], k);
      }
    }
  }

  lemma ReachedDescends(w: World, s: Sys, a: Action)
    requires Honest(w) && SysInv(w, s) && s.live.Some? && Draws(w, s, a)
    requires Written(w, s.live.value, a).Some?
    ensures Descends(s, After(s, a, Written(w, s.live.value, a).value))
  {
    LiveFacts(w, s);
    FreshForLedger(w, s, a);
    WrittenSteps(w, s.live.value, a);
    WriteDescends(s, a, Written(w, s.live.value, a).value);
  }

  lemma SettledDescends(w: World, s: Sys, a: Action, fate: Fate)
    requires Honest(w) && SysInv(w, s) && s.live.Some? && Draws(w, s, a)
    ensures Descends(s, Settled(w, s, a, fate))
  {
    if Written(w, s.live.value, a).Some? && fate.Reached() {
      ReachedDescends(w, s, a);
    } else {
      SameDescends(s, Released(Draw(s, a), a));
    }
  }

  lemma DownDescends(s: Sys, s': Sys)
    requires Descends(s, s')
    ensures Descends(s, Down(s'))
  {
  }

  lemma InvokeDescends(w: World, s: Sys, a: Action, fate: Fate)
    requires Honest(w) && SysInv(w, s) && s.live.Some? && Draws(w, s, a)
    ensures Descends(s, Released(Invoke(w, s, s.live.value, a, fate), a))
  {
    InvokeSettles(w, s, a, fate);
    SettledDescends(w, s, a, fate);
    DownDescends(s, Settled(w, s, a, fate));
  }

  lemma BootDescends(w: World, s: Sys, limits: Limits, clock: nat -> int, targets: seq<Target>, fate: Fate)
    requires SysInv(w, s) && s.live.None?
    ensures Descends(s, BootUp(w, s, limits, clock, targets, fate))
  {
    var s' := BootUp(w, s, limits, clock, targets, fate);
    if limits.maxRunning > 0 && limits.maxQueued > 0 && fate.Reached() {
      ReopenSound(w, s.disk, limits, clock, targets);
      SoundDistinct(w, s.disk);
      ReopenEvolves(s.disk.jobs, limits.retainTerminal, clock);
      forall k | k in s'.disk.jobs ensures exists j | j in s.disk.jobs :: MayBecome(j, k) {
        var j :| j in s.disk.jobs && Restarted(j, k);
        assert MayBecome(j, k);
      }
    } else {
      SameDescends(s, s');
    }
  }

  lemma EventDescends(w: World, s: Sys, e: Event)
    requires Honest(w) && SysInv(w, s) && Enabled(w, s, e)
    ensures Descends(s, Next(w, s, e))
  {
    match e
    case Boot(limits, clock, targets, fate) => BootDescends(w, s, limits, clock, targets, fate);
    case Call(a, fate) => InvokeDescends(w, s, a, fate);
    case SendAck(t, fate) => InvokeDescends(w, s, Acknowledge(s.sending[t].jobId, t), fate);
    case _ => SameDescends(s, Next(w, s, e));
  }

  lemma SoleJob(w: World, s: Sys, j: Job)
    requires SysInv(w, s) && j in s.disk.jobs
    ensures j.id in s.tickets && Consistent(j) && forall k | k in s.disk.jobs && k.id == j.id :: k == j
  {
    var a :| 0 <= a < |s.disk.jobs| && s.disk.jobs[a] == j;
    forall k | k in s.disk.jobs && k.id == j.id ensures k == j {
      var b :| 0 <= b < |s.disk.jobs| && s.disk.jobs[b] == k;
    }
  }

  lemma AllConsistent(w: World, s: Sys)
    requires SysInv(w, s)
    ensures forall k | k in s.disk.jobs :: Consistent(k)
  {
  }

  /** One event of a run: both files are sound and the second descends from the first. */
  lemma RunStep(w: World, states: seq<Sys>, events: seq<Event>, n: nat)
    requires Honest(w) && Run(w, states, events) && n < |events|
    ensures Descends(states[n], states[n + 1])
    ensures forall k | k in states[n + 1].disk.jobs :: Consistent(k)
  {
    RunsKeep(w, states, events, n);
    RunsKeep(w, states, events, n + 1);
    EventDescends(w, states[n], events[n]);
    AllConsistent(w, states[n + 1]);
  }

  /** The id of `j` is taken, and the file holds nothing else under it. */
  predicate OnlyAs(s: Sys, j: Job) {
    j.id in s.tickets && forall k | k in s.disk.jobs && k.id == j.id :: k == j
  }

  lemma TerminalStep(w: World, states: seq<Sys>, events: seq<Event>, n: nat, j: Job)
    requires Honest(w) && Run(w, states, events) && n < |events| && OnlyAs(states[n], j) && j.status.Terminal()
    ensures OnlyAs(states[n + 1], j)
  {
    RunStep(w, states, events, n);
    forall k | k in states[n + 1].disk.jobs && k.id == j.id ensures k == j {
      var i :| i in states[n].disk.jobs && MayBecome(i, k);
    }
  }

  lemma TerminalNow(w: World, states: seq<Sys>, events: seq<Event>, i: nat, j: Job)
    requires Honest(w) && Run(w, states, events) && i < |states| && j in states[i].disk.jobs
    ensures OnlyAs(states[i], j)
  {
    RunsKeep(w, states, events, i);
    SoleJob(w, states[i], j);
  }

  /**
   Terminal states are absorbing over the whole run: whatever a later file holds under the id of a
   finished job is that same job, unchanged; ids are never reused after the job was dropped.
   */
  lemma {:induction false} TerminalForever(w: World, states: seq<Sys>, events: seq<Event>, i: nat, n: nat, j: Job)
    requires Honest(w) && Run(w, states, events) && i <= n < |states|
    requires j in states[i].disk.jobs && j.status.Terminal()
    ensures OnlyAs(states[n], j)
  {
    if n == i {
      TerminalNow(w, states, events, i, j);
    } else {
      TerminalForever(w, states, events, i, n - 1, j);
      TerminalStep(w, states, events, n - 1, j);
    }
  }

  /** Cancellation requested, or ended without completing. */
  predicate Stopping(k: Job) {
    k.outcome.None? && (k.status.Cancelling? || k.status.Cancelled? || k.status.Failed?)
  }

  /** Whatever the file holds under this id was asked to stop and did not complete. */
  predicate StoppingIn(s: Sys, id: string) {
    id in s.tickets && forall k | k in s.disk.jobs && k.id == id :: Stopping(k)
  }

  lemma StoppingDescends(s: Sys, s': Sys, id: string)
    requires Descends(s, s') && StoppingIn(s, id)
    requires forall k | k in s'.disk.jobs :: Consistent(k)
    ensures StoppingIn(s', id)
  {
    forall k | k in s'.disk.jobs && k.id == id ensures Stopping(k) {
      var j :| j in s.disk.jobs && MayBecome(j, k);
      assert Stopping(j);
    }
  }

  lemma StoppingNow(w: World, states: seq<Sys>, events: seq<Event>, i: nat, j: Job)
    requires Honest(w) && Run(w, states, events) && i < |states|
    requires j in states[i].disk.jobs && j.status.Cancelling?
    ensures StoppingIn(states[i], j.id)
  {
    RunsKeep(w, states, events, i);
    SoleJob(w, states[i], j);
  }

  lemma StoppingStep(w: World, states: seq<Sys>, events: seq<Event>, n: nat, id: string)
    requires Honest(w) && Run(w, states, events) && n < |events| && StoppingIn(states[n], id)
    ensures StoppingIn(states[n + 1], id)
  {
    RunStep(w, states, events, n);
    StoppingDescends(states[n], states[n + 1], id);
  }

  /** A cancelling job never completes and never yields an outcome, restarts included. */
  lemma {:induction false} CancellingNeverCompletes(w: World, states: seq<Sys>, events: seq<Event>, i: nat, n: nat,
                                                    j: Job)
    requires Honest(w) && Run(w, states, events) && i <= n < |states|
    requires j in states[i].disk.jobs && j.status.Cancelling?
    ensures StoppingIn(states[n], j.id)
  {
    if n == i {
      StoppingNow(w, states, events, i, j);
    } else {
      CancellingNeverCompletes(w, states, events, i, n - 1, j);
      StoppingStep(w, states, events, n - 1, j.id);
    }
  }

  // ---- Each job ends, and is announced, at most once -------------------------------------------

  ghost predicate EndedOnce(s: Sys) {
    && (forall a, b | 0 <= a < b < |s.endings| :: s.endings[a].job.id != s.endings[b].job.id)
    && (forall a | 0 <= a < |s.endings| :: s.endings[a].job.id in s.tickets)
    && (forall a, j | 0 <= a < |s.endings| && j in s.disk.jobs && j.id == s.endings[a].job.id :: j.status.Terminal())
  }

  lemma DescendsEnded(s: Sys, s': Sys)
    requires EndedOnce(s) && Descends(s, s') && s'.endings == s.endings
    ensures EndedOnce(s')
  {
    forall a, k | 0 <= a < |s.endings| && k in s'.disk.jobs && k.id == s.endings[a].job.id ensures k.status.Terminal() {
      var j :| j in s.disk.jobs && MayBecome(j, k);
    }
  }

  /** With distinct ids, a replaced job is the only one under its id. */
  lemma ReplacedAlone(jobs: seq<Job>, i: nat, job: Job, k: Job)
    requires DistinctIds(jobs) && i < |jobs| && job.id == jobs[i].id && k in jobs[i := job] && k.id == job.id
    ensures k == job
  {
    var next := jobs[i := job];
    var n :| 0 <= n < |next| && next[n] == k;
    assert next[n].id == jobs[n].id;
  }

  lemma FinishReplaces(w: World, st: Store, a: Action) returns (i: nat)
    requires a.Finish? && Written(w, st, a).Some?
    ensures var x := Written(w, st, a).value;
            && i < |st.ledger.jobs| && st.ledger.jobs[i].id == a.id && !st.ledger.jobs[i].status.Terminal()
            && x.job.Some? && x.job.value.id == a.id && x.job.value.status.Terminal()
            && x.next.jobs == st.ledger.jobs[i := x.job.value]
  {
    i := First(st.ledger.jobs, HasId(a.id)).value;
    assert HasId(a.id)(st.ledger.jobs[i]);
  }

  /** A finished job was in flight before, and is terminal wherever it is found after. */
  lemma FinishEnds(w: World, st: Store, a: Action)
    requires Honest(w) && Inv(w, st) && a.Finish? && Written(w, st, a).Some?
    ensures var x := Written(w, st, a).value;
            && x.job.Some? && x.job.value.id == a.id
            && (exists j | j in st.ledger.jobs :: j.id == a.id && !j.status.Terminal())
            && (forall k | k in x.ledger.jobs && k.id == a.id :: k.status.Terminal())
  {
    var x := Written(w, st, a).value;
    var i := FinishReplaces(w, st, a);
    assert st.ledger.jobs[i] in st.ledger.jobs;
    WrittenJobs(w, st, a);
    SoundDistinct(w, st.ledger);
    forall k | k in x.ledger.jobs && k.id == a.id ensures k.status.Terminal() {
      ReplacedAlone(st.ledger.jobs, i, x.job.value, k);
    }
  }

  lemma EndsOneMore(s: Sys, s': Sys, e: Ending)
    requires EndedOnce(s) && EndedOnce(s'.(endings := s.endings)) && s'.endings == s.endings + [e]
    requires e.job.id in s'.tickets && (forall k | k in s'.disk.jobs && k.id == e.job.id :: k.status.Terminal())
    requires exists j | j in s.disk.jobs :: j.id == e.job.id && !j.status.Terminal()
    ensures EndedOnce(s')
  {
  }

  lemma ReachedEnded(w: World, s: Sys, a: Action)
    requires Honest(w) && SysInv(w, s) && EndedOnce(s) && s.live.Some? && Draws(w, s, a)
    requires Written(w, s.live.value, a).Some?
    ensures EndedOnce(After(s, a, Written(w, s.live.value, a).value))
  {
    var x := Written(w, s.live.value, a).value;
    LiveFacts(w, s);
    FreshForLedger(w, s, a);
    WrittenSteps(w, s.live.value, a);
    WriteDescends(s, a, x);
    AfterEnded(s, a, x);
    if a.Finish? {
      FinishEnds(w, s.live.value, a);
      var j :| j in s.disk.jobs && j.id == a.id && !j.status.Terminal();
      SoleJob(w, s, j);
      EndsOneMore(s, After(s, a, x), Ending(x.job.value, s.live.value.targets));
    }
  }

  lemma AfterEnded(s: Sys, a: Action, x: Write)
    requires EndedOnce(s) && s.live.Some? && Descends(s, After(s, a, x))
    ensures EndedOnce(After(s, a, x).(endings := s.endings))
    ensures !a.Finish? ==> EndedOnce(After(s, a, x))
  {
    DescendsEnded(s, After(s, a, x).(endings := s.endings));
  }

  lemma EventEnded(w: World, s: Sys, e: Event)
    requires Honest(w) && SysInv(w, s) && EndedOnce(s) && Enabled(w, s, e)
    ensures EndedOnce(Next(w, s, e))
  {
    EventDescends(w, s, e);
    match e
    case Call(a, fate) => InvokeEnded(w, s, a, fate);
    case SendAck(t, fate) => InvokeEnded(w, s, Acknowledge(s.sending[t].jobId, t), fate);
    case _ => DescendsEnded(s, Next(w, s, e));
  }

  lemma InvokeEnded(w: World, s: Sys, a: Action, fate: Fate)
    requires Honest(w) && SysInv(w, s) && EndedOnce(s) && s.live.Some? && Draws(w, s, a)
    ensures EndedOnce(Released(Invoke(w, s, s.live.value, a, fate), a))
  {
    InvokeSettles(w, s, a, fate);
    SettledEnded(w, s, a, fate);
  }

  lemma SettledEnded(w: World, s: Sys, a: Action, fate: Fate)
    requires Honest(w) && SysInv(w, s) && EndedOnce(s) && s.live.Some? && Draws(w, s, a)
    ensures EndedOnce(Settled(w, s, a, fate))
  {
    if Written(w, s.live.value, a).Some? && fate.Reached() {
      ReachedEnded(w, s, a);
    } else {
      SameDescends(s, Released(Draw(s, a), a));
      DescendsEnded(s, Released(Draw(s, a), a));
    }
  }

  /**
   Over a whole run each job ends at most once, so it is addressed to each receiver at most once:
   the addressed sequence, which `DeliveredInOrder` balances, never repeats a job.
   */
  lemma {:induction false} AnnouncedOnce(w: World, states: seq<Sys>, events: seq<Event>, i: nat)
    requires Honest(w) && Run(w, states, events) && i < |states|
    ensures EndedOnce(states[i])
    ensures forall t: string :: Distinct(Addressed(states[i].endings, t))
  {
    if i > 0 {
      AnnouncedOnce(w, states, events, i - 1);
      RunsKeep(w, states, events, i - 1);
      EventEnded(w, states[i - 1], events[i - 1]);
      assert states[i - 1 + 1] == Next(w, states[i - 1], events[i - 1]);
    }
    forall t: string ensures Distinct(Addressed(states[i].endings, t)) {
      AddressedDistinct(states[i].endings, t);
    }
  }

  lemma {:induction false} AddressedDistinct(endings: seq<Ending>, t: string)
    requires forall a, b | 0 <= a < b < |endings| :: endings[a].job.id != endings[b].job.id
    ensures Distinct(Addressed(endings, t))
    ensures forall id | id in Addressed(endings, t) :: exists a | 0 <= a < |endings| :: endings[a].job.id == id
  {
    if endings != [] {
      var init := endings[..|endings| - 1];
      AddressedDistinct(init, t);
      assert forall a | 0 <= a < |init| :: init[a] == endings[a];
      assert endings[|endings| - 1].job.id !in Addressed(init, t);
    }
  }
}
