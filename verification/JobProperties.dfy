/** What each operation of the job store promises its callers. */
module JobProperties {
  import opened Wrappers
  import opened Seqs
  import opened JobModel
  import opened JobInvariant
  import opened JobRetention

  // ---- Finishing -------------------------------------------------------------------------------

  /** Whether finishing `job` must leave a delivery in the outbox. */
  predicate Owes(targets: seq<Target>, job: Job) {
    job.status.Completed? && job.outcome.Some? && Targeted(targets, job.request.region)
  }

  /** The deliveries a finished job adds. */
  function Owed(targets: seq<Target>, job: Job): seq<Delivery> {
    if Owes(targets, job) then [DeliveryOf(targets, job)] else []
  }

  /** The answer of `Finish` on the stored job, computed without the outbox capacity check. */
  function FinishAnswer(w: World, st: Store, job: Job, code: Option<string>, outcome: Option<Outcome>, now: int,
                        persisted: bool):
    Result<Option<Job>, JobError>
  {
    var done :- FinishedAt(job, code, outcome, now);
    if Owes(st.targets, done) && !w.bounded(EventOf(done)) then Failure(Invalid)
    else if !persisted then Failure(Storage)
    else Success(Some(done))
  }

  /** What committing a finished job comes to. */
  lemma FinishCommits(w: World, st: Store, i: nat, code: Option<string>, outcome: Option<Outcome>, now: int)
    requires Inv(w, st) && i < |st.ledger.jobs| && FinishedAt(st.ledger.jobs[i], code, outcome, now).Success?
    ensures var job := FinishedAt(st.ledger.jobs[i], code, outcome, now).value;
            var committed := CommitLedger(w, st, st.ledger.(jobs := st.ledger.jobs[i := job]));
            if Owes(st.targets, job) && !w.bounded(EventOf(job)) then committed == Failure(Invalid)
            else committed.Success? && committed.value.completions == st.ledger.completions + Owed(st.targets, job)
  {
    var job := FinishedAt(st.ledger.jobs[i], code, outcome, now).value;
    FinishAnnounces(w, st, i, code, outcome, now);
    if Announces(st.ledger.jobs, st.targets, job) {
      AnnouncedReplaceKeeps(w, st, i, job);
    } else {
      QuietReplaceKeeps(w, st, i, job);
    }
  }

  lemma FinishStep(w: World, st: Store, i: nat, code: Option<string>, outcome: Option<Outcome>, now: int,
                   persisted: bool)
    requires Inv(w, st) && ValidFailureCode(code)
    requires i < |st.ledger.jobs| && First(st.ledger.jobs, HasId(st.ledger.jobs[i].id)) == Some(i)
    ensures var (after, result) := Perform(w, st, Finish(st.ledger.jobs[i].id, code, outcome, now), persisted);
            && result == FinishAnswer(w, st, st.ledger.jobs[i], code, outcome, now, persisted)
            && (result.Failure? ==> after == st)
            && (result.Success? ==>
                  after.ledger.completions == st.ledger.completions + Owed(st.targets, result.value.value))
  {
    if FinishedAt(st.ledger.jobs[i], code, outcome, now).Success? {
      FinishCommits(w, st, i, code, outcome, now);
    }
  }

  /** The answer of `Finish` without any capacity check: there is no `Full` in it. */
  function FinishResult(w: World, st: Store, id: string, code: Option<string>, outcome: Option<Outcome>, now: int,
                        persisted: bool):
    (r: Result<Option<Job>, JobError>)
    ensures r != Failure(Full)
    ensures r.Success? ==> persisted && r.value.Some? && r.value.value.status.Terminal()
  {
    if !ValidFailureCode(code) then Failure(Invalid)
    else
      match First(st.ledger.jobs, HasId(id))
      case None => Failure(NotFound)
      case Some(i) => FinishAnswer(w, st, st.ledger.jobs[i], code, outcome, now, persisted)
  }

  /**
   Finishing an accepted job is never refused for lack of outbox space: the stored job alone decides
   the answer. A successful finish adds exactly one delivery, holding that region's configured
   identities, when the job completed with an outcome in a targeted region, and none otherwise.
   */
  lemma FinishExact(w: World, st: Store, id: string, code: Option<string>, outcome: Option<Outcome>, now: int,
                    persisted: bool)
    requires Inv(w, st)
    ensures var (after, result) := Perform(w, st, Finish(id, code, outcome, now), persisted);
            && result == FinishResult(w, st, id, code, outcome, now, persisted)
            && (result.Failure? ==> after == st)
            && (result.Success? ==>
                  after.ledger.completions == st.ledger.completions + Owed(st.targets, result.value.value))
  {
    if ValidFailureCode(code) {
      match First(st.ledger.jobs, HasId(id)) {
        case None =>
        case Some(i) =>
          assert HasId(id)(st.ledger.jobs[i]);
          FinishStep(w, st, i, code, outcome, now, persisted);
      }
    }
  }

  /** The deliveries in the outbox after a write: `job` is the answer of the operation. */
  predicate OutboxMoves(st: Store, a: Action, job: Option<Job>, after: seq<Delivery>) {
    var box := st.ledger.completions;
    match a
    case Finish(id, _, _, _) =>
      && job.Some? && job.value.id == id && (exists i | 0 <= i < |st.ledger.jobs| :: st.ledger.jobs[i].id == id)
      && after == box + Owed(st.targets, job.value)
    case Acknowledge(jobId, target) =>
      var i := First(box, IsDeliveryOf(jobId));
      i.Some? && target in box[i.value].pending && after == Acknowledged(box, i.value, target)
    case _ => after == box
  }

  /** Only finishing a job adds to the outbox, and only an acknowledgement removes from it. */
  lemma OutboxStep(w: World, st: Store, a: Action)
    requires Honest(w) && Inv(w, st) && Fresh(w, st.ledger, a) && Written(w, st, a).Some?
    ensures OutboxMoves(st, a, Written(w, st, a).value.job, Written(w, st, a).value.ledger.completions)
  {
    var jobs := st.ledger.jobs;
    var next := Decide(w, st, a).value.next;
    if a.Finish? {
      FinishExact(w, st, a.id, a.failureCode, a.outcome, a.now, true);
      var i := First(jobs, HasId(a.id)).value;
      assert jobs[i].id == a.id;
    } else {
      forall k | 0 <= k < |next.jobs| ensures !Announces(jobs, st.targets, next.jobs[k]) {
        Unannounced(w, st, a, k);
      }
      AnnounceQuiet(w, jobs, st.targets, next.jobs, next.completions);
    }
  }

  lemma Unannounced(w: World, st: Store, a: Action, k: nat)
    requires !a.Finish? && Decide(w, st, a).Success? && Decide(w, st, a).value.Propose?
    requires k < |Decide(w, st, a).value.next.jobs|
    ensures !Announces(st.ledger.jobs, st.targets, Decide(w, st, a).value.next.jobs[k])
  {
    var jobs := st.ledger.jobs;
    var job := Decide(w, st, a).value.next.jobs[k];
    if k < |jobs| {
      assert jobs[k] in jobs;
    }
  }

  // ---- How jobs evolve -------------------------------------------------------------------------

  /** The status moves an operation can make; a cancelling job is never completed. */
  predicate Edge(a: Status, b: Status) {
    || a == b
    || (a.Queued? && (b.Running? || b.Cancelled?))
    || (a.Running? && (b.Cancelling? || b.Completed? || b.Failed?))
    || (a.Cancelling? && b.Cancelled?)
  }

  predicate SameIdentity(j: Job, k: Job) {
    && k.id == j.id && k.request == j.request && k.createdAt == j.createdAt
    && k.retryOf == j.retryOf && k.digest == j.digest
  }

  predicate Evolves(j: Job, k: Job) {
    SameIdentity(j, k) && Edge(j.status, k.status) && (j.status.Terminal() ==> k == j)
  }

  function DrawnId(a: Action): Option<string> {
    match a
    case Submit(_, newId, _) => Some(newId)
    case SubmitIdempotent(_, _, newId, _) => Some(newId)
    case Retry(_, newId, _) => Some(newId)
    case _ => None
  }

  /** Position by position, the list an operation proposes: the same jobs evolved, or one appended. */
  lemma ProposedJobs(w: World, st: Store, a: Action)
    requires Decide(w, st, a).Success? && Decide(w, st, a).value.Propose?
    ensures var next := Decide(w, st, a).value.next.jobs;
            && |st.ledger.jobs| <= |next| <= |st.ledger.jobs| + 1
            && (forall i | 0 <= i < |st.ledger.jobs| :: Evolves(st.ledger.jobs[i], next[i]))
            && (|next| > |st.ledger.jobs| ==>
                DrawnId(a) == Some(next[|next| - 1].id) && next[|next| - 1].status.Queued?)
  {
  }

  /** Retention only removes jobs, and never an unfinished one. */
  lemma WrittenJobs(w: World, st: Store, a: Action)
    requires Honest(w) && Inv(w, st) && Fresh(w, st.ledger, a) && Written(w, st, a).Some?
    ensures var next := Decide(w, st, a).value.next.jobs;
            var kept := Written(w, st, a).value.ledger.jobs;
            && kept == Retain(next, st.limits.retainTerminal)
            && (forall j | j in kept :: j in next)
            && (forall j | j in next && !j.status.Terminal() :: j in kept)
            && (st.limits.retainTerminal > 0 ==> Count(kept, IsTerminal()) <= st.limits.retainTerminal)
  {
    var next := Decide(w, st, a).value.next.jobs;
    var keep := st.limits.retainTerminal;
    ProposedJobs(w, st, a);
    forall i, j | 0 <= i < j < |next| ensures next[i].id != next[j].id {
      if j < |st.ledger.jobs| { assert st.ledger.jobs[i].id != st.ledger.jobs[j].id; }
    }
    if keep > 0 {
      RetainNewest(next, keep);
    }
  }

  /** Whether an operation may end job `id`. */
  predicate MayEnd(a: Action, id: string) {
    (a.Cancel? && a.id == id) || (a.Finish? && a.id == id)
  }

  /**
   No operation loses, reorders or resurrects work: each job of the written list is a job of the old
   list one legal move on, finished jobs are untouched, and every unfinished job is still there
   unless this operation itself ended it.
   */
  lemma StepEvolves(w: World, st: Store, a: Action)
    requires Honest(w) && Inv(w, st) && Fresh(w, st.ledger, a) && Written(w, st, a).Some?
    ensures forall k | k in Written(w, st, a).value.ledger.jobs ::
              (exists j | j in st.ledger.jobs :: Evolves(j, k)) || (DrawnId(a) == Some(k.id) && k.status.Queued?)
    ensures forall j | j in st.ledger.jobs && !j.status.Terminal() && !MayEnd(a, j.id) ::
              exists k | k in Written(w, st, a).value.ledger.jobs :: Evolves(j, k)
  {
    var jobs := st.ledger.jobs;
    WrittenJobs(w, st, a);
    forall k | k in Written(w, st, a).value.ledger.jobs
      ensures (exists j | j in jobs :: Evolves(j, k)) || (DrawnId(a) == Some(k.id) && k.status.Queued?)
    {
      Ancestor(w, st, a, k);
    }
    forall j | j in jobs && !j.status.Terminal() && !MayEnd(a, j.id)
      ensures exists k | k in Written(w, st, a).value.ledger.jobs :: Evolves(j, k)
    {
      Descendant(w, st, a, j);
    }
  }

  lemma Ancestor(w: World, st: Store, a: Action, k: Job)
    requires Decide(w, st, a).Success? && Decide(w, st, a).value.Propose? && k in Decide(w, st, a).value.next.jobs
    ensures (exists j | j in st.ledger.jobs :: Evolves(j, k)) || (DrawnId(a) == Some(k.id) && k.status.Queued?)
  {
    var next := Decide(w, st, a).value.next.jobs;
    ProposedJobs(w, st, a);
    var i :| 0 <= i < |next| && next[i] == k;
    if i < |st.ledger.jobs| {
      assert st.ledger.jobs[i] in st.ledger.jobs && Evolves(st.ledger.jobs[i], k);
    }
  }

  lemma Descendant(w: World, st: Store, a: Action, j: Job)
    requires Decide(w, st, a).Success? && Decide(w, st, a).value.Propose?
    requires j in st.ledger.jobs && !j.status.Terminal() && !MayEnd(a, j.id)
    ensures exists k | k in Decide(w, st, a).value.next.jobs :: Evolves(j, k) && !k.status.Terminal()
  {
    var next := Decide(w, st, a).value.next.jobs;
    ProposedJobs(w, st, a);
    var i :| 0 <= i < |st.ledger.jobs| && st.ledger.jobs[i] == j;
    assert next[i] in next && Evolves(j, next[i]) && !next[i].status.Terminal();
  }

  /** How one write moves the job list. */
  ghost predicate JobsMove(st: Store, a: Action, x: Write) {
    var jobs, next := st.ledger.jobs, x.next.jobs;
    && |jobs| <= |next| <= |jobs| + 1
    && (forall i | 0 <= i < |jobs| :: Evolves(jobs[i], next[i]))
    && (|next| > |jobs| ==> DrawnId(a) == Some(next[|jobs|].id) && next[|jobs|].status.Queued?)
    && x.ledger.jobs == Retain(next, st.limits.retainTerminal)
    && (forall j | j in x.ledger.jobs :: j in next)
    && (a.Claim? ==> x.job.Some? && StartsFirst(jobs, x.job.value, next))
  }

  /** `job` is the first queued job of its region, now running, in the list `next`. */
  ghost predicate StartsFirst(jobs: seq<Job>, job: Job, next: seq<Job>) {
    exists i | 0 <= i < |jobs| ::
      && jobs[i].status.Queued? && job.status.Running? && SameIdentity(jobs[i], job) && next == jobs[i := job]
      && (forall k | 0 <= k < i && jobs[k].status.Queued? :: jobs[k].request.region != job.request.region)
  }

  /** What the claim of a write comes to. */
  lemma ClaimStarts(w: World, st: Store, a: Action)
    requires Inv(w, st) && a.Claim? && Written(w, st, a).Some?
    ensures var x := Written(w, st, a).value;
            x.job.Some? && StartsFirst(st.ledger.jobs, x.job.value, x.next.jobs)
  {
    ClaimIsFifo(w, st, a.now);
  }

  lemma WrittenMoves(w: World, st: Store, a: Action)
    requires Honest(w) && Inv(w, st) && Fresh(w, st.ledger, a) && Written(w, st, a).Some?
    ensures JobsMove(st, a, Written(w, st, a).value)
  {
    ProposedJobs(w, st, a);
    WrittenJobs(w, st, a);
    if a.Claim? {
      ClaimStarts(w, st, a);
    }
  }

  lemma WrittenSteps(w: World, st: Store, a: Action)
    requires Honest(w) && Inv(w, st) && Fresh(w, st.ledger, a) && Written(w, st, a).Some?
    ensures JobsMove(st, a, Written(w, st, a).value)
    ensures OutboxMoves(st, a, Written(w, st, a).value.job, Written(w, st, a).value.ledger.completions)
    ensures Inv(w, st.(ledger := Written(w, st, a).value.ledger))
  {
    WrittenKeeps(w, st, a);
    WrittenMoves(w, st, a);
    OutboxStep(w, st, a);
  }

  // ---- Claiming --------------------------------------------------------------------------------

  /**
   A claim starts the earliest queued job of a region nobody occupies, or nothing when the slots are
   full or every queued region is busy; a busy region never blocks an idle one.
   */
  lemma ClaimIsFifo(w: World, st: Store, now: int)
    requires Inv(w, st)
    ensures var jobs := st.ledger.jobs;
            match Decide(w, st, Claim(now))
            case Success(Propose(next, Some(job))) =>
              && Count(jobs, IsActive()) < st.limits.maxRunning
              && (exists i | 0 <= i < |jobs| ::
                   && jobs[i].status.Queued? && job == jobs[i].(status := Running, updatedAt := now)
                   && next.jobs == jobs[i := job]
                   && (forall k | 0 <= k < i && jobs[k].status.Queued? ::
                         jobs[k].request.region != job.request.region &&
                         exists b | b in jobs :: b.status.OccupiesSlot() && b.request.region == jobs[k].request.region))
            case Success(Reply(None)) =>
              || Count(jobs, IsActive()) >= st.limits.maxRunning
              || forall k | k in jobs && k.status.Queued? ::
                   exists b | b in jobs :: b.status.OccupiesSlot() && b.request.region == k.request.region
            case _ => false
  {
    var jobs := st.ledger.jobs;
    if Count(jobs, IsActive()) < st.limits.maxRunning && First(jobs, Runnable(jobs)).Some? {
      var i := First(jobs, Runnable(jobs)).value;
      assert Runnable(jobs)(jobs[i]);
      forall k | 0 <= k < i && jobs[k].status.Queued?
        ensures jobs[k].request.region != jobs[i].request.region
        ensures exists b | b in jobs :: b.status.OccupiesSlot() && b.request.region == jobs[k].request.region
      {
        assert !Runnable(jobs)(jobs[k]);
      }
    }
  }

  // ---- Idempotent submission -------------------------------------------------------------------

  /** While a key's job is retained, resubmitting answers from it and changes nothing. */
  lemma ResubmitIsReplay(w: World, st: Store, request: Request, key: string, newId: string, now: int, persisted: bool,
                         j: Job)
    requires Inv(w, st) && ValidRequest(request) && ValidKey(key)
    requires j in st.ledger.jobs && j.digest == Some(w.sha256(key))
    ensures Perform(w, st, SubmitIdempotent(request, key, newId, now), persisted) ==
            (st, if j.request == request then Success(Some(j)) else Failure(Conflict))
  {
    var jobs := st.ledger.jobs;
    var k :| 0 <= k < |jobs| && jobs[k] == j;
    var i := First(jobs, HasDigest(w.sha256(key))).value;
    assert HasDigest(w.sha256(key))(jobs[i]) && HasDigest(w.sha256(key))(jobs[k]);
    assert SharesDigest(jobs[i], jobs[k]) && SharesDigest(jobs[k], jobs[i]);
  }

  /** What a key is answered with carries it: the job that was found, or the one that is added. */
  lemma AnswerCarries(w: World, st: Store, request: Request, key: string, id: string, now: int)
    requires Decide(w, st, SubmitIdempotent(request, key, id, now)).Success?
    ensures var plan := Decide(w, st, SubmitIdempotent(request, key, id, now)).value;
            && ValidKey(key) && plan.job.Some? && plan.job.value.digest == Some(w.sha256(key))
            && (plan.Reply? ==> plan.job.value in st.ledger.jobs)
            && (plan.Propose? ==>
                  plan.job.value.status.Queued? && plan.next.jobs == st.ledger.jobs + [plan.job.value])
  {
    var i := First(st.ledger.jobs, HasDigest(w.sha256(key)));
    assert i.Some? ==> HasDigest(w.sha256(key))(st.ledger.jobs[i.value]);
  }

  lemma ProposedCarries(w: World, st: Store, a: Action, job: Job)
    requires Honest(w) && Inv(w, st) && Fresh(w, st.ledger, a) && Written(w, st, a).Some?
    requires job in Written(w, st, a).value.next.jobs && !job.status.Terminal()
    ensures job in Written(w, st, a).value.ledger.jobs && Inv(w, st.(ledger := Written(w, st, a).value.ledger))
  {
    WrittenKeeps(w, st, a);
    WrittenJobs(w, st, a);
  }

  /** A call that succeeds answered from memory, or wrote what it proposed. */
  lemma Performed(w: World, st: Store, a: Action)
    requires Perform(w, st, a, true).1.Success?
    ensures Decide(w, st, a).Success?
    ensures match Decide(w, st, a).value
            case Reply(job) => Perform(w, st, a, true) == (st, Success(job))
            case Propose(next, job) =>
              && Written(w, st, a).Some? && Written(w, st, a).value.next == next
              && Perform(w, st, a, true) == (st.(ledger := Written(w, st, a).value.ledger), Success(job))
  {
  }

  /** An unfinished job that was found or proposed is in the ledger after the answer. */
  lemma AnswerKept(w: World, st: Store, a: Action, job: Job)
    requires Honest(w) && Inv(w, st) && Fresh(w, st.ledger, a) && Perform(w, st, a, true).1 == Success(Some(job))
    requires match Decide(w, st, a)
             case Success(Reply(_)) => job in st.ledger.jobs
             case Success(Propose(next, _)) => job in next.jobs && !job.status.Terminal()
             case _ => true
    ensures Inv(w, Perform(w, st, a, true).0) && job in Perform(w, st, a, true).0.ledger.jobs
  {
    Performed(w, st, a);
    if Decide(w, st, a).value.Propose? {
      ProposedCarries(w, st, a, job);
    }
  }

  /** The job a key was answered with is in the ledger and carries the key. */
  lemma AnsweredCarries(w: World, st: Store, request: Request, key: string, id: string, now: int)
    requires Honest(w) && Inv(w, st) && UnusedId(w, st.ledger, id)
    requires Perform(w, st, SubmitIdempotent(request, key, id, now), true).1.Success?
    ensures var (once, first) := Perform(w, st, SubmitIdempotent(request, key, id, now), true);
            && first.value.Some? && ValidKey(key) && Inv(w, once)
            && first.value.value in once.ledger.jobs && first.value.value.digest == Some(w.sha256(key))
  {
    var a := SubmitIdempotent(request, key, id, now);
    Performed(w, st, a);
    AnswerCarries(w, st, request, key, id, now);
    var job := Decide(w, st, a).value.job.value;
    LastIn(st.ledger.jobs, job);
    AnswerKept(w, st, a, job);
  }

  lemma LastIn(jobs: seq<Job>, job: Job)
    ensures job in jobs + [job]
  {
  }

  /** Submitting twice under one key adds one job, answers with it, and refuses a different request. */
  lemma SubmitTwice(w: World, st: Store, r1: Request, r2: Request, key: string, id1: string, id2: string, t1: int,
                    t2: int, persisted: bool)
    requires Honest(w) && Inv(w, st) && UnusedId(w, st.ledger, id1) && ValidRequest(r2)
    requires Perform(w, st, SubmitIdempotent(r1, key, id1, t1), true).1.Success?
    ensures var (once, first) := Perform(w, st, SubmitIdempotent(r1, key, id1, t1), true);
            && first.value.Some?
            && Perform(w, once, SubmitIdempotent(r2, key, id2, t2), persisted) ==
               (once, if first.value.value.request == r2 then Success(first.value) else Failure(Conflict))
  {
    AnsweredCarries(w, st, r1, key, id1, t1);
    var (once, first) := Perform(w, st, SubmitIdempotent(r1, key, id1, t1), true);
    ResubmitIsReplay(w, once, r2, key, id2, t2, persisted, first.value.value);
  }

  // ---- Restart ---------------------------------------------------------------------------------

  /** No job is in flight after a restart, and no targeted reservation grew. */
  lemma {:induction false} InterruptCounts(jobs: seq<Job>, clock: nat -> int, targets: seq<Target>)
    ensures Count(InterruptAll(jobs, clock), IsActive()) == 0
    ensures Count(InterruptAll(jobs, clock), Reserving(targets)) <= Count(jobs, Reserving(targets))
  {
    if jobs != [] {
      var init := jobs[..|jobs| - 1];
      InterruptCounts(init, clock, targets);
      assert InterruptAll(jobs, clock)[..|jobs| - 1] == InterruptAll(init, clock);
    }
  }

  /** Failing the jobs in flight keeps the ledger sound. */
  lemma InterruptSound(w: World, disk: Ledger, clock: nat -> int)
    requires Sound(w, disk)
    ensures Sound(w, disk.(jobs := InterruptAll(disk.jobs, clock)))
  {
    var jobs := InterruptAll(disk.jobs, clock);
    forall i | 0 <= i < |jobs| ensures Consistent(jobs[i]) && GoodJob(w, jobs[i]) {
      assert Consistent(disk.jobs[i]) && GoodJob(w, disk.jobs[i]);
    }
    forall i, j | 0 <= i < j < |jobs| ensures jobs[i].id != jobs[j].id && !SharesDigest(jobs[i], jobs[j]) {
      assert disk.jobs[i].id != disk.jobs[j].id && !SharesDigest(disk.jobs[i], disk.jobs[j]);
    }
  }

  lemma {:induction false} UntargetedReserves(jobs: seq<Job>)
    ensures Count(jobs, Reserving([])) == 0
  {
    FilterAll(jobs, Reserving([]));
  }

  /** The commit that `open` ends with announces nothing. */
  lemma ReopenCommit(w: World, st: Store)
    requires Inv(w, st) && st.targets == []
    ensures CommitLedger(w, st, st.ledger) ==
            Success(st.ledger.(jobs := Retain(st.ledger.jobs, st.limits.retainTerminal)))
    ensures Inv(w, st.(ledger := CommitLedger(w, st, st.ledger).value))
  {
    var jobs := st.ledger.jobs;
    forall i | 0 <= i < |jobs| ensures !Announces(jobs, [], jobs[i]) {
      assert jobs[i] in jobs;
    }
    QuietCommit(w, st, st.ledger);
  }

  /**
   A sound file is always accepted again. Reopening turns exactly the jobs in flight into failed
   ones and, apart from retention, changes nothing else; then any targets whose deliveries fitted
   before can be configured again.
   */
  lemma ReopenSound(w: World, disk: Ledger, limits: Limits, clock: nat -> int, targets: seq<Target>)
    requires Sound(w, disk) && limits.maxRunning > 0 && limits.maxQueued > 0
    ensures Open(w, disk, limits, clock, false) == Failure(Storage)
    ensures Open(w, disk, limits, clock, true) ==
            Success(Store(Ledger(2, Retain(InterruptAll(disk.jobs, clock), limits.retainTerminal), disk.completions),
                [], limits))
    ensures Inv(w, Open(w, disk, limits, clock, true).value)
    ensures ValidTargets(targets) && Capacity(disk, targets) ==>
              && Configure(Open(w, disk, limits, clock, true).value, targets).Success?
              && Inv(w, Configure(Open(w, disk, limits, clock, true).value, targets).value)
  {
    var jobs := InterruptAll(disk.jobs, clock);
    var st := Store(disk.(jobs := jobs), [], limits);
    InterruptSound(w, disk, clock);
    InterruptCounts(disk.jobs, clock, targets);
    UntargetedReserves(jobs);
    ReopenCommit(w, st);
    RetainCount(jobs, limits.retainTerminal, Reserving(targets));
  }

  /** What a job may be after a restart, given what it was. */
  predicate Restarted(j: Job, k: Job) {
    SameIdentity(j, k) && k.progress == j.progress &&
    if j.status.OccupiesSlot() then k.status.Failed? && k.failure == Some("service_interrupted") && k.outcome.None?
    else k == j
  }

  lemma InterruptDistinct(jobs: seq<Job>, clock: nat -> int)
    requires DistinctIds(jobs)
    ensures DistinctIds(InterruptAll(jobs, clock))
  {
    var after := InterruptAll(jobs, clock);
    assert forall i | 0 <= i < |jobs| :: after[i].id == jobs[i].id;
  }

  lemma SoundDistinct(w: World, l: Ledger)
    requires Sound(w, l)
    ensures DistinctIds(l.jobs)
  {
  }

  lemma RetainMembers(jobs: seq<Job>, keep: nat)
    requires DistinctIds(jobs)
    ensures forall j | j in Retain(jobs, keep) :: j in jobs
    ensures forall j | j in jobs && !j.status.Terminal() :: j in Retain(jobs, keep)
    ensures keep > 0 ==> Count(Retain(jobs, keep), IsTerminal()) <= keep
  {
    if keep > 0 {
      RetainNewest(jobs, keep);
    }
  }

  /** Each job found after a restart is a job from before it; queued work is all still there. */
  lemma ReopenEvolves(before: seq<Job>, keep: nat, clock: nat -> int)
    requires DistinctIds(before)
    ensures var after := Retain(InterruptAll(before, clock), keep);
            && (forall k | k in after :: exists j | j in before :: Restarted(j, k))
            && (forall j | j in before && j.status.Queued? :: j in after)
            && (keep > 0 ==> Count(after, IsTerminal()) <= keep)
  {
    var jobs := InterruptAll(before, clock);
    var after := Retain(jobs, keep);
    InterruptDistinct(before, clock);
    RetainMembers(jobs, keep);
    forall k | k in after ensures exists j | j in before :: Restarted(j, k) {
      var i :| 0 <= i < |jobs| && jobs[i] == k;
      assert before[i] in before && Restarted(before[i], k);
    }
    forall j | j in before && j.status.Queued? ensures j in after {
      var i :| 0 <= i < |before| && before[i] == j;
      assert jobs[i] == j && j in jobs;
    }
  }
}
