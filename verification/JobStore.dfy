/** The job store itself: mutable memory over one file, run against the operations of `JobModel`. */
module JobStores {
  import opened Wrappers
  import opened Seqs
  import opened JobModel
  import opened JobInvariant
  import opened JobProperties

  // ---- The edits passed to `Mutate` ------------------------------------------------------------

  function CancelEdit(): Job -> Result<Job, JobError> {
    (job: Job) =>
      match CancelRequested(job.status)
      case Some(status) => Success(job.(status := status))
      case None => Failure(Conflict)
  }

  function ProgressEdit(progress: Progress): Job -> Result<Job, JobError> {
    (job: Job) => if job.status.OccupiesSlot() then Success(job.(progress := progress)) else Failure(Conflict)
  }

  function FinishEdit(failureCode: Option<string>, outcome: Option<Outcome>): Job -> Result<Job, JobError> {
    (job: Job) => Finished(job, failureCode, outcome)
  }

  /** The plan of an edit of the job called `id`. */
  function MutatePlan(st: Store, id: string, edit: Job -> Result<Job, JobError>, now: int): Result<Plan, JobError> {
    match First(st.ledger.jobs, HasId(id))
    case None => Failure(NotFound)
    case Some(i) =>
      match edit(st.ledger.jobs[i])
      case Failure(e) => Failure(e)
      case Success(job) => Success(Replace(st, i, job.(updatedAt := now)))
  }

  // ---- Validation on opening -------------------------------------------------------------------

  method CheckDelivery(w: World, d: Delivery) returns (ok: bool)
    ensures ok <==> GoodDelivery(w, d)
  {
    if !w.bounded(d.event) || d.event.schemaVersion != 1 || !w.isUuid(d.event.jobId) || !ValidRequest(d.event.request)
       || d.event.outcome.region != d.event.request.region || |d.pending| == 0 || |d.pending| > 16
    {
      return false;
    }
    var seen: set<string> := {};
    for i := 0 to |d.pending|
      invariant seen == set k | 0 <= k < i :: d.pending[k]
      invariant forall k | 0 <= k < i :: HexDigest(d.pending[k])
      invariant Distinct(d.pending[..i])
    {
      if !HexDigest(d.pending[i]) || d.pending[i] in seen {
        return false;
      }
      seen := seen + {d.pending[i]};
    }
    assert d.pending[..|d.pending|] == d.pending;
    return true;
  }

  method CheckCompletions(w: World, box: seq<Delivery>) returns (ok: bool)
    ensures ok <==>
      && (forall i | 0 <= i < |box| :: GoodDelivery(w, box[i]))
      && (forall i, j | 0 <= i < j < |box| :: box[i].event.jobId != box[j].event.jobId)
  {
    var events: set<string> := {};
    for i := 0 to |box|
      invariant events == set k | 0 <= k < i :: box[k].event.jobId
      invariant forall k | 0 <= k < i :: GoodDelivery(w, box[k])
      invariant forall a, b | 0 <= a < b < i :: box[a].event.jobId != box[b].event.jobId
    {
      var good := CheckDelivery(w, box[i]);
      if !good || box[i].event.jobId in events {
        return false;
      }
      events := events + {box[i].event.jobId};
    }
    return true;
  }

  /** The ids and keys of jobs that were accepted. */
  ghost predicate Collected(stored: seq<Job>, ids: set<string>, keys: set<string>) {
    && ids == (set k | 0 <= k < |stored| :: stored[k].id)
    && keys == (set k | 0 <= k < |stored| && stored[k].digest.Some? :: stored[k].digest.value)
  }

  /** Every job is good, and no two share an id or a digest. */
  ghost predicate GoodJobs(w: World, stored: seq<Job>) {
    && (forall i | 0 <= i < |stored| :: GoodJob(w, stored[i]))
    && (forall i, j | 0 <= i < j < |stored| :: stored[i].id != stored[j].id && !SharesDigest(stored[i], stored[j]))
  }

  lemma CollectedMore(stored: seq<Job>, ids: set<string>, keys: set<string>, job: Job)
    requires Collected(stored, ids, keys)
    ensures Collected(stored + [job], ids + {job.id}, keys + if job.digest.Some? then {job.digest.value} else {})
  {
    var more := stored + [job];
    assert more[|stored|] == job && forall k | 0 <= k < |stored| :: more[k] == stored[k];
  }

  lemma GoodJobsMore(w: World, stored: seq<Job>, ids: set<string>, keys: set<string>, job: Job)
    requires Collected(stored, ids, keys)
    ensures GoodJobs(w, stored + [job]) <==>
              && GoodJobs(w, stored) && GoodJob(w, job) && job.id !in ids
              && (job.digest.Some? ==> job.digest.value !in keys)
  {
    var more := stored + [job];
    assert more[|stored|] == job && forall k | 0 <= k < |stored| :: more[k] == stored[k];
    forall k | 0 <= k < |stored|
      ensures stored[k].id in ids && (stored[k].digest.Some? ==> stored[k].digest.value in keys)
    {
    }
    if GoodJobs(w, more) {
      forall k | 0 <= k < |stored| ensures stored[k].id != job.id && !SharesDigest(stored[k], job) {
        assert more[k].id != more[|stored|].id && !SharesDigest(more[k], more[|stored|]);
      }
      forall a, b | 0 <= a < b < |stored|
        ensures stored[a].id != stored[b].id && !SharesDigest(stored[a], stored[b])
      {
        assert more[a].id != more[b].id && !SharesDigest(more[a], more[b]);
      }
      forall k | 0 <= k < |stored| ensures GoodJob(w, stored[k]) {
        assert GoodJob(w, more[k]);
      }
      assert GoodJob(w, more[|stored|]);
    }
  }

  lemma GoodJobsPrefix(w: World, stored: seq<Job>, n: nat)
    requires n <= |stored| && GoodJobs(w, stored)
    ensures GoodJobs(w, stored[..n])
  {
  }

  /** Validates the jobs in order and fails those that were in flight. */
  method CheckJobs(w: World, stored: seq<Job>, clock: nat -> int) returns (jobs: Option<seq<Job>>)
    ensures jobs.Some? <==> GoodJobs(w, stored)
    ensures jobs.Some? ==> jobs.value == InterruptAll(stored, clock)
  {
    var ids: set<string>, keys: set<string> := {}, {};
    var done: seq<Job> := [];
    for i := 0 to |stored|
      invariant Collected(stored[..i], ids, keys) && GoodJobs(w, stored[..i])
      invariant |done| == i && forall k | 0 <= k < i :: done[k] == Interrupt(stored[k], clock(k))
    {
      var job := stored[i];
      assert stored[..i + 1] == stored[..i] + [job];
      GoodJobsMore(w, stored[..i], ids, keys, job);
      CollectedMore(stored[..i], ids, keys, job);
      if GoodJobs(w, stored) {
        GoodJobsPrefix(w, stored, i + 1);
      }
      if job.digest.Some? {
        if !HexDigest(job.digest.value) || job.digest.value in keys {
          return None;
        }
        keys := keys + {job.digest.value};
      }
      if !w.isUuid(job.id) || job.id in ids || !ValidRequest(job.request) {
        return None;
      }
      ids := ids + {job.id};
      if job.status.OccupiesSlot() {
        job := job.(status := Failed, outcome := None, failure := Some("service_interrupted"), updatedAt := clock(i));
      }
      done := done + [job];
    }
    assert stored[..|stored|] == stored;
    assert done == InterruptAll(stored, clock);
    return Some(done);
  }

  class JobStore {
    const world: World
    const limits: Limits
    var targets: seq<Target>
    var ledger: Ledger
    /** The contents of the ledger file. */
    ghost var disk: Ledger

    ghost function State(): Store
      reads this
    {
      Store(ledger, targets, limits)
    }

    /** Memory and file agree, and the ledger invariant holds. */
    ghost predicate Valid()
      reads this
    {
      disk == ledger && Honest(world) && Inv(world, State())
    }

    constructor (world: World, limits: Limits, ledger: Ledger, ghost disk: Ledger)
      ensures this.world == world && this.limits == limits
      ensures this.ledger == ledger && this.targets == [] && this.disk == disk
    {
      this.world, this.limits := world, limits;
      this.ledger, this.targets := ledger, [];
      this.disk := disk;
    }

    /** Reads, validates, repairs and rewrites the file. */
    static method Open(world: World, disk: Ledger, limits: Limits, clock: nat -> int, persisted: bool)
      returns (r: Result<JobStore, JobError>)
      ensures match JobModel.Open(world, disk, limits, clock, persisted)
              case Failure(e) => r == Failure(e)
              case Success(st) =>
                r.Success? && fresh(r.value) && r.value.world == world && r.value.State() == st &&
                    r.value.disk == st.ledger
      // A file that a valid store left behind always opens again as a valid store.
      ensures Honest(world) && Sound(world, disk) && limits.maxRunning > 0 && limits.maxQueued > 0 && persisted ==>
                r.Success? && r.value.Valid()
    {
      if Sound(world, disk) && limits.maxRunning > 0 && limits.maxQueued > 0 {
        ReopenSound(world, disk, limits, clock, []);
      }
      if limits.maxRunning == 0 || limits.maxQueued == 0 {
        return Failure(Invalid);
      }
      if disk.schemaVersion !in {1, 2} || |disk.completions| > MAX_COMPLETION_EVENTS {
        return Failure(Storage);
      }
      var good := CheckCompletions(world, disk.completions);
      if !good {
        return Failure(Storage);
      }
      var jobs := CheckJobs(world, disk.jobs, clock);
      if jobs.None? {
        return Failure(Storage);
      }
      assert Loadable(world, disk);
      var store := new JobStore(world, limits, disk.(jobs := jobs.value), disk);
      var written := store.Commit(store.ledger, persisted);
      if written.Failure? {
        return Failure(written.error);
      }
      return Success(store);
    }

    method ConfigureCompletions(targets: seq<Target>) returns (r: Result<(), JobError>)
      modifies this`targets
      ensures match Configure(old(State()), targets)
              case Failure(e) => r == Failure(e) && State() == old(State())
              case Success(st) => r.Success? && State() == st
      ensures old(Valid()) ==> Valid()
    {
      var identities: set<string> := {};
      if |targets| > 16 {
        return Failure(Invalid);
      }
      for i := 0 to |targets|
        invariant identities == set k | 0 <= k < i :: targets[k].identity
        invariant forall k | 0 <= k < i :: targets[k].region != Cn && HexDigest(targets[k].identity)
        invariant Distinct(Map(targets, IdentityOf())[..i])
      {
        if targets[i].region == Cn || !HexDigest(targets[i].identity) || targets[i].identity in identities {
          ghost var all := Map(targets, IdentityOf());
          assert targets[i].identity in identities ==> exists k | 0 <= k < i :: all[k] == all[i];
          return Failure(Invalid);
        }
        identities := identities + {targets[i].identity};
      }
      assert Map(targets, IdentityOf())[..|targets|] == Map(targets, IdentityOf());
      if Count(ledger.jobs, Reserving(targets)) + |ledger.completions| > MAX_COMPLETION_EVENTS {
        return Failure(Full);
      }
      this.targets := targets;
      return Success(());
    }

    /** The outbox after one job of the proposed ledger. */
    method AddDelivery(job: Job, box: seq<Delivery>) returns (r: Result<seq<Delivery>, JobError>)
      ensures r == AnnounceJob(world, ledger.jobs, targets, job, box)
    {
      if !job.status.Completed? || AlreadyCompleted(ledger.jobs, job.id) || job.outcome.None? {
        return Success(box);
      }
      var pending := Recipients(targets, job.request.region);
      if pending == [] {
        return Success(box);
      }
      if |box| >= MAX_COMPLETION_EVENTS {
        return Failure(Full);
      }
      var delivery := Delivery(Completion(1, job.id, job.request, job.outcome.value, job.updatedAt), pending);
      if !world.bounded(delivery.event) {
        return Failure(Invalid);
      }
      return Success(box + [delivery]);
    }

    /** The outbox with the deliveries owed by newly completed jobs. */
    method AddDeliveries(next: Ledger) returns (r: Result<seq<Delivery>, JobError>)
      ensures r == Announce(world, ledger.jobs, targets, next.jobs, next.completions)
    {
      var box := next.completions;
      for i := 0 to |next.jobs|
        invariant Announce(world, ledger.jobs, targets, next.jobs[..i], next.completions) == Success(box)
      {
        var added := AddDelivery(next.jobs[i], box);
        AnnounceNext(world, ledger.jobs, targets, next.jobs, i, next.completions, box);
        if added.Failure? {
          AnnounceFails(world, ledger.jobs, targets, next.jobs, i + 1, next.completions);
          return Failure(added.error);
        }
        box := added.value;
      }
      assert next.jobs[..|next.jobs|] == next.jobs;
      return Success(box);
    }

    /** Adds the deliveries owed by newly completed jobs, applies retention, and replaces the file. */
    method Commit(next: Ledger, persisted: bool) returns (r: Result<(), JobError>)
      modifies this`ledger, this`disk
      ensures match CommitLedger(world, old(State()), next)
              case Failure(e) => r == Failure(e) && ledger == old(ledger) && disk == old(disk)
              case Success(l) =>
                if persisted then r.Success? && ledger == l && disk == l
                else r == Failure(Storage) && ledger == old(ledger) && disk == old(disk)
    {
      var box := AddDeliveries(next);
      if box.Failure? {
        return Failure(box.error);
      }
      var jobs := next.jobs;
      if limits.retainTerminal > 0 {
        var terminal := Sort(Map(Filter(jobs, IsTerminal()), StampOf()));
        var expired := if |terminal| <= limits.retainTerminal then []
            else terminal[..|terminal| - limits.retainTerminal];
        jobs := Filter(jobs, Kept(expired));
      }
      if !persisted {
        return Failure(Storage);
      }
      ledger := Ledger(2, jobs, box.value);
      disk := ledger;
      return Success(());
    }

    /** Commits a proposed ledger and answers `job` once it is durable. */
    method Carry(next: Ledger, job: Option<Job>, persisted: bool) returns (r: Result<Option<Job>, JobError>)
      modifies this`ledger, this`disk
      ensures (State(), r) == Settle(world, old(State()), Success(Propose(next, job)), persisted)
      ensures old(disk == ledger) ==> disk == ledger
    {
      var written := Commit(next, persisted);
      return if written.Success? then Success(job) else Failure(written.error);
    }

    method Enqueue(request: Request, retryOf: Option<string>, digest: Option<string>, newId: string, now: int,
                   persisted: bool)
      returns (r: Result<Option<Job>, JobError>)
      modifies this`ledger, this`disk
      ensures (State(), r) ==
              Settle(world, old(State()), JobModel.Enqueue(old(State()), request, retryOf, digest, newId, now),
                  persisted)
      ensures old(disk == ledger) ==> disk == ledger
    {
      if !ValidRequest(request) {
        return Failure(Invalid);
      }
      if Count(ledger.jobs, IsQueued()) >= limits.maxQueued {
        return Failure(Full);
      }
      if Targeted(targets, request.region) {
        var reserved := Count(ledger.jobs, Reserving(targets));
        if |ledger.completions| + reserved >= MAX_COMPLETION_EVENTS {
          return Failure(Full);
        }
      }
      var job := Job(newId, request, Queued, now, now, NO_PROGRESS, None, retryOf, None, digest);
      r := Carry(ledger.(jobs := ledger.jobs + [job]), Some(job), persisted);
    }

    method Submit(request: Request, newId: string, now: int, persisted: bool) returns (r: Result<Option<Job>, JobError>)
      requires Valid() && UnusedId(world, ledger, newId)
      modifies this`ledger, this`disk
      ensures (State(), r) == Perform(world, old(State()), Action.Submit(request, newId, now), persisted)
      ensures Valid()
    {
      r := Enqueue(request, None, None, newId, now, persisted);
      PerformKeeps(world, old(State()), Action.Submit(request, newId, now), persisted);
    }

    method SubmitIdempotent(request: Request, key: string, newId: string, now: int, persisted: bool)
      returns (r: Result<Option<Job>, JobError>)
      requires Valid() && UnusedId(world, ledger, newId)
      modifies this`ledger, this`disk
      ensures (State(), r) == Perform(world, old(State()), Action.SubmitIdempotent(request, key, newId, now), persisted)
      ensures Valid()
    {
      PerformKeeps(world, State(), Action.SubmitIdempotent(request, key, newId, now), persisted);
      if !ValidRequest(request) || !ValidKey(key) {
        return Failure(Invalid);
      }
      var digest := world.sha256(key);
      var found := First(ledger.jobs, HasDigest(digest));
      if found.Some? {
        var job := ledger.jobs[found.value];
        return if job.request == request then Success(Some(job)) else Failure(Conflict);
      }
      r := Enqueue(request, None, Some(digest), newId, now, persisted);
    }

    method Retry(id: string, newId: string, now: int, persisted: bool) returns (r: Result<Option<Job>, JobError>)
      requires Valid() && UnusedId(world, ledger, newId)
      modifies this`ledger, this`disk
      ensures (State(), r) == Perform(world, old(State()), Action.Retry(id, newId, now), persisted)
      ensures Valid()
    {
      PerformKeeps(world, State(), Action.Retry(id, newId, now), persisted);
      var found := First(ledger.jobs, HasId(id));
      if found.None? {
        return Failure(NotFound);
      }
      var job := ledger.jobs[found.value];
      if !(job.status.Failed? || job.status.Cancelled?) {
        return Failure(Conflict);
      }
      r := Enqueue(job.request, Some(id), None, newId, now, persisted);
    }

    method Claim(now: int, persisted: bool) returns (r: Result<Option<Job>, JobError>)
      requires Valid()
      modifies this`ledger, this`disk
      ensures (State(), r) == Perform(world, old(State()), Action.Claim(now), persisted)
      ensures Valid()
    {
      PerformKeeps(world, State(), Action.Claim(now), persisted);
      var active := Filter(ledger.jobs, IsActive());
      FilterMembers(ledger.jobs, IsActive());
      if |active| >= limits.maxRunning {
        return Success(None);
      }
      var index := First(ledger.jobs, Runnable(ledger.jobs));
      if index.None? {
        return Success(None);
      }
      var job := ledger.jobs[index.value].(status := Running, updatedAt := now);
      r := Carry(ledger.(jobs := ledger.jobs[index.value := job]), Some(job), persisted);
    }

    /** Clones the ledger, edits the job called `id`, stamps it and commits. */
    method Mutate(id: string, edit: Job -> Result<Job, JobError>, now: int, persisted: bool)
      returns (r: Result<Option<Job>, JobError>)
      modifies this`ledger, this`disk
      ensures (State(), r) == Settle(world, old(State()), MutatePlan(old(State()), id, edit, now), persisted)
      ensures old(disk == ledger) ==> disk == ledger
    {
      var found := First(ledger.jobs, HasId(id));
      if found.None? {
        return Failure(NotFound);
      }
      var edited := edit(ledger.jobs[found.value]);
      if edited.Failure? {
        return Failure(edited.error);
      }
      var job := edited.value.(updatedAt := now);
      r := Carry(ledger.(jobs := ledger.jobs[found.value := job]), Some(job), persisted);
    }

    method Cancel(id: string, now: int, persisted: bool) returns (r: Result<Option<Job>, JobError>)
      requires Valid()
      modifies this`ledger, this`disk
      ensures (State(), r) == Perform(world, old(State()), Action.Cancel(id, now), persisted)
      ensures Valid()
    {
      PerformKeeps(world, State(), Action.Cancel(id, now), persisted);
      assert MutatePlan(State(), id, CancelEdit(), now) == Decide(world, State(), Action.Cancel(id, now));
      r := Mutate(id, CancelEdit(), now, persisted);
    }

    method ReportProgress(id: string, progress: Progress, now: int, persisted: bool)
      returns (r: Result<Option<Job>, JobError>)
      requires Valid()
      modifies this`ledger, this`disk
      ensures (State(), r) == Perform(world, old(State()), Report(id, progress, now), persisted)
      ensures Valid()
    {
      PerformKeeps(world, State(), Report(id, progress, now), persisted);
      if !ValidProgress(progress) {
        return Failure(Invalid);
      }
      assert MutatePlan(State(), id, ProgressEdit(progress), now) == Decide(world, State(), Report(id, progress, now));
      r := Mutate(id, ProgressEdit(progress), now, persisted);
    }

    method FinishWithOutcome(id: string, failureCode: Option<string>, outcome: Option<Outcome>, now: int,
                             persisted: bool)
      returns (r: Result<Option<Job>, JobError>)
      requires Valid()
      modifies this`ledger, this`disk
      ensures (State(), r) == Perform(world, old(State()), Finish(id, failureCode, outcome, now), persisted)
      ensures Valid()
    {
      PerformKeeps(world, State(), Finish(id, failureCode, outcome, now), persisted);
      if !ValidFailureCode(failureCode) {
        return Failure(Invalid);
      }
      assert MutatePlan(State(), id, FinishEdit(failureCode, outcome), now) ==
             Decide(world, State(), Finish(id, failureCode, outcome, now));
      r := Mutate(id, FinishEdit(failureCode, outcome), now, persisted);
    }

    method AcknowledgeCompletion(jobId: string, target: string, persisted: bool)
      returns (r: Result<Option<Job>, JobError>)
      requires Valid()
      modifies this`ledger, this`disk
      ensures (State(), r) == Perform(world, old(State()), Acknowledge(jobId, target), persisted)
      ensures Valid()
    {
      PerformKeeps(world, State(), Acknowledge(jobId, target), persisted);
      if !HexDigest(target) || !world.isUuid(jobId) {
        return Failure(Invalid);
      }
      var found := First(ledger.completions, IsDeliveryOf(jobId));
      if found.None? {
        return Failure(NotFound);
      }
      var delivery := ledger.completions[found.value];
      if target !in delivery.pending {
        return Failure(NotFound);
      }
      var trimmed := delivery.(pending := Filter(delivery.pending, NotIdentity(target)));
      var box := Filter(ledger.completions[found.value := trimmed], HasPending());
      r := Carry(ledger.(completions := box), None, persisted);
    }
  }

  /** One call keeps the invariant, whether or not the file could be written. */
  lemma PerformKeeps(w: World, st: Store, a: Action, persisted: bool)
    requires Honest(w) && Inv(w, st) && Fresh(w, st.ledger, a)
    ensures Inv(w, Perform(w, st, a, persisted).0)
  {
    if Written(w, st, a).Some? {
      WrittenKeeps(w, st, a);
    }
  }

  /** A failed announcement fails the whole commit. */
  lemma AnnounceNext(w: World, prior: seq<Job>, targets: seq<Target>, jobs: seq<Job>, i: nat,
                     before: seq<Delivery>, box: seq<Delivery>)
    requires i < |jobs| && Announce(w, prior, targets, jobs[..i], before) == Success(box)
    ensures Announce(w, prior, targets, jobs[..i + 1], before) == AnnounceJob(w, prior, targets, jobs[i], box)
  {
    assert jobs[..i + 1][..i] == jobs[..i];
  }

  lemma {:induction false} AnnounceFails(w: World, prior: seq<Job>, targets: seq<Target>, jobs: seq<Job>, n: nat,
                                         box: seq<Delivery>)
    requires n <= |jobs| && Announce(w, prior, targets, jobs[..n], box).Failure?
    ensures Announce(w, prior, targets, jobs, box) == Failure(Announce(w, prior, targets, jobs[..n], box).error)
    decreases |jobs|
  {
    if n == |jobs| {
      assert jobs[..n] == jobs;
    } else {
      assert jobs[..|jobs| - 1][..n] == jobs[..n];
      AnnounceFails(w, prior, targets, jobs[..|jobs| - 1], n, box);
    }
  }
}
