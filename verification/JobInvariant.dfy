/** What every operation of the job store keeps: a sound ledger, the slot limits, outbox capacity. */
module JobInvariant {
  import opened Wrappers
  import opened Seqs
  import opened JobModel

  /** Outcome, failure and status of one job agree. */
  predicate Consistent(j: Job) {
    && (j.outcome.Some? ==> j.status.Completed? && j.outcome.value.region == j.request.region)
    && (j.failure.Some? <==> j.status.Failed?)
  }

  predicate SameSlot(a: Job, b: Job) {
    a.status.OccupiesSlot() && b.status.OccupiesSlot() && a.request.region == b.request.region
  }

  /** The ledger invariant: what `open` checks, and what it takes for granted. */
  predicate Sound(w: World, l: Ledger) {
    && Loadable(w, l)
    && l.schemaVersion == 2
    && (forall i | 0 <= i < |l.jobs| :: Consistent(l.jobs[i]))
    && (forall i, j | 0 <= i < j < |l.jobs| :: !SameSlot(l.jobs[i], l.jobs[j]))
    && (forall d, i | 0 <= d < |l.completions| && 0 <= i < |l.jobs| ::
          l.completions[d].event.jobId == l.jobs[i].id ==> l.jobs[i].status.Completed?)
  }

  /** Every delivery owed now or later has an outbox slot. */
  predicate Capacity(l: Ledger, targets: seq<Target>) {
    Count(l.jobs, Reserving(targets)) + |l.completions| <= MAX_COMPLETION_EVENTS
  }

  predicate Inv(w: World, st: Store) {
    && Sound(w, st.ledger)
    && st.limits.maxRunning > 0
    && st.limits.maxQueued > 0
    && Count(st.ledger.jobs, IsActive()) <= st.limits.maxRunning
    && ValidTargets(st.targets)
    && Capacity(st.ledger, st.targets)
  }

  /** SHA-256 digests are written as 64 lower-case hexadecimal digits. */
  ghost predicate Honest(w: World) {
    forall key :: HexDigest(w.sha256(key))
  }

  predicate UnusedId(w: World, l: Ledger, id: string) {
    && w.isUuid(id)
    && (forall i | 0 <= i < |l.jobs| :: l.jobs[i].id != id)
    && (forall d | 0 <= d < |l.completions| :: l.completions[d].event.jobId != id)
  }

  /** A freshly drawn UUID repeats no id of the ledger. */
  predicate Fresh(w: World, l: Ledger, a: Action) {
    match a
    case Submit(_, newId, _) => UnusedId(w, l, newId)
    case SubmitIdempotent(_, _, newId, _) => UnusedId(w, l, newId)
    case Retry(_, newId, _) => UnusedId(w, l, newId)
    case _ => true
  }

  // ---- Retention -------------------------------------------------------------------------------

  lemma {:induction false} RetainKeeps(w: World, l: Ledger, keep: nat)
    requires Sound(w, l)
    ensures Sound(w, l.(jobs := Retain(l.jobs, keep)))
  {
    if keep != 0 {
      var p := Kept(Expired(l.jobs, keep));
      var at := Positions(l.jobs, p);
      var kept := Filter(l.jobs, p);
      forall i, j | 0 <= i < j < |kept|
        ensures kept[i].id != kept[j].id && !SharesDigest(kept[i], kept[j]) && !SameSlot(kept[i], kept[j])
      {
        assert kept[i] == l.jobs[at[i]] && kept[j] == l.jobs[at[j]] && at[i] < at[j];
      }
      forall i | 0 <= i < |kept|
        ensures GoodJob(w, kept[i]) && Consistent(kept[i])
        ensures forall d | 0 <= d < |l.completions| ::
          l.completions[d].event.jobId == kept[i].id ==> kept[i].status.Completed?
      {
        assert kept[i] == l.jobs[at[i]];
      }
    }
  }

  lemma {:induction false} RetainCount(jobs: seq<Job>, keep: nat, p: Job -> bool)
    ensures Count(Retain(jobs, keep), p) <= Count(jobs, p)
  {
    CountFiltered(jobs, Kept(Expired(jobs, keep)), p);
  }

  // ---- Announcements ---------------------------------------------------------------------------

  lemma {:induction false} AnnounceQuiet(w: World, prior: seq<Job>, targets: seq<Target>, jobs: seq<Job>,
                                         box: seq<Delivery>)
    requires forall i | 0 <= i < |jobs| :: !Announces(prior, targets, jobs[i])
    ensures Announce(w, prior, targets, jobs, box) == Success(box)
  {
    if jobs != [] {
      AnnounceQuiet(w, prior, targets, jobs[..|jobs| - 1], box);
    }
  }

  /** When only job `i` can announce, the outbox gains at most that delivery. */
  lemma {:induction false} AnnounceOne(
      w: World, prior: seq<Job>, targets: seq<Target>, jobs: seq<Job>, i: nat, box: seq<Delivery>)
    requires i < |jobs|
    requires forall k | 0 <= k < |jobs| && k != i :: !Announces(prior, targets, jobs[k])
    ensures Announce(w, prior, targets, jobs, box) == AnnounceJob(w, prior, targets, jobs[i], box)
  {
    var init := jobs[..|jobs| - 1];
    if i == |jobs| - 1 {
      AnnounceQuiet(w, prior, targets, init, box);
    } else {
      AnnounceOne(w, prior, targets, init, i, box);
      assert !Announces(prior, targets, jobs[|jobs| - 1]);
    }
  }

  /** The addressees of a region are exactly its configured identities. */
  lemma {:induction false} RecipientsMembers(targets: seq<Target>, region: Region)
    ensures forall id :: id in Recipients(targets, region) <==>
            exists t | t in targets :: t.region == region && t.identity == id
    ensures Recipients(targets, region) != [] <==> Targeted(targets, region)
  {
    var mine := Filter(targets, InRegion(region));
    var ids := Recipients(targets, region);
    FilterMembers(targets, InRegion(region));
    forall id | id in ids ensures exists t | t in targets :: t.region == region && t.identity == id {
      var k :| 0 <= k < |ids| && ids[k] == id;
      assert mine[k] in mine;
    }
    forall t | t in targets && t.region == region ensures t.identity in ids {
      assert t in mine;
      var k :| 0 <= k < |mine| && mine[k] == t;
      assert ids[k] == t.identity;
    }
    assert ids != [] ==> ids[0] in ids;
  }

  /** They are distinct, well-formed, and at most 16. */
  lemma {:induction false} RecipientsValid(targets: seq<Target>, region: Region)
    requires ValidTargets(targets)
    ensures |Recipients(targets, region)| <= 16
    ensures Distinct(Recipients(targets, region))
    ensures forall id | id in Recipients(targets, region) :: HexDigest(id)
    ensures Recipients(targets, region) != [] <==> Targeted(targets, region)
  {
    RecipientsMembers(targets, region);
    var at := Positions(targets, InRegion(region));
    var ids := Recipients(targets, region);
    var all := Map(targets, IdentityOf());
    forall i, j | 0 <= i < j < |ids| ensures ids[i] != ids[j] {
      assert ids[i] == all[at[i]] && ids[j] == all[at[j]] && at[i] < at[j];
    }
  }

  // ---- The three ways a ledger changes ---------------------------------------------------------

  lemma AppendKeeps(w: World, l: Ledger, job: Job)
    requires Sound(w, l) && UnusedId(w, l, job.id) && GoodJob(w, job) && Consistent(job) && job.status.Queued?
    requires forall i | 0 <= i < |l.jobs| :: !SharesDigest(l.jobs[i], job)
    ensures Sound(w, l.(jobs := l.jobs + [job]))
  {
  }

  /** What a job may become without breaking the ledger. */
  predicate Succeeds(l: Ledger, i: nat, job: Job)
    requires i < |l.jobs|
  {
    && job.id == l.jobs[i].id && job.request == l.jobs[i].request && job.digest == l.jobs[i].digest
    && Consistent(job)
    && (l.jobs[i].status.Completed? ==> job.status.Completed?)
    && (forall k | 0 <= k < |l.jobs| && k != i :: !SameSlot(l.jobs[k], job))
  }

  lemma ReplaceKeeps(w: World, l: Ledger, i: nat, job: Job)
    requires Sound(w, l) && i < |l.jobs| && Succeeds(l, i, job)
    ensures Sound(w, l.(jobs := l.jobs[i := job]))
  {
    var next := l.jobs[i := job];
    forall a, b | 0 <= a < b < |next| ensures next[a].id != next[b].id && !SharesDigest(next[a], next[b]) {
      assert l.jobs[a].id != l.jobs[b].id && !SharesDigest(l.jobs[a], l.jobs[b]);
    }
    forall a, b | 0 <= a < b < |next| ensures !SameSlot(next[a], next[b]) {
      assert !SameSlot(l.jobs[a], l.jobs[b]);
    }
    forall k | 0 <= k < |next| ensures GoodJob(w, next[k]) {
      assert GoodJob(w, l.jobs[k]);
    }
  }

  lemma DeliverKeeps(w: World, l: Ledger, d: Delivery)
    requires Sound(w, l) && |l.completions| < MAX_COMPLETION_EVENTS && GoodDelivery(w, d)
    requires forall k | 0 <= k < |l.completions| :: l.completions[k].event.jobId != d.event.jobId
    requires forall i | 0 <= i < |l.jobs| :: d.event.jobId == l.jobs[i].id ==> l.jobs[i].status.Completed?
    ensures Sound(w, l.(completions := l.completions + [d]))
  {
  }

  /** The delivery at `index` after one acknowledgement. */
  function Trimmed(box: seq<Delivery>, index: nat, target: string): seq<Delivery>
    requires index < |box|
  {
    box[index := box[index].(pending := Filter(box[index].pending, NotIdentity(target)))]
  }

  lemma {:induction false} AcknowledgeKeeps(w: World, l: Ledger, index: nat, target: string)
    requires Sound(w, l) && index < |l.completions|
    ensures Sound(w, l.(completions := Acknowledged(l.completions, index, target)))
    ensures |Acknowledged(l.completions, index, target)| <= |l.completions|
  {
    var d := l.completions[index];
    var trimmed := Trimmed(l.completions, index, target);
    var box := Acknowledged(l.completions, index, target);
    assert box == Filter(trimmed, HasPending());
    var at := Positions(trimmed, HasPending());
    var from := Positions(d.pending, NotIdentity(target));
    var left := Filter(d.pending, NotIdentity(target));
    forall a, b | 0 <= a < b < |left| ensures left[a] != left[b] {
      assert left[a] == d.pending[from[a]] && left[b] == d.pending[from[b]] && from[a] < from[b];
    }
    forall a | 0 <= a < |left| ensures HexDigest(left[a]) {
      assert left[a] == d.pending[from[a]];
    }
    forall k | 0 <= k < |box| ensures GoodDelivery(w, box[k]) && box[k].event == l.completions[at[k]].event {
      assert box[k] == trimmed[at[k]];
      assert GoodDelivery(w, l.completions[at[k]]);
    }
    forall a, b | 0 <= a < b < |box| ensures box[a].event.jobId != box[b].event.jobId {
      assert at[a] < at[b];
    }
  }

  // ---- Every operation -------------------------------------------------------------------------

  /** Committing a ledger that announces nothing only applies retention. */
  lemma QuietCommit(w: World, st: Store, next: Ledger)
    requires Inv(w, st)
    requires Sound(w, next) && Capacity(next, st.targets) && Count(next.jobs, IsActive()) <= st.limits.maxRunning
    requires forall i | 0 <= i < |next.jobs| :: !Announces(st.ledger.jobs, st.targets, next.jobs[i])
    ensures CommitLedger(w, st, next) == Success(next.(jobs := Retain(next.jobs, st.limits.retainTerminal)))
    ensures Inv(w, st.(ledger := CommitLedger(w, st, next).value))
  {
    AnnounceQuiet(w, st.ledger.jobs, st.targets, next.jobs, next.completions);
    RetainKeeps(w, next, st.limits.retainTerminal);
    RetainCount(next.jobs, st.limits.retainTerminal, IsActive());
    RetainCount(next.jobs, st.limits.retainTerminal, Reserving(st.targets));
  }

  lemma EnqueueKeeps(w: World, st: Store, request: Request, retryOf: Option<string>, digest: Option<string>, id: string,
                     now: int)
    requires Inv(w, st) && UnusedId(w, st.ledger, id)
    requires digest.Some? ==> HexDigest(digest.value) && forall i | 0 <= i < |st.ledger.jobs| ::
             st.ledger.jobs[i].digest != digest
    requires Enqueue(st, request, retryOf, digest, id, now).Success?
    ensures var next := Enqueue(st, request, retryOf, digest, id, now).value.next;
            CommitLedger(w, st, next).Success? && Inv(w, st.(ledger := CommitLedger(w, st, next).value))
  {
    var job := NewJob(request, retryOf, digest, id, now);
    var jobs := st.ledger.jobs;
    var next := st.ledger.(jobs := jobs + [job]);
    AppendKeeps(w, st.ledger, job);
    FilterAppend(jobs, [job], IsActive());
    FilterAppend(jobs, [job], Reserving(st.targets));
    assert [job][..0] == [];
    forall i | 0 <= i < |next.jobs| ensures !Announces(jobs, st.targets, next.jobs[i]) {
      if i < |jobs| { assert next.jobs[i] in jobs; }
    }
    QuietCommit(w, st, next);
  }

  /** The next ledger when job `i` becomes `job`, and who can announce in it. */
  lemma ReplaceCounts(w: World, st: Store, i: nat, job: Job)
    requires Inv(w, st) && i < |st.ledger.jobs| && Succeeds(st.ledger, i, job)
    ensures var next := st.ledger.jobs[i := job];
            && Count(next, IsActive()) == Count(st.ledger.jobs, IsActive())
                 - (if st.ledger.jobs[i].status.OccupiesSlot() then 1 else 0)
                 + (if job.status.OccupiesSlot() then 1 else 0)
            && Count(next, Reserving(st.targets)) == Count(st.ledger.jobs, Reserving(st.targets))
                 - (if Reserving(st.targets)(st.ledger.jobs[i]) then 1 else 0)
                 + (if Reserving(st.targets)(job) then 1 else 0)
            && (forall k | 0 <= k < |next| && k != i :: !Announces(st.ledger.jobs, st.targets, next[k]))
  {
    var next := st.ledger.jobs[i := job];
    FilterUpdate(st.ledger.jobs, i, job, IsActive());
    FilterUpdate(st.ledger.jobs, i, job, Reserving(st.targets));
    forall k | 0 <= k < |next| && k != i ensures !Announces(st.ledger.jobs, st.targets, next[k]) {
      assert next[k] in st.ledger.jobs;
    }
  }

  /** A job that stays or becomes anything but newly completed. */
  lemma QuietReplaceKeeps(w: World, st: Store, i: nat, job: Job)
    requires Inv(w, st) && i < |st.ledger.jobs| && Succeeds(st.ledger, i, job)
    requires !Announces(st.ledger.jobs, st.targets, job)
    requires job.status.OccupiesSlot() && !st.ledger.jobs[i].status.OccupiesSlot() ==>
             Count(st.ledger.jobs, IsActive()) < st.limits.maxRunning
    requires !job.status.Terminal() ==> !st.ledger.jobs[i].status.Terminal()
    ensures var next := st.ledger.(jobs := st.ledger.jobs[i := job]);
            && CommitLedger(w, st, next) == Success(next.(jobs := Retain(next.jobs, st.limits.retainTerminal)))
            && Inv(w, st.(ledger := CommitLedger(w, st, next).value))
  {
    ReplaceCounts(w, st, i, job);
    ReplaceKeeps(w, st.ledger, i, job);
    var next := st.ledger.(jobs := st.ledger.jobs[i := job]);
    forall k | 0 <= k < |next.jobs| ensures !Announces(st.ledger.jobs, st.targets, next.jobs[k]) {
    }
    QuietCommit(w, st, next);
  }

  /** A running job whose completion must be announced: it always finds a free outbox slot. */
  lemma AnnouncedReplaceKeeps(w: World, st: Store, i: nat, job: Job)
    requires Inv(w, st) && i < |st.ledger.jobs| && Succeeds(st.ledger, i, job)
    requires !st.ledger.jobs[i].status.Terminal() && Announces(st.ledger.jobs, st.targets, job)
    ensures var next := st.ledger.(jobs := st.ledger.jobs[i := job]);
            && CommitLedger(w, st, next) ==
               (if !w.bounded(EventOf(job)) then Failure(Invalid)
                else Success(Ledger(2, Retain(next.jobs, st.limits.retainTerminal),
                                    next.completions + [DeliveryOf(st.targets, job)])))
            && (w.bounded(EventOf(job)) ==> Inv(w, st.(ledger := CommitLedger(w, st, next).value)))
  {
    var l := st.ledger;
    var next := l.(jobs := l.jobs[i := job]);
    ReplaceCounts(w, st, i, job);
    ReplaceKeeps(w, l, i, job);
    AnnounceOne(w, l.jobs, st.targets, next.jobs, i, l.completions);
    RecipientsValid(st.targets, job.request.region);
    assert Reserving(st.targets)(l.jobs[i]) && !Reserving(st.targets)(job);
    if w.bounded(EventOf(job)) {
      var d := DeliveryOf(st.targets, job);
      var full := next.(completions := l.completions + [d]);
      assert GoodJob(w, l.jobs[i]);
      forall k | 0 <= k < |next.jobs| && job.id == next.jobs[k].id ensures next.jobs[k].status.Completed? {
        assert k == i;
      }
      DeliverKeeps(w, next, d);
      assert Capacity(full, st.targets);
      RetainKeeps(w, full, st.limits.retainTerminal);
      RetainCount(full.jobs, st.limits.retainTerminal, IsActive());
      RetainCount(full.jobs, st.limits.retainTerminal, Reserving(st.targets));
    }
  }

  lemma ClaimKeeps(w: World, st: Store, i: nat, now: int)
    requires Inv(w, st) && First(st.ledger.jobs, Runnable(st.ledger.jobs)) == Some(i)
    requires Count(st.ledger.jobs, IsActive()) < st.limits.maxRunning
    ensures var job := st.ledger.jobs[i].(status := Running, updatedAt := now);
            var next := st.ledger.(jobs := st.ledger.jobs[i := job]);
            CommitLedger(w, st, next).Success? && Inv(w, st.(ledger := CommitLedger(w, st, next).value))
  {
    var jobs := st.ledger.jobs;
    var job := jobs[i].(status := Running, updatedAt := now);
    assert Consistent(jobs[i]);
    forall k | 0 <= k < |jobs| && k != i ensures !SameSlot(jobs[k], job) {
      assert jobs[k] in jobs;
    }
    QuietReplaceKeeps(w, st, i, job);
  }

  /** An edit of a job already in its slot, or one that leaves it, never collides. */
  lemma SlotsStay(w: World, l: Ledger, i: nat, job: Job)
    requires Sound(w, l) && i < |l.jobs|
    requires job.request == l.jobs[i].request && (job.status.OccupiesSlot() ==> l.jobs[i].status.OccupiesSlot())
    ensures forall k | 0 <= k < |l.jobs| && k != i :: !SameSlot(l.jobs[k], job)
  {
    forall k | 0 <= k < |l.jobs| && k != i ensures !SameSlot(l.jobs[k], job) {
      if k < i { assert !SameSlot(l.jobs[k], l.jobs[i]); } else { assert !SameSlot(l.jobs[i], l.jobs[k]); }
    }
  }

  /** The job `Finish` produces, with its time stamp. */
  function FinishedAt(job: Job, failureCode: Option<string>, outcome: Option<Outcome>, now: int)
      : Result<Job, JobError> {
    var done :- Finished(job, failureCode, outcome);
    Success(done.(updatedAt := now))
  }

  /** A finished job announces exactly when it completed with an outcome in a targeted region. */
  lemma FinishAnnounces(w: World, st: Store, i: nat, failureCode: Option<string>, outcome: Option<Outcome>, now: int)
    requires Inv(w, st) && i < |st.ledger.jobs|
    requires FinishedAt(st.ledger.jobs[i], failureCode, outcome, now).Success?
    ensures var job := FinishedAt(st.ledger.jobs[i], failureCode, outcome, now).value;
            && Succeeds(st.ledger, i, job) && job.status.Terminal() && !st.ledger.jobs[i].status.Terminal()
            && (Announces(st.ledger.jobs, st.targets, job) <==>
                  job.status.Completed? && job.outcome.Some? && Targeted(st.targets, job.request.region))
  {
    var l := st.ledger;
    var job := FinishedAt(l.jobs[i], failureCode, outcome, now).value;
    assert Consistent(l.jobs[i]);
    SlotsStay(w, l, i, job);
    RecipientsValid(st.targets, job.request.region);
  }

  /** A cancellation or progress report: same slot or one fewer, nothing completed. */
  lemma EditKeeps(w: World, st: Store, i: nat, job: Job)
    requires Inv(w, st) && i < |st.ledger.jobs|
    requires job.id == st.ledger.jobs[i].id && job.request == st.ledger.jobs[i].request &&
             job.digest == st.ledger.jobs[i].digest
    requires Consistent(job) && !job.status.Completed? && !st.ledger.jobs[i].status.Terminal()
    requires job.status.OccupiesSlot() ==> st.ledger.jobs[i].status.OccupiesSlot()
    ensures var next := st.ledger.(jobs := st.ledger.jobs[i := job]);
            CommitLedger(w, st, next).Success? && Inv(w, st.(ledger := CommitLedger(w, st, next).value))
  {
    SlotsStay(w, st.ledger, i, job);
    QuietReplaceKeeps(w, st, i, job);
  }

  lemma FinishKeeps(w: World, st: Store, i: nat, failureCode: Option<string>, outcome: Option<Outcome>, now: int)
    requires Inv(w, st) && i < |st.ledger.jobs|
    requires FinishedAt(st.ledger.jobs[i], failureCode, outcome, now).Success?
    ensures var job := FinishedAt(st.ledger.jobs[i], failureCode, outcome, now).value;
            var next := st.ledger.(jobs := st.ledger.jobs[i := job]);
            CommitLedger(w, st, next).Success? ==> Inv(w, st.(ledger := CommitLedger(w, st, next).value))
  {
    var job := FinishedAt(st.ledger.jobs[i], failureCode, outcome, now).value;
    FinishAnnounces(w, st, i, failureCode, outcome, now);
    if Announces(st.ledger.jobs, st.targets, job) {
      AnnouncedReplaceKeeps(w, st, i, job);
    } else {
      QuietReplaceKeeps(w, st, i, job);
    }
  }

  lemma AckKeeps(w: World, st: Store, i: nat, target: string)
    requires Inv(w, st) && i < |st.ledger.completions|
    ensures var next := st.ledger.(completions := Acknowledged(st.ledger.completions, i, target));
            CommitLedger(w, st, next).Success? && Inv(w, st.(ledger := CommitLedger(w, st, next).value))
  {
    var jobs := st.ledger.jobs;
    AcknowledgeKeeps(w, st.ledger, i, target);
    forall k | 0 <= k < |jobs| ensures !Announces(jobs, st.targets, jobs[k]) {
      assert jobs[k] in jobs;
    }
    QuietCommit(w, st, st.ledger.(completions := Acknowledged(st.ledger.completions, i, target)));
  }

  lemma ConsistentAt(w: World, l: Ledger, i: nat)
    requires Sound(w, l) && i < |l.jobs|
    ensures Consistent(l.jobs[i])
  {
  }

  /**
   Every ledger any operation writes keeps the invariant: sound, slot limits respected, and every
   delivery owed now or later holding a free outbox slot.
   */
  lemma WrittenKeeps(w: World, st: Store, a: Action)
    requires Honest(w) && Inv(w, st) && Fresh(w, st.ledger, a)
    requires Written(w, st, a).Some?
    ensures Inv(w, st.(ledger := Written(w, st, a).value.ledger))
  {
    var jobs := st.ledger.jobs;
    match a
    case Submit(request, newId, now) => EnqueueKeeps(w, st, request, None, None, newId, now);
    case SubmitIdempotent(request, key, newId, now) =>
      EnqueueKeeps(w, st, request, None, Some(w.sha256(key)), newId, now);
    case Retry(id, newId, now) =>
      var i := First(jobs, HasId(id)).value;
      EnqueueKeeps(w, st, jobs[i].request, Some(id), None, newId, now);
    case Claim(now) => ClaimKeeps(w, st, First(jobs, Runnable(jobs)).value, now);
    case Cancel(id, now) =>
      var i := First(jobs, HasId(id)).value;
      ConsistentAt(w, st.ledger, i);
      EditKeeps(w, st, i, jobs[i].(status := CancelRequested(jobs[i].status).value, updatedAt := now));
    case Report(id, progress, now) =>
      var i := First(jobs, HasId(id)).value;
      ConsistentAt(w, st.ledger, i);
      EditKeeps(w, st, i, jobs[i].(progress := progress, updatedAt := now));
    case Finish(id, failureCode, outcome, now) =>
      FinishKeeps(w, st, First(jobs, HasId(id)).value, failureCode, outcome, now);
    case Acknowledge(jobId, target) =>
      AckKeeps(w, st, First(st.ledger.completions, IsDeliveryOf(jobId)).value, target);
  }
}
