/** The job ledger as values: jobs, the outbox, and what every operation of the store computes from them. */
module JobModel {
  import opened Wrappers
  import opened Seqs

  datatype Region = Jp | Hk | En | Kr | Cn

  datatype Status = Queued | Running | Cancelling | Completed | Failed | Cancelled {
    predicate Terminal() {
      Completed? || Failed? || Cancelled?
    }

    predicate OccupiesSlot() {
      Running? || Cancelling?
    }
  }

  datatype Operation = Update | Export | Verify

  datatype Request = Request(region: Region, profile: string, operation: Operation)

  datatype Progress = Progress(phase: string, completed: nat, failed: nat, total: Option<nat>, bytes: nat)

  const NO_PROGRESS := Progress("", 0, 0, None, 0)

  /** `region` is the verified region; `detail` stands for the rest of the persisted result. */
  datatype Outcome = Outcome(region: Region, detail: string)

  datatype Job = Job(
    id: string, request: Request, status: Status, createdAt: int, updatedAt: int, progress: Progress,
    failure: Option<string>, retryOf: Option<string>, outcome: Option<Outcome>, digest: Option<string>)

  datatype Completion = Completion(
    schemaVersion: nat, jobId: string, request: Request, outcome: Outcome, completedAt: int)

  datatype Delivery = Delivery(event: Completion, pending: seq<string>)

  datatype Target = Target(region: Region, identity: string)

  datatype Ledger = Ledger(schemaVersion: nat, jobs: seq<Job>, completions: seq<Delivery>)

  datatype Limits = Limits(maxRunning: nat, maxQueued: nat, retainTerminal: nat)

  datatype JobError = Invalid | Full | NotFound | Conflict | Storage

  /** The parts of the environment the ledger only compares: UUID syntax, SHA-256, serialized size. */
  datatype World = World(isUuid: string -> bool, sha256: string -> string, bounded: Completion -> bool)

  /** The store's memory: what the process holds besides the file on disk. */
  datatype Store = Store(ledger: Ledger, targets: seq<Target>, limits: Limits)

  const MAX_COMPLETION_EVENTS: nat := 4096
  const EMPTY := Ledger(2, [], [])

  // ---- Validation ------------------------------------------------------------------------------

  predicate LowerHex(c: char) {
    '0' <= c <= '9' || 'a' <= c <= 'f'
  }

  /** A target identity and an idempotency digest are both 64 lower-case hexadecimal digits. */
  predicate HexDigest(value: string) {
    |value| == 64 && forall c | c in value :: LowerHex(c)
  }

  predicate Alphanumeric(c: char) {
    '0' <= c <= '9' || 'a' <= c <= 'z' || 'A' <= c <= 'Z'
  }

  predicate ValidRequest(request: Request) {
    && request.region != Cn
    && 0 < |request.profile| <= 64
    && forall c | c in request.profile :: Alphanumeric(c) || c == '_' || c == '-'
  }

  predicate ValidKey(key: string) {
    && 0 < |key| <= 128
    && forall c | c in key :: Alphanumeric(c) || c in "-_.:"
  }

  predicate ValidProgress(p: Progress) {
    && |p.phase| <= 64
    && (forall c | c in p.phase :: Alphanumeric(c) || c == '_')
    && (p.total.Some? ==> SaturatingAdd(p.completed, p.failed) <= p.total.value)
  }

  /** 64-bit saturating addition. */
  function SaturatingAdd(a: nat, b: nat): nat {
    if a + b > 0xFFFF_FFFF_FFFF_FFFF then 0xFFFF_FFFF_FFFF_FFFF else a + b
  }

  predicate ValidFailureCode(code: Option<string>) {
    code.Some? ==>
      && 0 < |code.value| <= 64
      && forall c | c in code.value :: 'a' <= c <= 'z' || c == '_'
  }

  predicate Distinct<T(==)>(s: seq<T>) {
    forall i, j | 0 <= i < j < |s| :: s[i] != s[j]
  }

  function IdentityOf(): Target -> string {
    (t: Target) => t.identity
  }

  predicate ValidTargets(targets: seq<Target>) {
    && |targets| <= 16
    && (forall t | t in targets :: t.region != Cn && HexDigest(t.identity))
    && Distinct(Map(targets, IdentityOf()))
  }

  // ---- Predicates over jobs and deliveries -----------------------------------------------------

  function HasId(id: string): Job -> bool {
    (j: Job) => j.id == id
  }

  function HasDigest(digest: string): Job -> bool {
    (j: Job) => j.digest == Some(digest)
  }

  function IsQueued(): Job -> bool {
    (j: Job) => j.status.Queued?
  }

  function IsActive(): Job -> bool {
    (j: Job) => j.status.OccupiesSlot()
  }

  function IsTerminal(): Job -> bool {
    (j: Job) => j.status.Terminal()
  }

  predicate Targeted(targets: seq<Target>, region: Region) {
    exists t | t in targets :: t.region == region
  }

  /** A job whose completion may still need an outbox slot. */
  function Reserving(targets: seq<Target>): Job -> bool {
    (j: Job) => !j.status.Terminal() && Targeted(targets, j.request.region)
  }

  function InRegion(region: Region): Target -> bool {
    (t: Target) => t.region == region
  }

  /** A queued job whose region no running job occupies. */
  function Runnable(jobs: seq<Job>): Job -> bool {
    (j: Job) => j.status.Queued? && !exists a | a in jobs ::
        a.status.OccupiesSlot() && a.request.region == j.request.region
  }

  function IsDeliveryOf(jobId: string): Delivery -> bool {
    (d: Delivery) => d.event.jobId == jobId
  }

  function HasPending(): Delivery -> bool {
    (d: Delivery) => d.pending != []
  }

  function NotIdentity(target: string): string -> bool {
    id => id != target
  }

  /** The identities a completion in `region` is addressed to, in configuration order. */
  function Recipients(targets: seq<Target>, region: Region): seq<string> {
    Map(Filter(targets, InRegion(region)), IdentityOf())
  }

  // ---- Commit: the outbox ----------------------------------------------------------------------

  predicate AlreadyCompleted(prior: seq<Job>, id: string) {
    exists o | o in prior :: o.id == id && o.status.Completed?
  }

  /** Whether committing `job` must add a delivery. */
  predicate Announces(prior: seq<Job>, targets: seq<Target>, job: Job) {
    && job.status.Completed?
    && !AlreadyCompleted(prior, job.id)
    && job.outcome.Some?
    && Recipients(targets, job.request.region) != []
  }

  function EventOf(job: Job): Completion
    requires job.outcome.Some?
  {
    Completion(1, job.id, job.request, job.outcome.value, job.updatedAt)
  }

  function DeliveryOf(targets: seq<Target>, job: Job): Delivery
    requires job.outcome.Some?
  {
    Delivery(EventOf(job), Recipients(targets, job.request.region))
  }

  function AnnounceJob(w: World, prior: seq<Job>, targets: seq<Target>, job: Job, box: seq<Delivery>):
    Result<seq<Delivery>, JobError>
  {
    if !Announces(prior, targets, job) then Success(box)
    else if |box| >= MAX_COMPLETION_EVENTS then Failure(Full)
    else if !w.bounded(EventOf(job)) then Failure(Invalid)
    else Success(box + [DeliveryOf(targets, job)])
  }

  /** The outbox after visiting `jobs` in order, starting from `box`. */
  function Announce(w: World, prior: seq<Job>, targets: seq<Target>, jobs: seq<Job>, box: seq<Delivery>):
    Result<seq<Delivery>, JobError>
  {
    if jobs == [] then Success(box)
    else
      var earlier :- Announce(w, prior, targets, jobs[..|jobs| - 1], box);
      AnnounceJob(w, prior, targets, jobs[|jobs| - 1], earlier)
  }

  // ---- Commit: retention -----------------------------------------------------------------------

  datatype Stamp = Stamp(time: int, id: string)

  function StampOf(): Job -> Stamp {
    (j: Job) => Stamp(j.updatedAt, j.id)
  }

  predicate StampLeq(a: Stamp, b: Stamp) {
    a.time < b.time || (a.time == b.time && StringLeq(a.id, b.id))
  }

  function Insert(x: Stamp, s: seq<Stamp>): seq<Stamp> {
    if s == [] then [x]
    else if StampLeq(x, s[0]) then [x] + s
    else [s[0]] + Insert(x, s[1..])
  }

  function Sort(s: seq<Stamp>): seq<Stamp> {
    if s == [] then [] else Insert(s[0], Sort(s[1..]))
  }

  /** The stamps of the oldest terminal jobs beyond the retention limit. */
  function Expired(jobs: seq<Job>, keep: nat): (r: seq<Stamp>) {
    var stamps := Sort(Map(Filter(jobs, IsTerminal()), StampOf()));
    if |stamps| <= keep then [] else stamps[..|stamps| - keep]
  }

  function Kept(expired: seq<Stamp>): Job -> bool {
    (j: Job) => !exists s | s in expired :: s.id == j.id
  }

  function Retain(jobs: seq<Job>, keep: nat): seq<Job> {
    if keep == 0 then jobs else Filter(jobs, Kept(Expired(jobs, keep)))
  }

  /** What `commit` writes when it proposes `next`. */
  function CommitLedger(w: World, st: Store, next: Ledger): Result<Ledger, JobError> {
    var box :- Announce(w, st.ledger.jobs, st.targets, next.jobs, next.completions);
    Success(Ledger(2, Retain(next.jobs, st.limits.retainTerminal), box))
  }

  // ---- Operations ------------------------------------------------------------------------------

  datatype Action =
    | Submit(request: Request, newId: string, now: int)
    | SubmitIdempotent(request: Request, key: string, newId: string, now: int)
    | Retry(id: string, newId: string, now: int)
    | Claim(now: int)
    | Cancel(id: string, now: int)
    | Report(id: string, progress: Progress, now: int)
    | Finish(id: string, failureCode: Option<string>, outcome: Option<Outcome>, now: int)
    | Acknowledge(jobId: string, target: string)

  /** An operation either answers from memory or proposes a ledger to commit. */
  datatype Plan = Reply(job: Option<Job>) | Propose(next: Ledger, job: Option<Job>)

  function NewJob(request: Request, retryOf: Option<string>, digest: Option<string>, id: string, now: int): Job {
    Job(id, request, Queued, now, now, NO_PROGRESS, None, retryOf, None, digest)
  }

  function Enqueue(st: Store, request: Request, retryOf: Option<string>, digest: Option<string>, id: string, now: int):
    Result<Plan, JobError>
  {
    if !ValidRequest(request) then Failure(Invalid)
    else if Count(st.ledger.jobs, IsQueued()) >= st.limits.maxQueued then Failure(Full)
    else if Targeted(st.targets, request.region) &&
            |st.ledger.completions| + Count(st.ledger.jobs, Reserving(st.targets)) >= MAX_COMPLETION_EVENTS
    then Failure(Full)
    else
      var job := NewJob(request, retryOf, digest, id, now);
      Success(Propose(st.ledger.(jobs := st.ledger.jobs + [job]), Some(job)))
  }

  function Replace(st: Store, index: nat, job: Job): Plan
    requires index < |st.ledger.jobs|
  {
    Propose(st.ledger.(jobs := st.ledger.jobs[index := job]), Some(job))
  }

  /** The status a cancellation request moves a job to. */
  function CancelRequested(status: Status): Option<Status> {
    match status
    case Queued => Some(Status.Cancelled)
    case Running => Some(Cancelling)
    case Cancelling => Some(Cancelling)
    case _ => None
  }

  function Finished(job: Job, failureCode: Option<string>, outcome: Option<Outcome>): Result<Job, JobError> {
    if outcome.Some? && outcome.value.region != job.request.region then Failure(Invalid)
    else
      match job.status
      case Cancelling => Success(job.(status := Status.Cancelled, outcome := None, failure := None))
      case Running =>
        if failureCode.Some? || job.progress.failed > 0 then
          Success(job.(status := Failed, outcome := None,
                       failure := Some(if failureCode.Some? then failureCode.value else "partial_failure")))
        else Success(job.(status := Completed, outcome := outcome, failure := None))
      case _ => Failure(Conflict)
  }

  /** The pending list after one receiver accepted, and the outbox without exhausted deliveries. */
  function Acknowledged(box: seq<Delivery>, index: nat, target: string): seq<Delivery>
    requires index < |box|
  {
    var d := box[index];
    Filter(box[index := d.(pending := Filter(d.pending, NotIdentity(target)))], HasPending())
  }

  function Decide(w: World, st: Store, a: Action): Result<Plan, JobError> {
    var jobs := st.ledger.jobs;
    match a
    case Submit(request, newId, now) => Enqueue(st, request, None, None, newId, now)
    case SubmitIdempotent(request, key, newId, now) =>
      if !ValidRequest(request) || !ValidKey(key) then Failure(Invalid)
      else
        var digest := w.sha256(key);
        (match First(jobs, HasDigest(digest))
         case Some(i) => if jobs[i].request == request then Success(Reply(Some(jobs[i]))) else Failure(Conflict)
         case None => Enqueue(st, request, None, Some(digest), newId, now))
    case Retry(id, newId, now) =>
      (match First(jobs, HasId(id))
       case None => Failure(NotFound)
       case Some(i) =>
         if !(jobs[i].status.Failed? || jobs[i].status.Cancelled?) then Failure(Conflict)
         else Enqueue(st, jobs[i].request, Some(id), None, newId, now))
    case Claim(now) =>
      if Count(jobs, IsActive()) >= st.limits.maxRunning then Success(Reply(None))
      else
        (match First(jobs, Runnable(jobs))
         case None => Success(Reply(None))
         case Some(i) => Success(Replace(st, i, jobs[i].(status := Running, updatedAt := now))))
    case Cancel(id, now) =>
      (match First(jobs, HasId(id))
       case None => Failure(NotFound)
       case Some(i) =>
         match CancelRequested(jobs[i].status)
         case None => Failure(Conflict)
         case Some(status) => Success(Replace(st, i, jobs[i].(status := status, updatedAt := now))))
    case Report(id, progress, now) =>
      if !ValidProgress(progress) then Failure(Invalid)
      else
        (match First(jobs, HasId(id))
         case None => Failure(NotFound)
         case Some(i) =>
           if !jobs[i].status.OccupiesSlot() then Failure(Conflict)
           else Success(Replace(st, i, jobs[i].(progress := progress, updatedAt := now))))
    case Finish(id, failureCode, outcome, now) =>
      if !ValidFailureCode(failureCode) then Failure(Invalid)
      else
        (match First(jobs, HasId(id))
         case None => Failure(NotFound)
         case Some(i) =>
           var job :- Finished(jobs[i], failureCode, outcome);
           Success(Replace(st, i, job.(updatedAt := now))))
    case Acknowledge(jobId, target) =>
      if !HexDigest(target) || !w.isUuid(jobId) then Failure(Invalid)
      else
        (match First(st.ledger.completions, IsDeliveryOf(jobId))
         case None => Failure(NotFound)
         case Some(i) =>
           if target !in st.ledger.completions[i].pending then Failure(NotFound)
           else Success(Propose(st.ledger.(completions := Acknowledged(st.ledger.completions, i, target)), None)))
  }

  /** A write: the ledger proposed, the ledger that reaches the file, and the answer. */
  datatype Write = Write(next: Ledger, ledger: Ledger, job: Option<Job>)

  /** What an action writes, if it writes at all. */
  function Written(w: World, st: Store, a: Action): Option<Write> {
    match Decide(w, st, a)
    case Success(Propose(next, job)) =>
      (match CommitLedger(w, st, next)
       case Success(l) => Some(Write(next, l, job))
       case Failure(_) => None)
    case _ => None
  }

  /** Carrying out a plan. `persisted` says whether writing the file succeeded. */
  function Settle(w: World, st: Store, plan: Result<Plan, JobError>, persisted: bool)
      : (Store, Result<Option<Job>, JobError>) {
    match plan
    case Failure(e) => (st, Failure(e))
    case Success(Reply(job)) => (st, Success(job))
    case Success(Propose(next, job)) =>
      match CommitLedger(w, st, next)
      case Failure(e) => (st, Failure(e))
      case Success(l) => if persisted then (st.(ledger := l), Success(job)) else (st, Failure(Storage))
  }

  /** One call on the store. */
  function Perform(w: World, st: Store, a: Action, persisted: bool): (Store, Result<Option<Job>, JobError>) {
    Settle(w, st, Decide(w, st, a), persisted)
  }

  // ---- Opening and configuring -----------------------------------------------------------------

  predicate GoodDelivery(w: World, d: Delivery) {
    && w.bounded(d.event)
    && d.event.schemaVersion == 1
    && w.isUuid(d.event.jobId)
    && ValidRequest(d.event.request)
    && d.event.outcome.region == d.event.request.region
    && 0 < |d.pending| <= 16
    && (forall id | id in d.pending :: HexDigest(id))
    && Distinct(d.pending)
  }

  predicate GoodJob(w: World, j: Job) {
    && (j.digest.Some? ==> HexDigest(j.digest.value))
    && w.isUuid(j.id)
    && ValidRequest(j.request)
  }

  predicate SharesDigest(a: Job, b: Job) {
    a.digest.Some? && a.digest == b.digest
  }

  /** Everything `open` demands of the file it reads. */
  predicate Loadable(w: World, l: Ledger) {
    && l.schemaVersion in {1, 2}
    && |l.completions| <= MAX_COMPLETION_EVENTS
    && (forall i | 0 <= i < |l.completions| :: GoodDelivery(w, l.completions[i]))
    && (forall i, j | 0 <= i < j < |l.completions| :: l.completions[i].event.jobId != l.completions[j].event.jobId)
    && (forall i | 0 <= i < |l.jobs| :: GoodJob(w, l.jobs[i]))
    && (forall i, j | 0 <= i < j < |l.jobs| :: l.jobs[i].id != l.jobs[j].id && !SharesDigest(l.jobs[i], l.jobs[j]))
  }

  /** A restart fails a job that was in flight, at its own reading `now` of the clock. */
  function Interrupt(job: Job, now: int): Job {
    if job.status.OccupiesSlot()
    then job.(status := Failed, outcome := None, failure := Some("service_interrupted"), updatedAt := now)
    else job
  }

  function InterruptAll(jobs: seq<Job>, clock: nat -> int): (r: seq<Job>)
    ensures |r| == |jobs|
    ensures forall i | 0 <= i < |jobs| :: r[i] == Interrupt(jobs[i], clock(i))
  {
    seq(|jobs|, i requires 0 <= i < |jobs| => Interrupt(jobs[i], clock(i)))
  }

  function Open(w: World, disk: Ledger, limits: Limits, clock: nat -> int, persisted: bool): Result<Store, JobError> {
    if limits.maxRunning == 0 || limits.maxQueued == 0 then Failure(Invalid)
    else if !Loadable(w, disk) then Failure(Storage)
    else
      var st := Store(disk.(jobs := InterruptAll(disk.jobs, clock)), [], limits);
      var l :- CommitLedger(w, st, st.ledger);
      if persisted then Success(st.(ledger := l)) else Failure(Storage)
  }

  function Configure(st: Store, targets: seq<Target>): Result<Store, JobError> {
    if !ValidTargets(targets) then Failure(Invalid)
    else if Count(st.ledger.jobs, Reserving(targets)) + |st.ledger.completions| > MAX_COMPLETION_EVENTS
    then Failure(Full)
    else Success(st.(targets := targets))
  }
}
