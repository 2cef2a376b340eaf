/** `execute`: workers share a counter and a bounded channel; one receiver sums up. */
module ExportPool {
  import opened Decimal
  import opened Reports

  datatype Asset = Asset(path: string, sha256: string)

  /** `Ready` has passed the cancellation check; `Busy` decodes the asset with its number. */
  datatype Worker = Idle | Ready | Busy(index: nat) | Exited

  /** The counting part of the summary, in machine words. */
  datatype Tally = Tally(
    succeeded: nat, failed: nat, cacheHits: nat, objects: nat, selected: nat, skipped: nat,
    outputFiles: nat, outputBytes: nat, payloads: map<string, nat>)

  /**
   * What processing one asset came to: a report, which is published unless it has errors; an error or a
   * panic before anything was published; or an error of the cache after the directory was published.
   */
  datatype Outcome = Answered(report: Report) | Broken(error: string) | Unkept(error: string)

  /** `published` are the directories below the output root; `unkept` the numbers of `Unkept` assets. */
  datatype State = State(
    next: nat, workers: seq<Worker>, channel: seq<Report>, journal: seq<Report>, tally: Tally, cancelled: bool,
    published: set<string>, unkept: set<nat>)

  datatype Step = Check(worker: nat) | Fetch(worker: nat) | Send(worker: nat, outcome: Outcome) | Receive | Cancel

  const EMPTY := Tally(0, 0, 0, 0, 0, 0, 0, 0, map[])

  function Wrap(n: nat): nat {
    n % WORD
  }

  /** Adding up in machine words is adding up and then wrapping. */
  function Wrapped(c: Counters): Tally {
    Tally(Wrap(c.succeeded), Wrap(c.failed), Wrap(c.hits), Wrap(c.objects), Wrap(c.selected), Wrap(c.skipped),
          Wrap(c.files + c.failedFiles), Wrap(c.bytes + c.failedBytes), c.kinds)
  }

  // ---- The receiver ----------------------------------------------------------------------------

  lemma WrapAdd(a: nat, b: nat)
    ensures Wrap(Wrap(a) + b) == Wrap(a + b)
  {
    assert a == Wrap(a) + WORD * (a / WORD);
    var m, q := Wrap(a) + b, a / WORD;
    assert a + b == m + WORD * q;
    WrapMultiple(m, q);
  }

  lemma {:induction false} WrapMultiple(m: nat, q: nat)
    ensures Wrap(m + WORD * q) == Wrap(m)
  {
    if q > 0 {
      WrapMultiple(m, q - 1);
      var x := m + WORD * (q - 1);
      assert (x + WORD) % WORD == x % WORD;
    }
  }

  method RecordOutputs(t: Tally, outputs: seq<Output>, ghost files: nat, ghost bytes: nat) returns (u: Tally)
    requires t.outputFiles == Wrap(files) && t.outputBytes == Wrap(bytes)
    ensures u == t.(outputFiles := Wrap(files + |outputs|), outputBytes := Wrap(bytes + Bytes(outputs)),
                    payloads := AddKinds(t.payloads, outputs))
  {
    u := t;
    for k := 0 to |outputs|
      invariant u == t.(outputFiles := Wrap(files + k), outputBytes := Wrap(bytes + Bytes(outputs[..k])),
                        payloads := AddKinds(t.payloads, outputs[..k]))
    {
      assert outputs[..k + 1][..k] == outputs[..k];
      WrapAdd(files + k, 1);
      WrapAdd(bytes + Bytes(outputs[..k]), outputs[k].bytes);
      u := u.(outputFiles := Wrap(u.outputFiles + 1), outputBytes := Wrap(u.outputBytes + outputs[k].bytes),
              payloads := AddKind(u.payloads, outputs[k].kind));
    }
    assert outputs[..|outputs|] == outputs;
  }

  /** One received report, as the receive loop adds it to the summary. */
  method Record(t: Tally, r: Report, ghost c: Counters) returns (u: Tally)
    requires t == Wrapped(c)
    ensures u == Wrapped(Plus(c, r))
  {
    u := t;
    if r.errors == [] {
      u := u.(succeeded := Wrap(u.succeeded + 1), cacheHits := Wrap(u.cacheHits + if r.cacheHit then 1 else 0));
      WrapAdd(c.succeeded, 1);
      WrapAdd(c.hits, if r.cacheHit then 1 else 0);
    } else {
      u := u.(failed := Wrap(u.failed + 1));
      WrapAdd(c.failed, 1);
    }
    u := u.(objects := Wrap(u.objects + r.objects), selected := Wrap(u.selected + r.selected),
            skipped := Wrap(u.skipped + r.skipped));
    WrapAdd(c.objects, r.objects);
    WrapAdd(c.selected, r.selected);
    WrapAdd(c.skipped, r.skipped);
    u := RecordOutputs(u, r.outputs, c.files + c.failedFiles, c.bytes + c.failedBytes);
  }

  /** The whole receive loop over what arrived. */
  method Collect(received: seq<Report>) returns (t: Tally)
    ensures t == Wrapped(Totals(received))
  {
    t := EMPTY;
    assert Wrapped(ZERO) == EMPTY;
    for k := 0 to |received|
      invariant t == Wrapped(Totals(received[..k]))
    {
      assert received[..k + 1][..k] == received[..k];
      t := Record(t, received[k], Totals(received[..k]));
    }
    assert received[..|received|] == received;
  }

  // ---- The pool --------------------------------------------------------------------------------

  /** What a worker reports for asset `i`: decoded, failed or panicked, the heading is the same. */
  predicate ReportFor(assets: seq<Asset>, i: nat, r: Report) {
    && i < |assets|
    && r.directory == FiveDigits(i)
    && r.source == assets[i].path
    && r.sourceSha256 == assets[i].sha256
    && (r.errors != [] ==> !r.cacheHit)
  }

  /** The report of a worker that got an error instead of one. */
  function ErrorReport(assets: seq<Asset>, i: nat, error: string): (r: Report)
    requires i < |assets|
    ensures ReportFor(assets, i, r)
  {
    Report(false, assets[i].path, FiveDigits(i), assets[i].sha256, 0, 0, 0, [], [error])
  }

  predicate OutcomeFor(assets: seq<Asset>, i: nat, o: Outcome) {
    i < |assets| && (o.Answered? ==> ReportFor(assets, i, o.report))
  }

  function ReportOf(assets: seq<Asset>, i: nat, o: Outcome): (r: Report)
    requires OutcomeFor(assets, i, o)
    ensures ReportFor(assets, i, r)
  {
    match o
    case Answered(r) => r
    case Broken(error) => ErrorReport(assets, i, error)
    case Unkept(error) => ErrorReport(assets, i, error)
  }

  predicate Publishes(o: Outcome) {
    o.Unkept? || (o.Answered? && o.report.errors == [])
  }

  ghost predicate Enabled(assets: seq<Asset>, s: State, step: Step) {
    match step
    case Check(w) => w < |s.workers| && s.workers[w] == Idle
    case Fetch(w) => w < |s.workers| && s.workers[w] == Ready
    case Send(w, o) =>
      && w < |s.workers| && s.workers[w].Busy? && |s.channel| < |s.workers|
      && OutcomeFor(assets, s.workers[w].index, o)
    case Receive => s.channel != []
    case Cancel => !s.cancelled
  }

  ghost function Apply(assets: seq<Asset>, s: State, step: Step): State
    requires Enabled(assets, s, step)
  {
    match step
    case Check(w) => s.(workers := s.workers[w := if s.cancelled then Exited else Ready])
    case Fetch(w) =>
      s.(next := s.next + 1, workers := s.workers[w := if s.next < |assets| then Busy(s.next) else Exited])
    case Send(w, o) =>
      var i := s.workers[w].index;
      s.(workers := s.workers[w := Idle], channel := s.channel + [ReportOf(assets, i, o)],
         published := if Publishes(o) then s.published + {FiveDigits(i)} else s.published,
         unkept := if o.Unkept? then s.unkept + {i} else s.unkept)
    case Receive =>
      var r := s.channel[0];
      s.(channel := s.channel[1..], journal := s.journal + [r], tally := Wrapped(Totals(s.journal + [r])))
    case Cancel => s.(cancelled := true)
  }

  ghost function Begin(workers: nat): State {
    State(0, seq(workers, _ => Idle), [], [], EMPTY, false, {}, {})
  }

  /** Index of a report, from the name of its directory. */
  function Index(r: Report): nat {
    var n := Parse(r.directory);
    if n.Some? then n.value else 0
  }

  /** How often number `i` occurs in the reports, and among the workers. */
  function Reported(s: seq<Report>, i: nat): nat {
    if s == [] then 0 else Reported(s[..|s| - 1], i) + if Index(s[|s| - 1]) == i then 1 else 0
  }

  function Held(workers: seq<Worker>, i: nat): nat {
    if workers == [] then 0
    else Held(workers[..|workers| - 1], i) + Holds(workers[|workers| - 1], i)
  }

  function Holds(w: Worker, i: nat): nat {
    if w == Busy(i) then 1 else 0
  }

  function Min(a: nat, b: nat): nat {
    if a < b then a else b
  }

  ghost predicate AllReports(assets: seq<Asset>, s: seq<Report>) {
    forall k | 0 <= k < |s| :: ReportFor(assets, Index(s[k]), s[k])
  }

  /** Every number below `m` is held by one worker, in the channel, or in the journal, once. */
  ghost predicate Placed(workers: seq<Worker>, channel: seq<Report>, journal: seq<Report>, m: nat) {
    forall i: nat :: Held(workers, i) + Reported(channel, i) + Reported(journal, i) == if i < m then 1 else 0
  }

  ghost predicate Inv(assets: seq<Asset>, s: State) {
    && Placed(s.workers, s.channel, s.journal, Min(s.next, |assets|))
    && AllReports(assets, s.channel) && AllReports(assets, s.journal)
    && s.tally == Wrapped(Totals(s.journal))
    && |s.channel| <= |s.workers|
    && (Exited in s.workers ==> s.cancelled || s.next >= |assets|)
    && (forall k | 0 <= k < |s.workers| && s.workers[k].Busy? :: s.workers[k].index < |assets|)
  }

  ghost predicate Finished(s: State) {
    s.channel == [] && forall k | 0 <= k < |s.workers| :: s.workers[k] == Exited
  }

  // ---- Every interleaving ----------------------------------------------------------------------

  lemma {:induction false} HeldUpdate(workers: seq<Worker>, w: nat, x: Worker, i: nat)
    requires w < |workers|
    ensures Held(workers[w := x], i) + Holds(workers[w], i) == Held(workers, i) + Holds(x, i)
  {
    var n := |workers| - 1;
    if w < n {
      HeldUpdate(workers[..n], w, x, i);
      assert workers[w := x][..n] == workers[..n][w := x];
    } else {
      assert workers[w := x][..n] == workers[..n];
    }
  }

  lemma {:induction false} ReportedAppend(a: seq<Report>, b: seq<Report>, i: nat)
    ensures Reported(a + b, i) == Reported(a, i) + Reported(b, i)
  {
    if b == [] {
      assert a + b == a;
    } else {
      ReportedAppend(a, b[..|b| - 1], i);
      assert (a + b)[..|a + b| - 1] == a + b[..|b| - 1];
    }
  }

  lemma ReportedOne(r: Report, i: nat)
    ensures Reported([r], i) == if Index(r) == i then 1 else 0
  {
    assert [r][..0] == [];
  }

  lemma HeadingIndex(assets: seq<Asset>, i: nat, r: Report)
    requires ReportFor(assets, i, r)
    ensures Index(r) == i
  {
    FiveDigitsParses(i);
  }

  lemma WorkerMoves(workers: seq<Worker>, channel: seq<Report>, journal: seq<Report>, m: nat, w: nat, x: Worker)
    requires Placed(workers, channel, journal, m) && w < |workers| && !workers[w].Busy?
    ensures !x.Busy? ==> Placed(workers[w := x], channel, journal, m)
    ensures x == Busy(m) ==> Placed(workers[w := x], channel, journal, m + 1)
  {
    forall i: nat ensures Held(workers[w := x], i) == Held(workers, i) + Holds(x, i) {
      HeldUpdate(workers, w, x, i);
    }
  }

  lemma ReportSent(workers: seq<Worker>, channel: seq<Report>, journal: seq<Report>, m: nat, w: nat, r: Report)
    requires Placed(workers, channel, journal, m) && w < |workers| && workers[w] == Busy(Index(r))
    ensures Placed(workers[w := Idle], channel + [r], journal, m)
  {
    forall i: nat
      ensures Held(workers[w := Idle], i) + Reported(channel + [r], i) == Held(workers, i) + Reported(channel, i)
    {
      HeldUpdate(workers, w, Idle, i);
      ReportedAppend(channel, [r], i);
      ReportedOne(r, i);
    }
  }

  lemma ReportReceived(workers: seq<Worker>, channel: seq<Report>, journal: seq<Report>, m: nat)
    requires Placed(workers, channel, journal, m) && channel != []
    ensures Placed(workers, channel[1..], journal + [channel[0]], m)
  {
    var r := channel[0];
    assert channel == [r] + channel[1..];
    forall i: nat
      ensures Reported(channel[1..], i) + Reported(journal + [r], i) == Reported(channel, i) + Reported(journal, i)
    {
      ReportedAppend([r], channel[1..], i);
      ReportedAppend(journal, [r], i);
    }
  }

  lemma ReportsExtend(assets: seq<Asset>, s: seq<Report>, r: Report)
    requires AllReports(assets, s) && ReportFor(assets, Index(r), r)
    ensures AllReports(assets, s + [r])
  {
  }

  lemma TurnKeeps(assets: seq<Asset>, s: State, step: Step)
    requires Inv(assets, s) && Enabled(assets, s, step) && (step.Check? || step.Fetch?)
    ensures Inv(assets, Apply(assets, s, step))
  {
    var m := Min(s.next, |assets|);
    match step
    case Check(w) =>
      WorkerMoves(s.workers, s.channel, s.journal, m, w, if s.cancelled then Exited else Ready);
    case Fetch(w) =>
      WorkerMoves(s.workers, s.channel, s.journal, m, w, if s.next < |assets| then Busy(s.next) else Exited);
  }

  lemma SendKeeps(assets: seq<Asset>, s: State, w: nat, o: Outcome)
    requires Inv(assets, s) && Enabled(assets, s, Send(w, o))
    ensures Inv(assets, Apply(assets, s, Send(w, o)))
  {
    var m := Min(s.next, |assets|);
    var r := ReportOf(assets, s.workers[w].index, o);
    HeadingIndex(assets, s.workers[w].index, r);
    ReportSent(s.workers, s.channel, s.journal, m, w, r);
    ReportsExtend(assets, s.channel, r);
  }

  lemma ReportsTail(assets: seq<Asset>, s: seq<Report>)
    requires AllReports(assets, s) && s != []
    ensures AllReports(assets, s[1..]) && ReportFor(assets, Index(s[0]), s[0])
  {
    forall k | 0 <= k < |s| - 1 ensures ReportFor(assets, Index(s[1..][k]), s[1..][k]) {
      assert s[1..][k] == s[k + 1];
    }
  }

  lemma ReceiveKeeps(assets: seq<Asset>, s: State)
    requires Inv(assets, s) && s.channel != []
    ensures Inv(assets, Apply(assets, s, Receive))
  {
    var channel, r := s.channel[1..], s.channel[0];
    ReportReceived(s.workers, s.channel, s.journal, Min(s.next, |assets|));
    ReportsTail(assets, s.channel);
    ReportsExtend(assets, s.journal, r);
    assert Apply(assets, s, Receive) ==
           s.(channel := channel, journal := s.journal + [r], tally := Wrapped(Totals(s.journal + [r])));
  }

  lemma StepKeeps(assets: seq<Asset>, s: State, step: Step)
    requires Inv(assets, s) && Enabled(assets, s, step)
    ensures Inv(assets, Apply(assets, s, step))
  {
    match step
    case Check(_) => TurnKeeps(assets, s, step);
    case Fetch(_) => TurnKeeps(assets, s, step);
    case Send(w, o) => SendKeeps(assets, s, w, o);
    case Receive => ReceiveKeeps(assets, s);
    case Cancel =>
  }

  lemma {:induction false} HeldNone(workers: seq<Worker>)
    requires forall k | 0 <= k < |workers| :: !workers[k].Busy?
    ensures forall i: nat :: Held(workers, i) == 0
  {
    if workers != [] {
      HeldNone(workers[..|workers| - 1]);
    }
  }

  lemma BeginHolds(assets: seq<Asset>, workers: nat)
    ensures Inv(assets, Begin(workers))
  {
    HeldNone(Begin(workers).workers);
    assert Wrapped(ZERO) == EMPTY;
  }

  ghost predicate Run(assets: seq<Asset>, s: State, steps: seq<Step>, t: State)
    decreases steps
  {
    if steps == [] then s == t
    else Enabled(assets, s, steps[0]) && Run(assets, Apply(assets, s, steps[0]), steps[1..], t)
  }

  lemma {:induction false} RunKeeps(assets: seq<Asset>, s: State, steps: seq<Step>, t: State)
    requires Inv(assets, s) && Run(assets, s, steps, t)
    ensures Inv(assets, t) && |t.workers| == |s.workers| && (s.cancelled ==> t.cancelled)
    decreases steps
  {
    if steps != [] {
      StepKeeps(assets, s, steps[0]);
      RunKeeps(assets, Apply(assets, s, steps[0]), steps[1..], t);
    }
  }

  /**
   * Whatever the interleaving: the journal never repeats an asset, its totals are the summary, and
   * once all workers have left without a cancellation it holds every asset.
   */
  lemma EveryAssetOnce(assets: seq<Asset>, workers: nat, steps: seq<Step>, t: State)
    requires workers > 0 && Run(assets, Begin(workers), steps, t)
    ensures AllReports(assets, t.journal) && t.tally == Wrapped(Totals(t.journal))
    ensures forall i: nat :: Reported(t.journal, i) <= if i < |assets| then 1 else 0
    ensures Finished(t) && !t.cancelled ==> forall i: nat :: Reported(t.journal, i) == if i < |assets| then 1 else 0
  {
    BeginHolds(assets, workers);
    RunKeeps(assets, Begin(workers), steps, t);
    assert Placed(t.workers, t.channel, t.journal, Min(t.next, |assets|));
    if Finished(t) && !t.cancelled {
      HeldNone(t.workers);
      assert t.workers[0] == Exited;
    }
  }

  // ---- What is published ------------------------------------------------------------------------

  /** The directories of the given numbers. */
  function Named(numbers: set<nat>): set<string> {
    set i | i in numbers :: FiveDigits(i)
  }

  /** Each of these assets has an error report. */
  ghost predicate Failed(sent: seq<Report>, numbers: set<nat>) {
    forall i | i in numbers :: FailedAt(sent, i)
  }

  ghost predicate FailedAt(sent: seq<Report>, i: nat) {
    exists k :: 0 <= k < |sent| && sent[k].directory == FiveDigits(i) && sent[k].errors != []
  }

  /** Published is what succeeded, and besides it exactly the directories the cache gave up on. */
  ghost predicate Kept(sent: seq<Report>, published: set<string>, unkept: set<nat>) {
    published == Directories(sent) + Named(unkept) && Failed(sent, unkept)
  }

  lemma FailedMore(sent: seq<Report>, r: Report, numbers: set<nat>)
    requires Failed(sent, numbers)
    ensures Failed(sent + [r], numbers)
    ensures r.errors != [] ==> forall i: nat | r.directory == FiveDigits(i) :: FailedAt(sent + [r], i)
  {
    var more := sent + [r];
    assert more[|sent|] == r;
    forall i | i in numbers ensures FailedAt(more, i) {
      assert FailedAt(sent, i);
      var k :| 0 <= k < |sent| && sent[k].directory == FiveDigits(i) && sent[k].errors != [];
      assert more[k] == sent[k];
    }
  }

  lemma DirectoriesLast(sent: seq<Report>, r: Report)
    ensures Directories(sent + [r]) == Directories(sent) + if r.errors == [] then {r.directory} else {}
  {
    assert (sent + [r])[..|sent|] == sent;
  }

  lemma KeptMore(assets: seq<Asset>, sent: seq<Report>, published: set<string>, unkept: set<nat>, i: nat, o: Outcome)
    requires Kept(sent, published, unkept) && OutcomeFor(assets, i, o)
    ensures Kept(sent + [ReportOf(assets, i, o)], if Publishes(o) then published + {FiveDigits(i)} else published,
                 if o.Unkept? then unkept + {i} else unkept)
  {
    var r := ReportOf(assets, i, o);
    FailedMore(sent, r, unkept);
    DirectoriesLast(sent, r);
    NamedMore(unkept, i);
  }

  lemma NamedMore(numbers: set<nat>, i: nat)
    ensures Named(numbers + {i}) == Named(numbers) + {FiveDigits(i)}
  {
  }

  lemma SentMore(journal: seq<Report>, channel: seq<Report>, r: Report)
    ensures journal + (channel + [r]) == journal + channel + [r]
    ensures channel != [] ==> journal + [channel[0]] + channel[1..] == journal + channel
  {
  }

  lemma StepKept(assets: seq<Asset>, s: State, step: Step)
    requires Kept(s.journal + s.channel, s.published, s.unkept) && Enabled(assets, s, step)
    ensures var u := Apply(assets, s, step); Kept(u.journal + u.channel, u.published, u.unkept)
  {
    match step
    case Send(w, o) =>
      var i := s.workers[w].index;
      KeptMore(assets, s.journal + s.channel, s.published, s.unkept, i, o);
      SentMore(s.journal, s.channel, ReportOf(assets, i, o));
    case Receive =>
      SentMore(s.journal, s.channel, s.channel[0]);
    case _ =>
  }

  lemma {:induction false} RunKept(assets: seq<Asset>, s: State, steps: seq<Step>, t: State)
    requires Kept(s.journal + s.channel, s.published, s.unkept) && Run(assets, s, steps, t)
    ensures Kept(t.journal + t.channel, t.published, t.unkept)
    decreases steps
  {
    if steps != [] {
      StepKept(assets, s, steps[0]);
      RunKept(assets, Apply(assets, s, steps[0]), steps[1..], t);
    }
  }

  /** Once the pool is finished, what is published is known from the journal and the cache's failures. */
  lemma PublishedAtEnd(assets: seq<Asset>, workers: nat, steps: seq<Step>, t: State)
    requires Run(assets, Begin(workers), steps, t) && Finished(t)
    ensures Kept(t.journal, t.published, t.unkept)
  {
    assert Named({}) == {};
    assert Begin(workers).journal + Begin(workers).channel == [];
    RunKept(assets, Begin(workers), steps, t);
    assert t.journal + t.channel == t.journal;
  }

  // ---- The pool never hangs --------------------------------------------------------------------

  function Load(w: Worker): nat {
    match w
    case Idle => 2
    case Ready => 1
    case Busy(_) => 4
    case Exited => 0
  }

  function Loads(workers: seq<Worker>): nat {
    if workers == [] then 0 else Loads(workers[..|workers| - 1]) + Load(workers[|workers| - 1])
  }

  /** Steps the pool can still take. */
  function Left(n: nat, s: State): nat {
    5 * (if s.next < n then n - s.next else 0) + Loads(s.workers) + |s.channel| + if s.cancelled then 0 else 1
  }

  lemma {:induction false} LoadsUpdate(workers: seq<Worker>, w: nat, x: Worker)
    requires w < |workers|
    ensures Loads(workers[w := x]) + Load(workers[w]) == Loads(workers) + Load(x)
  {
    var n := |workers| - 1;
    if w < n {
      LoadsUpdate(workers[..n], w, x);
      assert workers[w := x][..n] == workers[..n][w := x];
    } else {
      assert workers[w := x][..n] == workers[..n];
    }
  }

  lemma StepShortens(assets: seq<Asset>, s: State, step: Step)
    requires Enabled(assets, s, step)
    ensures Left(|assets|, Apply(assets, s, step)) < Left(|assets|, s)
  {
    if step.Check? || step.Fetch? || step.Send? {
      LoadsUpdate(s.workers, step.worker, Apply(assets, s, step).workers[step.worker]);
    }
  }

  /** Until all workers have left and all reports are received, the pool can move without a cancellation. */
  lemma NeverStuck(assets: seq<Asset>, s: State) returns (step: Step)
    requires Inv(assets, s) && !Finished(s)
    ensures Enabled(assets, s, step) && step != Cancel
  {
    if s.channel != [] {
      return Receive;
    }
    var w: nat :| w < |s.workers| && s.workers[w] != Exited;
    match s.workers[w]
    case Idle => return Check(w);
    case Ready => return Fetch(w);
    case Busy(i) => return Send(w, Broken("decoder worker panicked"));
  }

  /** Every schedule of the pool ends, and only in a finished state can it end. */
  lemma {:induction false} EveryScheduleEnds(assets: seq<Asset>, s: State, steps: seq<Step>, t: State)
    requires Run(assets, s, steps, t) && Inv(assets, s)
    ensures |steps| + Left(|assets|, t) <= Left(|assets|, s)
    ensures (forall step :: !Enabled(assets, t, step)) ==> Finished(t)
    decreases steps
  {
    if steps == [] {
      if !Finished(t) {
        var step := NeverStuck(assets, t);
      }
    } else {
      StepShortens(assets, s, steps[0]);
      StepKeeps(assets, s, steps[0]);
      EveryScheduleEnds(assets, Apply(assets, s, steps[0]), steps[1..], t);
    }
  }
}
