/** Which gates each kind of work takes, inside which others; scripts say what the data made it do. */
module AdmissionPrograms {
  import opened Admission
  import opened AdmissionOrder

  /** Work under a permit, or plain work. */
  datatype Block = Plain | Hold(res: Resource, bytes: nat, body: seq<Block>)

  /** The gates one export job is configured with. */
  datatype Setup = Setup(
    owner: nat, localBudget: bool, sharedBudget: bool, sharedMedia: bool, localCpu: bool, sharedCpu: bool,
    stages: set<Kind>)

  function Guard(on: bool, res: Resource, bytes: nat, body: seq<Block>): seq<Block> {
    if on then [Hold(res, bytes, body)] else body
  }

  function Stage(c: Setup, kind: Kind, body: seq<Block>): seq<Block> {
    Guard(kind in c.stages, Local(c.owner, kind), 1, body)
  }

  /** CPU admission around one computation: the job's own gate, then the service's. */
  function CpuWork(c: Setup): seq<Block> {
    Guard(c.localCpu, Local(c.owner, Cpu), 1, Guard(c.sharedCpu, Shared(Cpu), 1, [Plain]))
  }

  /** One media process or library call: media admission, then CPU admission inside it. */
  function MediaWork(c: Setup): seq<Block> {
    [Hold(Local(c.owner, Media), 1, Guard(c.sharedMedia, Shared(Media), 1, CpuWork(c)))]
  }

  /** An FFmpeg command and its retries; the backoff between attempts holds no permit. */
  function Ffmpeg(c: Setup, attempts: nat): seq<Block> {
    if attempts == 0 then [] else MediaWork(c) + [Plain] + Ffmpeg(c, attempts - 1)
  }

  /** An encoding: one stage slot kept across the library attempt and its CLI fallback. */
  function Encode(c: Setup, kind: Kind, library: bool, attempts: nat): seq<Block> {
    Stage(c, kind, (if library then MediaWork(c) else []) + Ffmpeg(c, attempts))
  }

  /** An optional encoding and the FFmpeg decode that checks it. */
  datatype Rendition = Absent | Encoded(library: bool, attempts: nat, checks: nat)

  function Render(c: Setup, kind: Kind, r: Rendition): seq<Block> {
    match r
    case Absent => []
    case Encoded(library, attempts, checks) => Encode(c, kind, library, attempts) + Ffmpeg(c, checks)
  }

  datatype AudioScript = AudioScript(mp3: Rendition, flac: Rendition)

  function RecordAudio(c: Setup, s: AudioScript): seq<Block> {
    Render(c, AudioEncode, s.mp3) + Render(c, AudioEncode, s.flac)
  }

  /** One waveform of an ACB: stored as it is, or decoded under the HCA stage and recorded. */
  datatype WaveScript = Stored | Decoded(audio: AudioScript)

  function Wave(c: Setup, s: WaveScript): seq<Block> {
    Stage(c, Hca, CpuWork(c)) + match s case Stored => [Plain] case Decoded(audio) => RecordAudio(c, audio)
  }

  function Waves(c: Setup, s: seq<WaveScript>): seq<Block> {
    if s == [] then [] else Wave(c, s[0]) + Waves(c, s[1..])
  }

  function AcbWork(c: Setup, waves: seq<WaveScript>): seq<Block> {
    Stage(c, Acb, CpuWork(c) + Waves(c, waves))
  }

  function Acbs(c: Setup, s: seq<seq<WaveScript>>): seq<Block> {
    if s == [] then [] else AcbWork(c, s[0]) + Acbs(c, s[1..])
  }

  datatype TrackScript = NoAudio | AdxAudio(attempts: nat, audio: AudioScript) | HcaAudio(audio: AudioScript)

  /** One decode of a USM: metadata, the audio track, muxing, the frame count, the MP4 rendition. */
  datatype MovieScript = MovieScript(track: TrackScript, mux: nat, count: nat, mp4: Rendition)

  function Movie(c: Setup, s: MovieScript): seq<Block> {
    CpuWork(c)
    + (match s.track
       case NoAudio => []
       case AdxAudio(attempts, audio) => Ffmpeg(c, attempts) + RecordAudio(c, audio)
       case HcaAudio(audio) => Stage(c, Hca, CpuWork(c)) + RecordAudio(c, audio))
    + Ffmpeg(c, s.mux) + Ffmpeg(c, s.count) + Render(c, VideoEncode, s.mp4)
  }

  function Movies(c: Setup, s: seq<MovieScript>): seq<Block> {
    if s == [] then [] else Movie(c, s[0]) + Movies(c, s[1..])
  }

  /** A USM stream: a second decode without the mask may follow a failed first one. */
  function UsmWork(c: Setup, decodes: seq<MovieScript>): seq<Block> {
    Stage(c, Usm, Movies(c, decodes))
  }

  function Usms(c: Setup, s: seq<seq<MovieScript>>): seq<Block> {
    if s == [] then [] else UsmWork(c, s[0]) + Usms(c, s[1..])
  }

  /** The renditions of one image: CPU to encode each, FFmpeg to check those that are not PNG. */
  function Pictures(c: Setup, checks: seq<nat>): seq<Block> {
    if checks == [] then [] else CpuWork(c) + Ffmpeg(c, checks[0]) + Pictures(c, checks[1..])
  }

  function Layers(c: Setup, s: seq<seq<nat>>): seq<Block> {
    if s == [] then [] else CpuWork(c) + Pictures(c, s[0]) + Layers(c, s[1..])
  }

  /** One Unity object: read under CPU, decoded as images, or read and then its embedded ACBs. */
  datatype ObjectScript =
    | Read(times: nat)
    | Texture(checks: seq<nat>)
    | TextureArray(layers: seq<seq<nat>>)
    | Embedded(acbs: seq<seq<WaveScript>>)

  function Cpus(c: Setup, times: nat): seq<Block> {
    if times == 0 then [] else CpuWork(c) + Cpus(c, times - 1)
  }

  function ObjectWork(c: Setup, s: ObjectScript): seq<Block> {
    match s
    case Read(times) => Cpus(c, times)
    case Texture(checks) => Stage(c, Image, CpuWork(c) + Pictures(c, checks))
    case TextureArray(layers) => Stage(c, Image, CpuWork(c) + Layers(c, layers))
    case Embedded(acbs) => CpuWork(c) + Acbs(c, acbs)
  }

  function Objects(c: Setup, s: seq<ObjectScript>): seq<Block> {
    if s == [] then [] else ObjectWork(c, s[0]) + Objects(c, s[1..])
  }

  datatype ResourceScript =
    | Unity(opens: nat, objects: seq<ObjectScript>)
    | CriAcb(waves: seq<WaveScript>)
    | CriUsm(streams: seq<seq<MovieScript>>)

  function Body(c: Setup, s: ResourceScript): seq<Block> {
    match s
    case Unity(opens, objects) => Cpus(c, opens) + Objects(c, objects)
    case CriAcb(waves) => AcbWork(c, waves)
    case CriUsm(streams) => CpuWork(c) + Usms(c, streams)
  }

  /** One resource: the job's byte budget, then the service's, then the work. */
  function ResourceWork(c: Setup, bytes: nat, s: ResourceScript): seq<Block> {
    Guard(c.localBudget, Local(c.owner, Bundle), bytes, Guard(c.sharedBudget, Shared(Bundle), bytes, Body(c, s)))
  }

  datatype Task = Task(bytes: nat, script: ResourceScript)

  /** Everything one worker thread does, resource after resource. */
  function WorkerBlocks(c: Setup, tasks: seq<Task>): seq<Block> {
    if tasks == [] then [] else ResourceWork(c, tasks[0].bytes, tasks[0].script) + WorkerBlocks(c, tasks[1..])
  }

  // ---- Rank order of the nesting ---------------------------------------------------------------

  /** Every permit taken in these blocks ranks at least `floor`, and nested ones rank higher still. */
  predicate Above(floor: nat, bs: seq<Block>)
    decreases bs
  {
    forall b | b in bs :: b.Hold? ==> floor <= Rank(b.res) && Above(Rank(b.res) + 1, b.body)
  }

  lemma {:induction false} AboveLower(low: nat, floor: nat, bs: seq<Block>)
    requires Above(floor, bs) && low <= floor
    ensures Above(low, bs)
  {
  }

  lemma CpuAbove(c: Setup)
    ensures Above(7, CpuWork(c))
  {
    assert Above(9, [Plain]) && Above(8, [Plain]);
    assert Above(8, Guard(c.sharedCpu, Shared(Cpu), 1, [Plain]));
    AboveLower(7, 8, Guard(c.sharedCpu, Shared(Cpu), 1, [Plain]));
  }

  lemma MediaAbove(c: Setup)
    ensures Above(5, MediaWork(c))
  {
    CpuAbove(c);
    assert Above(6, Guard(c.sharedMedia, Shared(Media), 1, CpuWork(c)));
  }

  lemma {:induction false} FfmpegAbove(c: Setup, attempts: nat)
    ensures Above(5, Ffmpeg(c, attempts))
  {
    if attempts > 0 {
      MediaAbove(c);
      FfmpegAbove(c, attempts - 1);
    }
  }

  /** A stage gate below everything its body takes. */
  lemma StageAbove(c: Setup, kind: Kind, body: seq<Block>, floor: nat)
    requires floor == Rank(Local(c.owner, kind)) && Above(floor + 1, body)
    ensures Above(floor, Stage(c, kind, body))
  {
    AboveLower(floor, floor + 1, body);
  }

  lemma RenderAbove(c: Setup, kind: Kind, r: Rendition)
    requires kind.AudioEncode? || kind.VideoEncode?
    ensures Above(4, Render(c, kind, r))
  {
    if r.Encoded? {
      MediaAbove(c);
      FfmpegAbove(c, r.attempts);
      FfmpegAbove(c, r.checks);
      StageAbove(c, kind, (if r.library then MediaWork(c) else []) + Ffmpeg(c, r.attempts), 4);
      AboveLower(4, 5, Ffmpeg(c, r.checks));
    }
  }

  lemma AudioAbove(c: Setup, s: AudioScript)
    ensures Above(4, RecordAudio(c, s))
  {
    RenderAbove(c, AudioEncode, s.mp3);
    RenderAbove(c, AudioEncode, s.flac);
  }

  lemma HcaAbove(c: Setup)
    ensures Above(3, Stage(c, Hca, CpuWork(c)))
  {
    CpuAbove(c);
    AboveLower(4, 7, CpuWork(c));
    StageAbove(c, Hca, CpuWork(c), 3);
  }

  lemma {:induction false} WavesAbove(c: Setup, s: seq<WaveScript>)
    ensures Above(3, Waves(c, s))
  {
    if s != [] {
      HcaAbove(c);
      WavesAbove(c, s[1..]);
      if s[0].Decoded? {
        AudioAbove(c, s[0].audio);
        AboveLower(3, 4, RecordAudio(c, s[0].audio));
      }
    }
  }

  lemma AcbAbove(c: Setup, waves: seq<WaveScript>)
    ensures Above(2, AcbWork(c, waves))
  {
    CpuAbove(c);
    AboveLower(3, 7, CpuWork(c));
    WavesAbove(c, waves);
    StageAbove(c, Acb, CpuWork(c) + Waves(c, waves), 2);
  }

  lemma {:induction false} AcbsAbove(c: Setup, s: seq<seq<WaveScript>>)
    ensures Above(2, Acbs(c, s))
  {
    if s != [] {
      AcbAbove(c, s[0]);
      AcbsAbove(c, s[1..]);
    }
  }

  lemma MovieAbove(c: Setup, s: MovieScript)
    ensures Above(3, Movie(c, s))
  {
    CpuAbove(c);
    AboveLower(3, 7, CpuWork(c));
    FfmpegAbove(c, s.mux);
    AboveLower(3, 5, Ffmpeg(c, s.mux));
    FfmpegAbove(c, s.count);
    AboveLower(3, 5, Ffmpeg(c, s.count));
    RenderAbove(c, VideoEncode, s.mp4);
    AboveLower(3, 4, Render(c, VideoEncode, s.mp4));
    match s.track
    case NoAudio =>
    case AdxAudio(attempts, audio) =>
      FfmpegAbove(c, attempts);
      AboveLower(3, 5, Ffmpeg(c, attempts));
      AudioAbove(c, audio);
      AboveLower(3, 4, RecordAudio(c, audio));
    case HcaAudio(audio) =>
      HcaAbove(c);
      AudioAbove(c, audio);
      AboveLower(3, 4, RecordAudio(c, audio));
  }

  lemma {:induction false} MoviesAbove(c: Setup, s: seq<MovieScript>)
    ensures Above(3, Movies(c, s))
  {
    if s != [] {
      MovieAbove(c, s[0]);
      MoviesAbove(c, s[1..]);
    }
  }

  lemma {:induction false} UsmsAbove(c: Setup, s: seq<seq<MovieScript>>)
    ensures Above(2, Usms(c, s))
  {
    if s != [] {
      MoviesAbove(c, s[0]);
      StageAbove(c, Usm, Movies(c, s[0]), 2);
      UsmsAbove(c, s[1..]);
    }
  }

  lemma {:induction false} PicturesAbove(c: Setup, checks: seq<nat>)
    ensures Above(3, Pictures(c, checks))
  {
    if checks != [] {
      CpuAbove(c);
      AboveLower(3, 7, CpuWork(c));
      FfmpegAbove(c, checks[0]);
      AboveLower(3, 5, Ffmpeg(c, checks[0]));
      PicturesAbove(c, checks[1..]);
    }
  }

  lemma {:induction false} LayersAbove(c: Setup, s: seq<seq<nat>>)
    ensures Above(3, Layers(c, s))
  {
    if s != [] {
      CpuAbove(c);
      AboveLower(3, 7, CpuWork(c));
      PicturesAbove(c, s[0]);
      LayersAbove(c, s[1..]);
    }
  }

  lemma {:induction false} CpusAbove(c: Setup, times: nat)
    ensures Above(2, Cpus(c, times))
  {
    if times > 0 {
      CpuAbove(c);
      AboveLower(2, 7, CpuWork(c));
      CpusAbove(c, times - 1);
    }
  }

  lemma {:induction false} ObjectsAbove(c: Setup, s: seq<ObjectScript>)
    ensures Above(2, Objects(c, s))
  {
    if s != [] {
      CpuAbove(c);
      AboveLower(3, 7, CpuWork(c));
      AboveLower(2, 7, CpuWork(c));
      ObjectsAbove(c, s[1..]);
      match s[0]
      case Read(times) => CpusAbove(c, times);
      case Texture(checks) =>
        PicturesAbove(c, checks);
        StageAbove(c, Image, CpuWork(c) + Pictures(c, checks), 2);
      case TextureArray(layers) =>
        LayersAbove(c, layers);
        StageAbove(c, Image, CpuWork(c) + Layers(c, layers), 2);
      case Embedded(acbs) => AcbsAbove(c, acbs);
    }
  }

  lemma BodyAbove(c: Setup, s: ResourceScript)
    ensures Above(2, Body(c, s))
  {
    match s
    case Unity(opens, objects) =>
      CpusAbove(c, opens);
      ObjectsAbove(c, objects);
    case CriAcb(waves) => AcbAbove(c, waves);
    case CriUsm(streams) =>
      CpuAbove(c);
      AboveLower(2, 7, CpuWork(c));
      UsmsAbove(c, streams);
  }

  /** Whatever a worker's resources make it do, its permits nest in strictly increasing rank. */
  lemma {:induction false} WorkerAbove(c: Setup, tasks: seq<Task>)
    ensures Above(0, WorkerBlocks(c, tasks))
  {
    if tasks != [] {
      var body := Body(c, tasks[0].script);
      BodyAbove(c, tasks[0].script);
      var inner := Guard(c.sharedBudget, Shared(Bundle), tasks[0].bytes, body);
      AboveLower(1, 2, body);
      assert Above(1, inner);
      AboveLower(0, 1, inner);
      WorkerAbove(c, tasks[1..]);
    }
  }

  // ---- From nesting to instructions ------------------------------------------------------------

  /** Scoped permits as instructions: acquire, run the body, release. */
  function Flatten(bs: seq<Block>): seq<Instr> {
    if bs == [] then []
    else
      (match bs[0]
       case Plain => [Work]
       case Hold(res, bytes, body) => [Acquire(res, bytes)] + Flatten(body) + [Release(res)])
      + Flatten(bs[1..])
  }

  lemma RankedAcquire(held: map<Resource, nat>, res: Resource, bytes: nat, rest: seq<Instr>, limit: Resource -> nat)
    requires limit(res) > 0 && (forall h | h in held :: Rank(h) < Rank(res))
    requires Ranked(held[res := Weight(bytes, limit(res))], rest, limit)
    ensures Ranked(held, [Acquire(res, bytes)] + rest, limit)
  {
    assert ([Acquire(res, bytes)] + rest)[1..] == rest;
  }

  lemma RankedRelease(held: map<Resource, nat>, res: Resource, weight: nat, rest: seq<Instr>, limit: Resource -> nat)
    requires res !in held && Ranked(held, rest, limit)
    ensures Ranked(held[res := weight], [Release(res)] + rest, limit)
  {
    assert ([Release(res)] + rest)[1..] == rest;
    assert held[res := weight] - {res} == held;
  }

  lemma RankedWork(held: map<Resource, nat>, rest: seq<Instr>, limit: Resource -> nat)
    requires Ranked(held, rest, limit)
    ensures Ranked(held, [Work] + rest, limit)
  {
    assert ([Work] + rest)[1..] == rest;
  }

  lemma FlattenHold(bs: seq<Block>, rest: seq<Instr>)
    requires bs != [] && bs[0].Hold?
    ensures Flatten(bs) + rest ==
            [Acquire(bs[0].res, bs[0].bytes)] +
            (Flatten(bs[0].body) + ([Release(bs[0].res)] + (Flatten(bs[1..]) + rest)))
  {
  }

  /** Nesting in rank order makes the instruction stream ordered, from any state it may start in. */
  lemma {:induction false} FlattenRanked(bs: seq<Block>, floor: nat, held: map<Resource, nat>, rest: seq<Instr>,
                                         limit: Resource -> nat)
    requires Positive(limit) && Above(floor, bs) && Ranked(held, rest, limit)
    requires forall h | h in held :: Rank(h) < floor
    ensures Ranked(held, Flatten(bs) + rest, limit)
    decreases bs
  {
    if bs == [] {
      assert Flatten(bs) + rest == rest;
    } else {
      var b := bs[0];
      var tail := Flatten(bs[1..]) + rest;
      assert Above(floor, bs[1..]);
      FlattenRanked(bs[1..], floor, held, rest, limit);
      if b.Plain? {
        RankedWork(held, tail, limit);
        assert Flatten(bs) + rest == [Work] + tail;
      } else {
        HoldRanked(b, floor, held, tail, limit);
        FlattenHold(bs, rest);
      }
    }
  }

  lemma {:induction false} HoldRanked(b: Block, floor: nat, held: map<Resource, nat>, tail: seq<Instr>,
                                      limit: Resource -> nat)
    requires Positive(limit) && b.Hold? && floor <= Rank(b.res) && Above(Rank(b.res) + 1, b.body) &&
             Ranked(held, tail, limit)
    requires forall h | h in held :: Rank(h) < floor
    ensures Ranked(held, [Acquire(b.res, b.bytes)] + (Flatten(b.body) + ([Release(b.res)] + tail)), limit)
    decreases b
  {
    var weight := Weight(b.bytes, limit(b.res));
    RankedRelease(held, b.res, weight, tail, limit);
    FlattenRanked(b.body, Rank(b.res) + 1, held[b.res := weight], [Release(b.res)] + tail, limit);
    RankedAcquire(held, b.res, b.bytes, Flatten(b.body) + ([Release(b.res)] + tail), limit);
  }

  function Workers(jobs: seq<(Setup, seq<Task>)>): seq<Worker> {
    if jobs == [] then []
    else [Worker(map[], Flatten(WorkerBlocks(jobs[0].0, jobs[0].1)))] + Workers(jobs[1..])
  }

  /** A fresh thread of any export satisfies the order. */
  lemma FreshRanked(c: Setup, tasks: seq<Task>, limit: Resource -> nat)
    requires Positive(limit)
    ensures Ranked(map[], Flatten(WorkerBlocks(c, tasks)), limit)
  {
    WorkerAbove(c, tasks);
    FlattenRanked(WorkerBlocks(c, tasks), 0, map[], [], limit);
    assert Flatten(WorkerBlocks(c, tasks)) + [] == Flatten(WorkerBlocks(c, tasks));
  }

  lemma {:induction false} WorkersStart(jobs: seq<(Setup, seq<Task>)>, limit: Resource -> nat)
    requires Positive(limit)
    ensures Inv(Workers(jobs), limit)
    ensures forall i | 0 <= i < |Workers(jobs)| :: Workers(jobs)[i].held == map[]
    ensures forall r :: Used(Workers(jobs), r) == 0
  {
    if jobs != [] {
      WorkersStart(jobs[1..], limit);
      FreshRanked(jobs[0].0, jobs[0].1, limit);
    }
  }

  // ---- Every interleaving ----------------------------------------------------------------------

  /** A worker takes its next step, or gives up its resource and goes on with other ones. */
  datatype Move = Go(worker: nat) | GiveUp(worker: nat, unwind: seq<Instr>, setup: Setup, tasks: seq<Task>)

  predicate Possible(ws: seq<Worker>, m: Move, limit: Resource -> nat) {
    m.worker < |ws| &&
    match m
    case Go(i) => Enabled(ws, i, limit) && Ranked(ws[i].held, ws[i].todo, limit)
    case GiveUp(i, unwind, _, _) => Unwinds(ws[i].held, unwind)
  }

  function Moved(ws: seq<Worker>, m: Move, limit: Resource -> nat): seq<Worker>
    requires Possible(ws, m, limit)
  {
    match m
    case Go(i) => Step(ws, i, limit)
    case GiveUp(i, unwind, setup, tasks) => Abandon(ws, i, unwind, Flatten(WorkerBlocks(setup, tasks)))
  }

  ghost predicate Interleaving(jobs: seq<(Setup, seq<Task>)>, states: seq<seq<Worker>>, moves: seq<Move>,
                               limit: Resource -> nat) {
    && |states| == |moves| + 1
    && states[0] == Workers(jobs)
    && forall n | 0 <= n < |moves| ::
        Possible(states[n], moves[n], limit) && states[n + 1] == Moved(states[n], moves[n], limit)
  }

  lemma MoveKeeps(ws: seq<Worker>, m: Move, limit: Resource -> nat)
    requires Inv(ws, limit) && Possible(ws, m, limit)
    ensures Inv(Moved(ws, m, limit), limit)
  {
    match m
    case Go(i) => StepKeeps(ws, i, limit);
    case GiveUp(i, unwind, setup, tasks) =>
      FreshRanked(setup, tasks, limit);
      AbandonKeeps(ws, i, unwind, Flatten(WorkerBlocks(setup, tasks)), limit);
  }

  lemma {:induction false} InterleavingKeeps(
      jobs: seq<(Setup, seq<Task>)>, states: seq<seq<Worker>>, moves: seq<Move>, n: nat, limit: Resource -> nat)
    requires Positive(limit) && Interleaving(jobs, states, moves, limit) && n < |states|
    ensures Inv(states[n], limit)
  {
    if n == 0 {
      WorkersStart(jobs, limit);
    } else {
      InterleavingKeeps(jobs, states, moves, n - 1, limit);
      MoveKeeps(states[n - 1], moves[n - 1], limit);
      assert states[n - 1 + 1] == Moved(states[n - 1], moves[n - 1], limit);
    }
  }

  /**
   Any number of exports, any resources, any limits of at least one, errors and cancellations
   anywhere: in every reachable state no limit is exceeded, somebody can step unless all threads have
   finished, and from there every schedule ends with all threads finished and all gates idle.
   */
  lemma NeverBlocked(
      jobs: seq<(Setup, seq<Task>)>, states: seq<seq<Worker>>, moves: seq<Move>, n: nat, turns: seq<nat>,
          limit: Resource -> nat)
    requires Positive(limit) && Interleaving(jobs, states, moves, limit) && n < |states|
    requires Schedule(states[n], turns, limit)
    ensures forall r :: Used(states[n], r) <= limit(r)
    ensures (exists i | 0 <= i < |states[n]| :: states[n][i].todo != []) ==>
              exists j | 0 <= j < |states[n]| :: Enabled(states[n], j, limit)
    ensures |turns| <= Remaining(states[n])
    ensures var ws := AdmissionOrder.After(states[n], turns, limit);
            (forall j | 0 <= j < |ws| :: !Enabled(ws, j, limit)) ==>
              (forall i | 0 <= i < |ws| :: ws[i] == Worker(map[], [])) && forall r :: Used(ws, r) == 0
  {
    InterleavingKeeps(jobs, states, moves, n, limit);
    EverySchedule(states[n], turns, limit);
    if exists i | 0 <= i < |states[n]| :: states[n][i].todo != [] {
      NoDeadlock(states[n], limit);
    }
  }
}
