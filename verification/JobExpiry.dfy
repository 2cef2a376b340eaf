/** Which finished jobs a commit forgets, and what is forgotten with them. */
module JobExpiry {
  import opened Wrappers
  import opened Seqs
  import opened JobModel
  import opened JobInvariant
  import opened JobRetention
  import opened JobProperties

  /** The other finished jobs that come later by (updated_at, id). */
  function Newer(jobs: seq<Job>, s: Stamp): set<string> {
    set o | o in jobs && o.status.Terminal() && o.id != s.id && StampLeq(s, Stamp(o.updatedAt, o.id)) :: o.id
  }

  lemma RankNewer(jobs: seq<Job>, b: nat)
    requires DistinctIds(jobs) && b < |Ranking(jobs)|
    ensures |Newer(jobs, Ranking(jobs)[b])| == |Ranking(jobs)| - 1 - b
  {
    var r := Ranking(jobs);
    RankingIsTerminal(jobs);
    var later := r[b + 1..];
    StampIdsCount(later);
    forall id | id in StampIds(later) ensures id in Newer(jobs, r[b]) {
      var c :| b < c < |r| && r[c].id == id;
      assert r[c] in r;
    }
    forall id | id in Newer(jobs, r[b]) ensures id in StampIds(later) {
      var o :| o in jobs && o.status.Terminal() && o.id == id && StampLeq(r[b], Stamp(o.updatedAt, o.id));
      assert Stamp(o.updatedAt, o.id) in r;
      var c :| 0 <= c < |r| && r[c] == Stamp(o.updatedAt, o.id);
      StampOrder(r[b], r[c], r[c]);
      assert c > b;
      assert later[c - b - 1] == r[c];
    }
    assert Newer(jobs, r[b]) == StampIds(later);
  }

  /** A finished job stays exactly when fewer finished jobs than the limit come later. */
  lemma StaysIff(jobs: seq<Job>, keep: nat, j: Job)
    requires DistinctIds(jobs) && keep > 0 && j in jobs && j.status.Terminal()
    ensures j in Retain(jobs, keep) <==> |Newer(jobs, Stamp(j.updatedAt, j.id))| < keep
  {
    var r, s := Ranking(jobs), Stamp(j.updatedAt, j.id);
    RankingIsTerminal(jobs);
    assert s in r;
    var b :| 0 <= b < |r| && r[b] == s;
    RankNewer(jobs, b);
    var gone := Expired(jobs, keep);
    FilterMembers(jobs, Kept(gone));
    ExpiredIsTerminal(jobs, keep, j);
    if b < |gone| {
      assert gone[b] == s;
    }
  }

  // ---- The job that was just finished ----------------------------------------------------------

  /**
   A job that finishes survives its own commit exactly when fewer finished jobs than the limit come
   after it, by its finishing time and then its id; otherwise nothing is left under its id.
   */
  lemma FinishedStays(w: World, st: Store, id: string, code: Option<string>, outcome: Option<Outcome>, now: int)
    requires Honest(w) && Inv(w, st)
    requires Perform(w, st, Finish(id, code, outcome, now), true).1.Success?
    ensures var (after, result) := Perform(w, st, Finish(id, code, outcome, now), true);
            var keep := st.limits.retainTerminal;
            && result.value.Some?
            && (result.value.value in after.ledger.jobs <==>
                keep == 0 || |Newer(st.ledger.jobs, Stamp(now, id))| < keep)
            && (result.value.value !in after.ledger.jobs ==> forall j | j in after.ledger.jobs :: j.id != id)
  {
    var jobs := st.ledger.jobs;
    var i := First(jobs, HasId(id)).value;
    assert HasId(id)(jobs[i]);
    var job := Decide(w, st, Finish(id, code, outcome, now)).value.job.value;
    ReplacedStays(jobs, i, job, st.limits.retainTerminal);
  }

  /** Committing the list in which a job was replaced by its finished state. */
  lemma ReplacedStays(jobs: seq<Job>, i: nat, job: Job, keep: nat)
    requires i < |jobs| && job.id == jobs[i].id && DistinctIds(jobs) && job.status.Terminal()
    ensures var left := Retain(jobs[i := job], keep);
            && (job in left <==> keep == 0 || |Newer(jobs, Stamp(job.updatedAt, job.id))| < keep)
            && (job !in left ==> forall j | j in left :: j.id != job.id)
  {
    var next := jobs[i := job];
    assert DistinctIds(next) && next[i] == job;
    OthersNewer(jobs, i, job);
    if keep > 0 {
      StaysIff(next, keep, job);
      FilterMembers(next, Kept(Expired(next, keep)));
    }
  }

  /** Replacing a job does not change which others come after it. */
  lemma OthersNewer(jobs: seq<Job>, i: nat, job: Job)
    requires i < |jobs| && job.id == jobs[i].id && DistinctIds(jobs)
    ensures Newer(jobs[i := job], Stamp(job.updatedAt, job.id)) == Newer(jobs, Stamp(job.updatedAt, job.id))
  {
    var next := jobs[i := job];
    forall o: Job | o.id != job.id ensures o in next <==> o in jobs {
      if o in next {
        var k :| 0 <= k < |next| && next[k] == o;
        assert jobs[k] == o;
      }
      if o in jobs {
        var k :| 0 <= k < |jobs| && jobs[k] == o;
        assert next[k] == o;
      }
    }
  }

  // ---- Keys ------------------------------------------------------------------------------------

  predicate Carries(j: Job, digest: string) {
    j.digest == Some(digest)
  }

  /** A key answers exactly while a job carries its digest; after that it makes another job. */
  lemma ReplayIff(w: World, st: Store, request: Request, key: string, newId: string, now: int)
    requires Inv(w, st) && ValidRequest(request) && ValidKey(key)
    ensures var jobs, d := st.ledger.jobs, Decide(w, st, SubmitIdempotent(request, key, newId, now));
            && ((exists j | j in jobs :: Carries(j, w.sha256(key)) && j.request == request) <==>
                d.Success? && d.value.Reply?)
            && ((exists j | j in jobs :: Carries(j, w.sha256(key)) && j.request != request) <==> d == Failure(Conflict))
            && (d.Success? && d.value.Propose? ==>
                  d.value.next.jobs == jobs + [NewJob(request, None, Some(w.sha256(key)), newId, now)])
  {
    var jobs, digest := st.ledger.jobs, w.sha256(key);
    forall j | j in jobs && Carries(j, digest)
      ensures Decide(w, st, SubmitIdempotent(request, key, newId, now)) ==
              if j.request == request then Success(Reply(Some(j))) else Failure(Conflict)
    {
      ResubmitIsReplay(w, st, request, key, newId, now, true, j);
      var k :| 0 <= k < |jobs| && jobs[k] == j;
      var i := First(jobs, HasDigest(digest)).value;
      assert HasDigest(digest)(jobs[i]) && HasDigest(digest)(jobs[k]);
      assert SharesDigest(jobs[i], jobs[k]) && SharesDigest(jobs[k], jobs[i]);
    }
    match First(jobs, HasDigest(digest))
    case Some(i) => assert HasDigest(digest)(jobs[i]) && Carries(jobs[i], digest);
    case None =>
      forall j | j in jobs ensures !Carries(j, digest) {
        var k :| 0 <= k < |jobs| && jobs[k] == j;
        assert !HasDigest(digest)(jobs[k]);
      }
  }

  // ---- Both happen -----------------------------------------------------------------------------

  const DIGEST := seq(64, _ => '0')
  const ANY := World(_ => true, _ => DIGEST, _ => true)
  const REQUEST := Request(Jp, "profile", Update)

  /** A store that keeps one finished job and delivers nothing. */
  function Holding(jobs: seq<Job>): Store {
    Store(Ledger(2, jobs, []), [], Limits(1, 2, 1))
  }

  function Plain(id: string, status: Status, created: int, updated: int, failure: Option<string>,
                 digest: Option<string>): Job {
    Job(id, REQUEST, status, created, updated, NO_PROGRESS, failure, None, None, digest)
  }

  /** As long as the finished jobs are within the limit nothing is dropped. */
  lemma AllStay(jobs: seq<Job>, keep: nat)
    requires Count(jobs, IsTerminal()) <= keep
    ensures Retain(jobs, keep) == jobs
  {
    FilterMembers(jobs, IsTerminal());
    SortSorts(Map(Filter(jobs, IsTerminal()), StampOf()));
    FilterAll(jobs, Kept([]));
  }

  lemma CountTwo(a: Job, b: Job)
    ensures Count([a], IsTerminal()) == if a.status.Terminal() then 1 else 0
    ensures Count([a, b], IsTerminal()) == (if a.status.Terminal() then 1 else 0) + if b.status.Terminal() then 1 else 0
  {
    assert [a, b][..1] == [a] && [a][..0] == [];
  }

  /** Of two finished jobs the later stays. */
  lemma LaterStays(early: Job, late: Job, jobs: seq<Job>)
    requires early.status.Terminal() && late.status.Terminal() && early.id != late.id &&
             early.updatedAt < late.updatedAt
    requires jobs == [early, late] || jobs == [late, early]
    ensures Retain(jobs, 1) == [late]
  {
    var p := Kept(Expired(jobs, 1));
    assert late.id in Newer(jobs, Stamp(early.updatedAt, early.id)) by {
      assert late in jobs;
    }
    assert Newer(jobs, Stamp(late.updatedAt, late.id)) == {};
    StaysIff(jobs, 1, early);
    StaysIff(jobs, 1, late);
    FilterMembers(jobs, p);
    assert early in jobs && late in jobs && !p(early) && p(late);
    FilterTwo(jobs[0], jobs[1], p);
  }

  lemma FilterTwo(a: Job, b: Job, p: Job -> bool)
    ensures Filter([a, b], p) == (if p(a) then [a] else []) + if p(b) then [b] else []
  {
    assert [a, b][..1] == [a] && [a][..0] == [];
  }

  lemma Commits(st: Store, jobs: seq<Job>)
    requires st.targets == [] && st.ledger.completions == [] && st.limits.retainTerminal == 1
    ensures CommitLedger(ANY, st, Ledger(2, jobs, [])) == Success(Ledger(2, Retain(jobs, 1), []))
  {
    Quiet(st, jobs);
  }

  lemma {:induction false} Quiet(st: Store, jobs: seq<Job>)
    requires st.targets == []
    ensures Announce(ANY, st.ledger.jobs, st.targets, jobs, []) == Success([])
  {
    if jobs != [] {
      Quiet(st, jobs[..|jobs| - 1]);
      assert Recipients([], jobs[|jobs| - 1].request.region) == [];
    }
  }

  /** One call that proposes `next`, of which retention leaves `left`. */
  lemma Calls(jobs: seq<Job>, a: Action, next: seq<Job>, job: Job, left: seq<Job>)
    requires Decide(ANY, Holding(jobs), a) == Success(Propose(Ledger(2, next, []), Some(job)))
    requires Retain(next, 1) == left
    ensures Perform(ANY, Holding(jobs), a, true) == (Holding(left), Success(Some(job)))
  {
    Commits(Holding(jobs), next);
  }

  const EARLIER := Plain("a", Failed, 0, 10, Some("failed"), None)
  const RUNNING := Plain("b", Running, 1, 11, None, None)
  const DONE := RUNNING.(status := Completed, updatedAt := 5)

  lemma RunningInv()
    ensures Inv(ANY, Holding([EARLIER, RUNNING]))
  {
    assert [EARLIER, RUNNING][..1] == [EARLIER] && [EARLIER][..0] == [];
  }

  /** The clock went back while a job ran: it finishes and its own commit forgets it. */
  lemma FinishForgotten()
    ensures Inv(ANY, Holding([EARLIER, RUNNING]))
    ensures Perform(ANY, Holding([EARLIER, RUNNING]), Finish("b", None, None, 5), true) ==
            (Holding([EARLIER]), Success(Some(DONE)))
  {
    RunningInv();
    LaterStays(DONE, EARLIER, [EARLIER, DONE]);
    assert [EARLIER, RUNNING][..1] == [EARLIER] && [EARLIER][..0] == [];
    assert [EARLIER, RUNNING][1 := DONE] == [EARLIER, DONE];
    Calls([EARLIER, RUNNING], Finish("b", None, None, 5), [EARLIER, DONE], DONE, [EARLIER]);
  }

  const FIRST := Plain("a", Queued, 1, 1, None, Some(DIGEST))
  const FIRST_CANCELLED := Plain("a", Status.Cancelled, 1, 2, None, Some(DIGEST))
  const OTHER := Plain("b", Queued, 3, 3, None, None)
  const OTHER_CANCELLED := Plain("b", Status.Cancelled, 3, 4, None, None)
  const SECOND := Plain("c", Queued, 5, 5, None, Some(DIGEST))

  lemma FirstDecided()
    ensures Decide(ANY, Holding([]), SubmitIdempotent(REQUEST, "key", "a", 1)) ==
            Success(Propose(Ledger(2, [FIRST], []), Some(FIRST)))
  {
    assert [] + [FIRST] == [FIRST];
  }

  lemma SubmitFirst()
    ensures Perform(ANY, Holding([]), SubmitIdempotent(REQUEST, "key", "a", 1), true) ==
            (Holding([FIRST]), Success(Some(FIRST)))
  {
    CountTwo(FIRST, FIRST);
    AllStay([FIRST], 1);
    FirstDecided();
    Calls([], SubmitIdempotent(REQUEST, "key", "a", 1), [FIRST], FIRST, [FIRST]);
  }

  lemma CancelFirst()
    ensures Perform(ANY, Holding([FIRST]), Cancel("a", 2), true) ==
            (Holding([FIRST_CANCELLED]), Success(Some(FIRST_CANCELLED)))
  {
    CountTwo(FIRST_CANCELLED, FIRST);
    AllStay([FIRST_CANCELLED], 1);
    assert [FIRST][..0] == [];
    assert [FIRST][0 := FIRST_CANCELLED] == [FIRST_CANCELLED];
    Calls([FIRST], Cancel("a", 2), [FIRST_CANCELLED], FIRST_CANCELLED, [FIRST_CANCELLED]);
  }

  lemma SubmitOther()
    ensures Perform(ANY, Holding([FIRST_CANCELLED]), Submit(REQUEST, "b", 3), true) ==
            (Holding([FIRST_CANCELLED, OTHER]), Success(Some(OTHER)))
  {
    CountTwo(FIRST_CANCELLED, OTHER);
    AllStay([FIRST_CANCELLED, OTHER], 1);
    assert [FIRST_CANCELLED][..0] == [];
    assert [FIRST_CANCELLED] + [OTHER] == [FIRST_CANCELLED, OTHER];
    Calls([FIRST_CANCELLED], Submit(REQUEST, "b", 3), [FIRST_CANCELLED, OTHER], OTHER, [FIRST_CANCELLED, OTHER]);
  }

  lemma CancelOther()
    ensures Perform(ANY, Holding([FIRST_CANCELLED, OTHER]), Cancel("b", 4), true) ==
            (Holding([OTHER_CANCELLED]), Success(Some(OTHER_CANCELLED)))
  {
    var jobs, next := [FIRST_CANCELLED, OTHER], [FIRST_CANCELLED, OTHER_CANCELLED];
    LaterStays(FIRST_CANCELLED, OTHER_CANCELLED, next);
    assert jobs[..1] == [FIRST_CANCELLED] && [FIRST_CANCELLED][..0] == [];
    assert jobs[1 := OTHER_CANCELLED] == next;
    Calls(jobs, Cancel("b", 4), next, OTHER_CANCELLED, [OTHER_CANCELLED]);
  }

  lemma SubmitSecond()
    ensures Perform(ANY, Holding([OTHER_CANCELLED]), SubmitIdempotent(REQUEST, "key", "c", 5), true) ==
            (Holding([OTHER_CANCELLED, SECOND]), Success(Some(SECOND)))
  {
    CountTwo(OTHER_CANCELLED, SECOND);
    AllStay([OTHER_CANCELLED, SECOND], 1);
    assert [OTHER_CANCELLED][..0] == [];
    assert [OTHER_CANCELLED] + [SECOND] == [OTHER_CANCELLED, SECOND];
    Calls([OTHER_CANCELLED], SubmitIdempotent(REQUEST, "key", "c", 5), [OTHER_CANCELLED, SECOND], SECOND,
        [OTHER_CANCELLED, SECOND]);
  }

  /**
   From an empty ledger: a job submitted under a key is cancelled, another one is, and retention drops
   the first; submitting the same request under the same key then makes a second job.
   */
  lemma KeyForgotten()
    ensures var first := Perform(ANY, Holding([]), SubmitIdempotent(REQUEST, "key", "a", 1), true);
            var second := Perform(ANY, first.0, Cancel("a", 2), true);
            var third := Perform(ANY, second.0, Submit(REQUEST, "b", 3), true);
            var fourth := Perform(ANY, third.0, Cancel("b", 4), true);
            var last := Perform(ANY, fourth.0, SubmitIdempotent(REQUEST, "key", "c", 5), true);
            && first.1 == Success(Some(FIRST)) && fourth.0.ledger.jobs == [OTHER_CANCELLED]
            && last.1 == Success(Some(SECOND)) && last.0.ledger.jobs == [OTHER_CANCELLED, SECOND]
  {
    SubmitFirst();
    CancelFirst();
    SubmitOther();
    CancelOther();
    SubmitSecond();
  }
}
