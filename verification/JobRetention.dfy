/** Retention keeps the newest terminal jobs, by wall-clock time and then id, and all other jobs. */
module JobRetention {
  import opened Seqs
  import opened JobModel

  // ---- The order of stamps ---------------------------------------------------------------------

  lemma StampOrder(a: Stamp, b: Stamp, c: Stamp)
    ensures StampLeq(a, b) || StampLeq(b, a)
    ensures StampLeq(a, b) && StampLeq(b, a) ==> a == b
    ensures StampLeq(a, b) && StampLeq(b, c) ==> StampLeq(a, c)
  {
    StringOrder(a.id, b.id, c.id);
  }

  ghost predicate Sorted(s: seq<Stamp>) {
    forall i, j | 0 <= i < j < |s| :: StampLeq(s[i], s[j])
  }

  lemma {:induction false} InsertSorts(x: Stamp, s: seq<Stamp>)
    requires Sorted(s)
    ensures Sorted(Insert(x, s)) && multiset(Insert(x, s)) == multiset(s) + multiset{x}
  {
    if s == [] {
    } else if StampLeq(x, s[0]) {
      forall k | 0 <= k < |s| ensures StampLeq(x, s[k]) {
        StampOrder(x, s[0], s[k]);
      }
    } else {
      InsertSorts(x, s[1..]);
      var t := Insert(x, s[1..]);
      StampOrder(x, s[0], x);
      assert s == [s[0]] + s[1..];
      forall k | 0 <= k < |t| ensures StampLeq(s[0], t[k]) {
        assert t[k] in multiset(t);
        assert t[k] == x || t[k] in multiset(s[1..]);
      }
    }
  }

  lemma {:induction false} SortSorts(s: seq<Stamp>)
    ensures Sorted(Sort(s)) && multiset(Sort(s)) == multiset(s)
    ensures |Sort(s)| == |s|
  {
    if s != [] {
      var x, tail := s[0], s[1..];
      assert multiset(s) == multiset(tail) + multiset{x} by {
        assert s == [x] + tail;
      }
      SortSorts(tail);
      InsertSorts(x, Sort(tail));
    }
    SameSize(Sort(s), s);
  }

  lemma SameSize(a: seq<Stamp>, b: seq<Stamp>)
    requires multiset(a) == multiset(b)
    ensures |a| == |b|
  {
    assert |multiset(a)| == |a| && |multiset(b)| == |b|;
  }

  // ---- Counting by distinct ids ----------------------------------------------------------------

  predicate DistinctIds(jobs: seq<Job>) {
    forall i, j | 0 <= i < j < |jobs| :: jobs[i].id != jobs[j].id
  }

  function Ids(jobs: seq<Job>): set<string> {
    set j | j in jobs :: j.id
  }

  lemma {:induction false} IdsCount(jobs: seq<Job>)
    requires DistinctIds(jobs)
    ensures |Ids(jobs)| == |jobs|
  {
    if jobs != [] {
      var init, last := jobs[..|jobs| - 1], jobs[|jobs| - 1];
      IdsCount(init);
      assert jobs == init + [last];
      assert last.id !in Ids(init);
      assert Ids(jobs) == Ids(init) + {last.id};
    }
  }

  lemma FilterDistinctIds(jobs: seq<Job>, p: Job -> bool)
    requires DistinctIds(jobs)
    ensures DistinctIds(Filter(jobs, p))
  {
    var at := Positions(jobs, p);
    var kept := Filter(jobs, p);
    forall i, j | 0 <= i < j < |kept| ensures kept[i].id != kept[j].id {
      assert at[i] < at[j];
    }
  }

  function StampIds(s: seq<Stamp>): set<string> {
    set x | x in s :: x.id
  }

  lemma {:induction false} StampIdsCount(s: seq<Stamp>)
    requires forall i, j | 0 <= i < j < |s| :: s[i].id != s[j].id
    ensures |StampIds(s)| == |s|
  {
    if s != [] {
      var init, last := s[..|s| - 1], s[|s| - 1];
      StampIdsCount(init);
      assert s == init + [last];
      assert last.id !in StampIds(init);
      assert StampIds(s) == StampIds(init) + {last.id};
    }
  }

  /** The sorted stamps of the terminal jobs. */
  ghost function Ranking(jobs: seq<Job>): seq<Stamp> {
    Sort(Map(Filter(jobs, IsTerminal()), StampOf()))
  }

  lemma RankingMembers(jobs: seq<Job>)
    ensures var r := Ranking(jobs);
            && Sorted(r) && |r| == Count(jobs, IsTerminal())
            && (forall x :: x in r <==> exists j | j in jobs :: j.status.Terminal() && x == Stamp(j.updatedAt, j.id))
  {
    var done := Filter(jobs, IsTerminal());
    var stamps := Map(done, StampOf());
    var r := Ranking(jobs);
    SortSorts(stamps);
    FilterMembers(jobs, IsTerminal());
    forall x ensures x in r <==> exists j | j in jobs :: j.status.Terminal() && x == Stamp(j.updatedAt, j.id) {
      assert x in r <==> x in multiset(stamps);
      StampsMembers(done, x);
    }
  }

  lemma StampsMembers(done: seq<Job>, x: Stamp)
    ensures x in Map(done, StampOf()) <==> exists j | j in done :: x == Stamp(j.updatedAt, j.id)
  {
    var stamps := Map(done, StampOf());
    if j :| j in done && x == Stamp(j.updatedAt, j.id) {
      var k :| 0 <= k < |done| && done[k] == j;
      assert stamps[k] == x;
    }
    if x in stamps {
      var k :| 0 <= k < |stamps| && stamps[k] == x;
      assert done[k] in done && x == Stamp(done[k].updatedAt, done[k].id);
    }
  }

  lemma RankingIsTerminal(jobs: seq<Job>)
    requires DistinctIds(jobs)
    ensures var r := Ranking(jobs);
            && Sorted(r) && |r| == Count(jobs, IsTerminal())
            && (forall x :: x in r <==> exists j | j in jobs :: j.status.Terminal() && x == Stamp(j.updatedAt, j.id))
            && (forall i, k | 0 <= i < k < |r| :: r[i].id != r[k].id)
  {
    var done := Filter(jobs, IsTerminal());
    var r := Ranking(jobs);
    RankingMembers(jobs);
    FilterMembers(jobs, IsTerminal());
    FilterDistinctIds(jobs, IsTerminal());
    IdsCount(done);
    assert StampIds(r) == Ids(done) by {
      forall id | id in Ids(done) ensures id in StampIds(r) {
        var j :| j in done && j.id == id;
        assert Stamp(j.updatedAt, j.id) in r;
      }
    }
    DistinctFromCount(r);
  }

  /** As many different ids as elements means no id occurs twice. */
  lemma {:induction false} DistinctFromCount(s: seq<Stamp>)
    requires |StampIds(s)| == |s|
    ensures forall i, k | 0 <= i < k < |s| :: s[i].id != s[k].id
  {
    if s != [] {
      var init, last := s[..|s| - 1], s[|s| - 1];
      assert s == init + [last];
      assert StampIds(s) == StampIds(init) + {last.id};
      AtMost(init);
      DistinctFromCount(init);
      assert last.id !in StampIds(init);
    }
  }

  lemma {:induction false} AtMost(s: seq<Stamp>)
    ensures |StampIds(s)| <= |s|
  {
    if s != [] {
      var init, last := s[..|s| - 1], s[|s| - 1];
      AtMost(init);
      assert s == init + [last];
      assert StampIds(s) == StampIds(init) + {last.id};
    }
  }

  // ---- The result ------------------------------------------------------------------------------

  /**
   Retention with a limit keeps list order (it filters), every unfinished job, and of the finished
   ones exactly the limit's worth that are greatest by (updated_at, id).
   */
  lemma RetainNewest(jobs: seq<Job>, keep: nat)
    requires DistinctIds(jobs) && keep > 0
    ensures var kept := Retain(jobs, keep);
            && Count(kept, IsTerminal()) ==
                (if Count(jobs, IsTerminal()) <= keep then Count(jobs, IsTerminal()) else keep)
            && (forall j | j in jobs && !j.status.Terminal() :: j in kept)
            && (forall j | j in kept :: j in jobs)
            && (forall k, r | k in kept && k.status.Terminal() && r in jobs && r !in kept ::
                  r.status.Terminal() && StampLeq(Stamp(r.updatedAt, r.id), Stamp(k.updatedAt, k.id)) && r.id != k.id)
  {
    var r := Ranking(jobs);
    RankingIsTerminal(jobs);
    var gone := Expired(jobs, keep);
    var n := if |r| <= keep then 0 else |r| - keep;
    assert gone == r[..n];
    var p := Kept(gone);
    var kept := Retain(jobs, keep);
    FilterMembers(jobs, p);
    forall j | j in jobs && !j.status.Terminal() ensures j in kept {
      ExpiredIsTerminal(jobs, keep, j);
    }
    forall k, x | k in kept && k.status.Terminal() && x in jobs && x !in kept
      ensures x.status.Terminal() && StampLeq(Stamp(x.updatedAt, x.id), Stamp(k.updatedAt, k.id)) && x.id != k.id
    {
      Older(jobs, keep, k, x);
    }
    KeptCount(jobs, keep);
  }

  lemma SameId(jobs: seq<Job>, a: Job, b: Job)
    requires DistinctIds(jobs) && a in jobs && b in jobs && a.id == b.id
    ensures a == b
  {
  }

  /** A job whose id expired is terminal, and it is its own stamp that expired. */
  lemma ExpiredIsTerminal(jobs: seq<Job>, keep: nat, j: Job)
    requires DistinctIds(jobs) && j in jobs
    ensures !Kept(Expired(jobs, keep))(j) ==> j.status.Terminal() && Stamp(j.updatedAt, j.id) in Expired(jobs, keep)
  {
    RankingIsTerminal(jobs);
    var gone := Expired(jobs, keep);
    forall s | s in gone && s.id == j.id ensures j.status.Terminal() && s == Stamp(j.updatedAt, j.id) {
      assert s in Ranking(jobs);
      var o :| o in jobs && o.status.Terminal() && s == Stamp(o.updatedAt, o.id);
      SameId(jobs, o, j);
    }
  }

  lemma Older(jobs: seq<Job>, keep: nat, k: Job, x: Job)
    requires DistinctIds(jobs) && keep > 0
    requires k in Retain(jobs, keep) && k.status.Terminal() && x in jobs && x !in Retain(jobs, keep)
    ensures x.status.Terminal() && StampLeq(Stamp(x.updatedAt, x.id), Stamp(k.updatedAt, k.id)) && x.id != k.id
  {
    var r := Ranking(jobs);
    RankingIsTerminal(jobs);
    var gone := Expired(jobs, keep);
    FilterMembers(jobs, Kept(gone));
    ExpiredIsTerminal(jobs, keep, x);
    var s := Stamp(x.updatedAt, x.id);
    var y := Stamp(k.updatedAt, k.id);
    assert y in r && y !in gone;
    var a :| 0 <= a < |gone| && gone[a] == s;
    var b :| 0 <= b < |r| && r[b] == y;
    assert a < b;
  }

  lemma KeptCount(jobs: seq<Job>, keep: nat)
    requires DistinctIds(jobs) && keep > 0
    ensures Count(Retain(jobs, keep), IsTerminal()) ==
            (if Count(jobs, IsTerminal()) <= keep then Count(jobs, IsTerminal()) else keep)
  {
    var r := Ranking(jobs);
    RankingIsTerminal(jobs);
    var gone := Expired(jobs, keep);
    var kept := Retain(jobs, keep);
    FilterMembers(kept, IsTerminal());
    FilterDistinctIds(jobs, Kept(gone));
    FilterDistinctIds(kept, IsTerminal());
    IdsCount(Filter(kept, IsTerminal()));
    StampIdsCount(r);
    StampIdsCount(gone);
    KeptIds(jobs, keep);
    assert StampIds(gone) <= StampIds(r);
  }

  lemma KeptIds(jobs: seq<Job>, keep: nat)
    requires DistinctIds(jobs) && keep > 0
    ensures Ids(Filter(Retain(jobs, keep), IsTerminal())) == StampIds(Ranking(jobs)) - StampIds(Expired(jobs, keep))
  {
    var gone := Expired(jobs, keep);
    var left := Filter(Retain(jobs, keep), IsTerminal());
    RankingIsTerminal(jobs);
    FilterMembers(jobs, Kept(gone));
    FilterMembers(Retain(jobs, keep), IsTerminal());
    forall id | id in Ids(left) ensures id in StampIds(Ranking(jobs)) - StampIds(gone) {
      var j :| j in left && j.id == id;
      assert Stamp(j.updatedAt, j.id) in Ranking(jobs);
    }
    forall id | id in StampIds(Ranking(jobs)) - StampIds(gone) ensures id in Ids(left) {
      var s :| s in Ranking(jobs) && s.id == id;
      var j :| j in jobs && j.status.Terminal() && s == Stamp(j.updatedAt, j.id);
      assert j in Retain(jobs, keep);
      assert j in left;
    }
  }
}
