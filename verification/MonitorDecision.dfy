/** What one decision of the Session Monitor means: who is stopped and kept, that each environment is judged by its own
    containers and records alone, and that the removal of records changes no judgement. */
module MonitorDecision {
  import opened Seqs
  import opened Sorting
  import opened MonitorRules

  // ---- The record that decides, without the folds of the code ----

  /** `k` is the first of the greatest records among those of `p`: by the time as the rules see it, then by keepRunning. */
  ghost predicate FirstGreatest(rs: seq<Seen>, p: Seen -> bool, k: int) {
    && 0 <= k < |rs| && p(rs[k])
    && (forall j :: 0 <= j < |rs| && p(rs[j]) ==>
          rs[j].at <= rs[k].at && (rs[j].at == rs[k].at && rs[j].written.keepRunning ==> rs[k].written.keepRunning))
    && (forall j :: 0 <= j < k && p(rs[j]) ==>
          rs[j].at < rs[k].at || (rs[j].at == rs[k].at && !rs[j].written.keepRunning && rs[k].written.keepRunning))
  }

  function Any(): Seen -> bool { (s: Seen) => true }

  /** A record of another source that is no release and was written at most its limit ago. */
  function IsLive(now: int, source: string): Seen -> bool {
    (s: Seen) => s.written.source != source && !s.written.release && now - s.at <= s.written.limitSeconds * 1000
  }

  ghost predicate SomeLiveOther(now: int, rs: seq<Seen>, newest: Seen) {
    exists j :: 0 <= j < |rs| && IsLive(now, newest.written.source)(rs[j])
  }

  /** The record at `d` decides: the newest one, unless that is a release and a record of another source is still live;
      then the newest of those live records. */
  ghost predicate Decides(now: int, rs: seq<Seen>, d: int) {
    exists n :: FirstGreatest(rs, Any(), n) &&
      if rs[n].written.release && SomeLiveOther(now, rs, rs[n])
      then FirstGreatest(rs, IsLive(now, rs[n].written.source), d)
      else d == n
  }

  lemma {:induction false} NewestOfFilter(rs: seq<Seen>, p: Seen -> bool) returns (k: int)
    requires Filter(p, rs) != []
    ensures FirstGreatest(rs, p, k) && NewestOf(Filter(p, rs)) == rs[k]
  {
    var init, last := rs[..|rs| - 1], rs[|rs| - 1];
    assert rs == init + [last];
    FilterSnoc(p, init, last);
    if Filter(p, init) == [] {
      k := |rs| - 1;
    } else {
      k := NewestOfFilter(init, p);
      assert (Filter(p, init) + [last])[..|Filter(p, init)|] == Filter(p, init);
      if p(last) && Outranks(last, rs[k]) {
        k := |rs| - 1;
      }
    }
  }

  lemma FirstGreatestUnique(rs: seq<Seen>, p: Seen -> bool, j: int, k: int)
    requires FirstGreatest(rs, p, j) && FirstGreatest(rs, p, k)
    ensures j == k
  {
  }

  lemma DecisiveDecides(now: int, rs: seq<Seen>)
    requires rs != []
    ensures exists d :: Decides(now, rs, d)
    ensures forall d :: Decides(now, rs, d) ==> rs[d] == Decisive(now, rs)
  {
    FilterAll(Any(), rs);
    var n := NewestOfFilter(rs, Any());
    var p := IsLive(now, rs[n].written.source);
    var live := Filter(p, rs);
    FilterAgrees(LiveOther(now, rs[n].written.source), p, rs);
    if rs[n].written.release && live != [] {
      var m := NewestOfFilter(rs, p);
      assert Decides(now, rs, m);
    } else {
      assert SomeLiveOther(now, rs, rs[n]) ==> live != [] by {
        if j :| 0 <= j < |rs| && p(rs[j]) { assert rs[j] in live; }
      }
      assert Decides(now, rs, n);
    }
    forall d | Decides(now, rs, d)
      ensures rs[d] == Decisive(now, rs)
    {
      var n' :| FirstGreatest(rs, Any(), n') &&
        if rs[n'].written.release && SomeLiveOther(now, rs, rs[n']) then FirstGreatest(rs, IsLive(now, rs[n'].written.source), d) else d == n';
      FirstGreatestUnique(rs, Any(), n, n');
      if rs[n].written.release && live != [] {
        var m := NewestOfFilter(rs, p);
        assert p(rs[m]);
        FirstGreatestUnique(rs, p, d, m);
      }
    }
  }

  /** A newest record that is a release decides only when no record of another source is live: one that is no release itself and was
      written at most its own limit ago; otherwise the greatest of those decides. */
  lemma AReleaseYields(now: int, rs: seq<Seen>, n: int)
    requires FirstGreatest(rs, Any(), n) && rs[n].written.release
    ensures var r := Decisive(now, rs);
            if forall s :: s in rs && s.written.source != rs[n].written.source ==>
                 s.written.release || now - s.at > s.written.limitSeconds * 1000
            then r == rs[n]
            else
              && r in rs && r.written.source != rs[n].written.source && !r.written.release && now - r.at <= r.written.limitSeconds * 1000
              && forall s :: s in rs && s.written.source != rs[n].written.source && !s.written.release
                             && now - s.at <= s.written.limitSeconds * 1000 ==>
                   s.at <= r.at && (s.at == r.at && s.written.keepRunning ==> r.written.keepRunning)
  {
    DecisiveDecides(now, rs);
    var d :| Decides(now, rs, d);
    hide Decisive;
    forall n' | FirstGreatest(rs, Any(), n')
      ensures n' == n
    {
      FirstGreatestUnique(rs, Any(), n, n');
    }
    var p := IsLive(now, rs[n].written.source);
    if s :| s in rs && p(s) {
      var k :| 0 <= k < |rs| && rs[k] == s;
      assert p(rs[k]);
      assert p(rs[d]);
    } else {
      assert !SomeLiveOther(now, rs, rs[n]);
    }
  }

  // ---- Who is stopped, who is kept ----

  ghost predicate HasRunning(i: Input, e: string) {
    exists c :: c in i.containers && c.environmentId == e && (c.state == "running" || c.state == "restarting" || c.state == "paused")
  }

  lemma RunningEnvironmentsAre(i: Input)
    ensures forall e :: e in RunningEnvironments(i.containers) <==> HasRunning(i, e)
    ensures NoDuplicates(RunningEnvironments(i.containers))
  {
    var up := Filter(RunningContainer(), i.containers);
    var names := Map(EnvironmentOf(), up);
    forall e
      ensures e in names <==> HasRunning(i, e)
    {
      if e in names {
        var k :| 0 <= k < |names| && names[k] == e;
        assert up[k] in up;
      }
      if HasRunning(i, e) {
        var c :| c in i.containers && c.environmentId == e && IsRunning(c.state);
        var k :| 0 <= k < |up| && up[k] == c;
        assert names[k] == e;
      }
    }
  }

  lemma {:induction false} StopsAre(i: Input, environments: seq<string>)
    ensures forall s :: s in Stops(i, environments) <==>
              s.environmentId in environments && VerdictOf(i, s.environmentId).Silent? && s == StopOf(i, s.environmentId)
  {
    hide VerdictOf, DevContainerFirst, RunningOf;
    if environments != [] {
      StopsAre(i, environments[..|environments| - 1]);
    }
  }

  ghost predicate Stopped(i: Input, e: string) { exists s :: s in Decide(i).stop && s.environmentId == e }

  lemma StoppedByVerdict(i: Input, e: string)
    ensures Stopped(i, e) <==> HasRunning(i, e) && VerdictOf(i, e).Silent?
    ensures e in Decide(i).kept <==> HasRunning(i, e) && VerdictOf(i, e).Keep?
  {
    RunningEnvironmentsAre(i);
    var environments := RunningEnvironments(i.containers);
    StopsAre(i, environments);
    hide RunningEnvironments, VerdictOf, RunningOf, DevContainerFirst, Superseded, Forgotten, NextState, IsActive;
    assert Decide(i).stop == Stops(i, environments);
    if HasRunning(i, e) && VerdictOf(i, e).Silent? {
      assert StopOf(i, e) in Stops(i, environments);
    }
  }

  /** An environment is stopped exactly when it has a running container, no grace holds, and the record that decides
      neither keeps it nor is within its limit; it is kept exactly when that record says so. */
  lemma StoppedExactlyWhen(i: Input, e: string)
    ensures var rs := RecordsOf(i, e);
            && (Stopped(i, e) <==>
                && HasRunning(i, e) && !Decide(i).grace
                && exists d :: Decides(i.now, rs, d) && !rs[d].written.keepRunning && i.now - rs[d].at > rs[d].written.limitSeconds * 1000)
            && (e in Decide(i).kept <==>
                HasRunning(i, e) && exists d :: Decides(i.now, rs, d) && rs[d].written.keepRunning)
  {
    var rs := RecordsOf(i, e);
    StoppedByVerdict(i, e);
    if rs != [] {
      DecisiveDecides(i.now, rs);
      var d :| Decides(i.now, rs, d);
    }
    hide Decides, RecordsOf, Stops, RunningEnvironments, Superseded, Forgotten, Stopped, HasRunning, Decisive, NextState, IsActive;
  }

  /** A stop names every running container of its environment and no other, the dev container before the services. */
  lemma StopContainers(i: Input, s: Stop)
    requires s in Decide(i).stop
    ensures forall c :: c in s.containers <==>
              && c in i.containers && c.environmentId == s.environmentId
              && (c.state == "running" || c.state == "restarting" || c.state == "paused")
    ensures multiset(s.containers) == multiset(RunningOf(i.containers, s.environmentId))
    ensures forall j, k :: 0 <= j < k < |s.containers| && s.containers[k].composeService == "" ==> s.containers[j].composeService == ""
  {
    StopsAre(i, RunningEnvironments(i.containers));
    var mine := RunningOf(i.containers, s.environmentId);
    SortMembers(ServiceAfterDev(), mine);
    SortMultiset(ServiceAfterDev(), mine);
    SortSorted(ServiceAfterDev(), mine);
  }

  ghost predicate OnceEach(stops: seq<Stop>) {
    forall j, k :: 0 <= j < k < |stops| ==> stops[j].environmentId != stops[k].environmentId
  }

  lemma {:induction false} StopsOncePerEnvironment(i: Input, environments: seq<string>)
    requires NoDuplicates(environments)
    ensures OnceEach(Stops(i, environments))
  {
    hide VerdictOf, DevContainerFirst, RunningOf;
    if environments != [] {
      var init, last := environments[..|environments| - 1], environments[|environments| - 1];
      StopsOncePerEnvironment(i, init);
      StopsAre(i, init);
      var before, stops := Stops(i, init), Stops(i, environments);
      forall j, k | 0 <= j < k < |stops|
        ensures stops[j].environmentId != stops[k].environmentId
      {
        assert stops == if VerdictOf(i, last).Silent? then before + [StopOf(i, last)] else before;
        assert before[j] in before;
        assert last !in init;
      }
    }
  }

  /** A tick stops an environment at most once, and never one that it keeps. */
  lemma OneVerdictPerEnvironment(i: Input)
    ensures OnceEach(Decide(i).stop)
    ensures forall e :: e in Decide(i).kept ==> !Stopped(i, e)
  {
    RunningEnvironmentsAre(i);
    StopsOncePerEnvironment(i, RunningEnvironments(i.containers));
    assert Decide(i).stop == Stops(i, RunningEnvironments(i.containers));
    forall e | e in Decide(i).kept
      ensures !Stopped(i, e)
    {
      StoppedByVerdict(i, e);
    }
  }

  // ---- Which records protect an environment ----

  /** The record at `k` protects: it is the newest and keeps or is within its limit, or the newest is a release of another
      source and it is within its own limit (and no release). */
  ghost predicate Protects(now: int, rs: seq<Seen>, k: int) {
    exists n :: FirstGreatest(rs, Any(), n) && 0 <= k < |rs| &&
      ( || (k == n && (rs[k].written.keepRunning || now - rs[k].at <= rs[k].written.limitSeconds * 1000))
        || (rs[n].written.release && IsLive(now, rs[n].written.source)(rs[k])))
  }

  /** Outside the grace, an environment with a record and a running container goes on exactly while a record protects it. */
  lemma GoesOnExactlyWhileProtected(i: Input, e: string)
    requires HasRunning(i, e) && !InGrace(i) && RecordsOf(i, e) != []
    ensures !Stopped(i, e) <==> exists k :: Protects(i.now, RecordsOf(i, e), k)
  {
    var rs := RecordsOf(i, e);
    StoppedByVerdict(i, e);
    DecisiveDecides(i.now, rs);
    hide RecordsOf, Decides, Protects, Stops, RunningEnvironments, Superseded, Forgotten, Stopped, HasRunning, NextState, IsActive, InGrace;
    var d :| Decides(i.now, rs, d);
    ProtectedByDecisive(i.now, rs, d);
  }

  lemma ProtectedByDecisive(now: int, rs: seq<Seen>, d: int)
    requires Decides(now, rs, d)
    ensures 0 <= d < |rs|
    ensures (exists k :: Protects(now, rs, k)) <==> rs[d].written.keepRunning || now - rs[d].at <= rs[d].written.limitSeconds * 1000
  {
    var n :| FirstGreatest(rs, Any(), n) &&
      if rs[n].written.release && SomeLiveOther(now, rs, rs[n]) then FirstGreatest(rs, IsLive(now, rs[n].written.source), d) else d == n;
    forall n' | FirstGreatest(rs, Any(), n')
      ensures n' == n
    {
      FirstGreatestUnique(rs, Any(), n, n');
    }
    var p := IsLive(now, rs[n].written.source);
    if rs[n].written.release && SomeLiveOther(now, rs, rs[n]) {
      assert p(rs[d]);
      assert Protects(now, rs, d);
    } else {
      hide FirstGreatest;
      if rs[n].written.keepRunning || now - rs[n].at <= rs[n].written.limitSeconds * 1000 { assert Protects(now, rs, n); }
      forall k | Protects(now, rs, k)
        ensures k == n && (rs[n].written.keepRunning || now - rs[n].at <= rs[n].written.limitSeconds * 1000)
      {
        assert p(rs[k]) ==> SomeLiveOther(now, rs, rs[n]) || !rs[n].written.release;
      }
    }
  }

  /** A heartbeat within its own limit does not protect by itself: a newer record of another computer that is no release
      decides with its own, shorter limit. */
  lemma AnOlderLiveHeartbeatDoesNotProtect()
    ensures var i, k := TWO_COMPUTERS, 0;
            && |RecordsOf(i, "e")| == 2 && WithinLimit(i.now, RecordsOf(i, "e")[k])
            && !RecordsOf(i, "e")[k].written.release && !InGrace(i) && Stopped(i, "e")
  {
    var i := TWO_COMPUTERS;
    TwoComputers();
    assert i.containers[0] in i.containers;
    hide RecordsOf, Stopped;
    NewerOfTwoDecides(i, "e", Seen(LONG, 0), Seen(SHORT, 1));
  }

  lemma TwoComputers()
    ensures RecordsOf(TWO_COMPUTERS, "e") == [Seen(LONG, 0), Seen(SHORT, 1)]
  {
    var i := TWO_COMPUTERS;
    assert i.records == [LONG] + [SHORT];
    assert Clamped(i) == [Seen(LONG, 0)] + [Seen(SHORT, 1)];
    FilterAll(OfEnvironment("e"), Clamped(i));
  }

  const LONG := Record("a", "e", 0, false, 3600, false)
  const SHORT := Record("b", "e", 1, false, 60, false)
  const TWO_COMPUTERS :=
    Input(100_000, [Container("c", "running", "n", "e", "")], [LONG, SHORT], State(Some(90_000), None, map[]), Timing(60_000, 120_000))

  lemma NewerOfTwoDecides(i: Input, e: string, older: Seen, newer: Seen)
    requires RecordsOf(i, e) == [older, newer] && older.at < newer.at && HasRunning(i, e) && !InGrace(i)
    requires !newer.written.release && !newer.written.keepRunning && !WithinLimit(i.now, newer)
    ensures Stopped(i, e)
  {
    StoppedByVerdict(i, e);
    hide RecordsOf, Stopped, HasRunning, InGrace, WithinLimit;
    var rs := RecordsOf(i, e);
    assert rs[..1] == [older];
    assert NewestOf(rs[..1]) == older;
    assert NewestOf(rs) == newer;
  }
}
