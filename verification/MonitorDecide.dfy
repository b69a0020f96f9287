/** `decide` as the source computes it: local maps filled in loops, then the same decision as `MonitorRules.Decide`. */
module MonitorDecide {
  import opened Seqs
  import opened Sorting
  import opened MonitorRules

  /** The running containers by environment, and the environments in the order of their insertion. */
  method GroupContainers(cs: seq<Container>)
    returns (running: map<string, seq<Container>>, order: seq<string>)
    ensures order == RunningEnvironments(cs)
    ensures forall e :: e in running <==> e in order
    ensures forall e :: Group(running, e) == RunningOf(cs, e)
  {
    running, order := map[], [];
    assert IsGrouped(map[], [], []) by { assert RunningEnvironments([]) == [] && forall e :: RunningOf([], e) == []; }
    hide *;
    for k := 0 to |cs|
      invariant IsGrouped(running, order, cs[..k])
    {
      var c := cs[k];
      assert cs[..k + 1] == cs[..k] + [c];
      GroupedStep(running, order, cs[..k], c);
      if IsRunning(c.state) {
        if c.environmentId !in running {
          order := order + [c.environmentId];
        }
        running := AddTo(running, c.environmentId, c);
      }
    }
    assert cs[..|cs|] == cs;
    GroupedMeans(running, order, cs);
  }

  ghost predicate IsGrouped(running: map<string, seq<Container>>, order: seq<string>, cs: seq<Container>) {
    && order == RunningEnvironments(cs)
    && (forall e :: e in running <==> e in order)
    && forall e :: Group(running, e) == RunningOf(cs, e)
  }

  lemma GroupedMeans(running: map<string, seq<Container>>, order: seq<string>, cs: seq<Container>)
    requires IsGrouped(running, order, cs)
    ensures order == RunningEnvironments(cs)
    ensures forall e :: e in running <==> e in order
    ensures forall e :: Group(running, e) == RunningOf(cs, e)
  {
  }

  lemma GroupedStep(running: map<string, seq<Container>>, order: seq<string>, before: seq<Container>, c: Container)
    requires IsGrouped(running, order, before)
    ensures var runs := IsRunning(c.state);
            IsGrouped(if runs then AddTo(running, c.environmentId, c) else running,
                      if runs && c.environmentId !in running then order + [c.environmentId] else order, before + [c])
  {
    GroupStep(before, c);
    hide RunningEnvironments, RunningOf, AddTo, Group;
  }

  /** What one more container adds. */
  lemma GroupStep(before: seq<Container>, c: Container)
    ensures RunningEnvironments(before + [c]) ==
            if IsRunning(c.state) && c.environmentId !in RunningEnvironments(before)
            then RunningEnvironments(before) + [c.environmentId] else RunningEnvironments(before)
    ensures forall e :: RunningOf(before + [c], e) ==
              if IsRunning(c.state) && c.environmentId == e then RunningOf(before, e) + [c] else RunningOf(before, e)
  {
    var up := Filter(RunningContainer(), before);
    FilterSnoc(RunningContainer(), before, c);
    MapSnoc(EnvironmentOf(), up, c);
    DistinctSnoc(Map(EnvironmentOf(), up), c.environmentId);
    forall e {
      FilterSnoc(ContainerOf(e), up, c);
    }
  }

  /** The records with their `at` as the rules see it, and the times at which the future ones were first seen. */
  method ClampRecords(now: int, records: seq<Record>, previous: State)
    returns (clamped: seq<Seen>, futureSeen: map<SeenKey, int>)
    ensures clamped == Map(See(now, previous), records)
    ensures forall key :: key in futureSeen <==> exists r :: r in records && IsFuture(now, r) && KeyOf(r) == key
    ensures forall key :: key in futureSeen ==> futureSeen[key] == FirstSeen(now, previous, key)
  {
    clamped, futureSeen := [], map[];
    for k := 0 to |records|
      invariant clamped == Map(See(now, previous), records[..k])
      invariant forall key :: key in futureSeen <==> exists r :: r in records[..k] && IsFuture(now, r) && KeyOf(r) == key
      invariant forall key :: key in futureSeen ==> futureSeen[key] == FirstSeen(now, previous, key)
    {
      var r := records[k];
      assert records[..k + 1] == records[..k] + [r];
      if r.at <= now + FUTURE_RECORD_TOLERANCE_MS {
        clamped := clamped + [Seen(r, r.at)];
      } else {
        var key := KeyOf(r);
        var seen := Min(if key in previous.futureSeen then previous.futureSeen[key] else now, now);
        futureSeen := futureSeen[key := seen];
        clamped := clamped + [Seen(r, seen)];
      }
    }
    assert records[..|records|] == records;
  }

  method GroupRecords(clamped: seq<Seen>) returns (recordsOf: map<string, seq<Seen>>)
    ensures forall e :: Group(recordsOf, e) == Filter(OfEnvironment(e), clamped)
  {
    recordsOf := map[];
    for k := 0 to |clamped|
      invariant forall e :: Group(recordsOf, e) == Filter(OfEnvironment(e), clamped[..k])
    {
      var s := clamped[k];
      assert clamped[..k + 1] == clamped[..k] + [s];
      forall other {
        FilterSnoc(OfEnvironment(other), clamped[..k], s);
      }
      recordsOf := AddTo(recordsOf, s.written.environmentId, s);
    }
    assert clamped[..|clamped|] == clamped;
  }

  /** The reduce of the source: the first of the records that no other outranks. */
  method Reduce(rs: seq<Seen>) returns (best: Seen)
    requires rs != []
    ensures best == NewestOf(rs)
  {
    best := rs[0];
    for k := 1 to |rs|
      invariant best == NewestOf(rs[..k])
    {
      assert rs[..k + 1][..k] == rs[..k];
      if Outranks(rs[k], best) {
        best := rs[k];
      }
    }
    assert rs[..|rs|] == rs;
  }

  method DecisiveRecord(now: int, records: seq<Seen>) returns (newest: Seen)
    requires records != []
    ensures newest == Decisive(now, records)
  {
    newest := Reduce(records);
    if newest.written.release {
      var othersLive := Filter(LiveOther(now, newest.written.source), records);
      if othersLive != [] {
        newest := Reduce(othersLive);
      }
    }
  }

  ghost predicate AreGrouped(i: Input, running: map<string, seq<Container>>, recordsOf: map<string, seq<Seen>>) {
    && (forall e :: Group(running, e) == RunningOf(i.containers, e))
    && forall e :: Group(recordsOf, e) == RecordsOf(i, e)
  }

  lemma GroupsOf(i: Input, running: map<string, seq<Container>>, recordsOf: map<string, seq<Seen>>, e: string)
    requires AreGrouped(i, running, recordsOf)
    ensures Group(running, e) == RunningOf(i.containers, e) && Group(recordsOf, e) == RecordsOf(i, e)
  {
  }

  method Judge(i: Input, environments: seq<string>, running: map<string, seq<Container>>, recordsOf: map<string, seq<Seen>>, grace: bool)
    returns (stop: seq<Stop>, kept: seq<string>)
    requires grace == InGrace(i)
    requires AreGrouped(i, running, recordsOf)
    ensures stop == Stops(i, environments)
    ensures kept == Filter(IsKept(i), environments)
  {
    hide *;
    stop, kept := [], [];
    NoneJudged(i, environments);
    for k := 0 to |environments|
      invariant stop == Stops(i, environments[..k])
      invariant kept == Filter(IsKept(i), environments[..k])
    {
      var e := environments[k];
      assert environments[..k + 1] == environments[..k] + [e];
      GroupsOf(i, running, recordsOf, e);
      JudgeStep(i, environments[..k], e);
      var records := Group(recordsOf, e);
      if records == [] {
        continue;
      }
      var newest := DecisiveRecord(i.now, records);
      if newest.written.keepRunning {
        kept := kept + [e];
        continue;
      }
      if grace || WithinLimit(i.now, newest) {
        continue;
      }
      stop := stop + [Stop(e, DevContainerFirst(Group(running, e)), i.now - newest.at, newest.written.limitSeconds)];
    }
    assert environments[..|environments|] == environments;
  }

  lemma NoneJudged(i: Input, environments: seq<string>)
    ensures Stops(i, environments[..0]) == [] && Filter(IsKept(i), environments[..0]) == []
  {
  }

  /** What one more environment adds. */
  lemma JudgeStep(i: Input, before: seq<string>, e: string)
    ensures var rs, stops, kept := RecordsOf(i, e), Stops(i, before + [e]), Filter(IsKept(i), before + [e]);
            if rs == [] then stops == Stops(i, before) && kept == Filter(IsKept(i), before)
            else
              var newest := Decisive(i.now, rs);
              var stop := Stop(e, DevContainerFirst(RunningOf(i.containers, e)), i.now - newest.at, newest.written.limitSeconds);
              if newest.written.keepRunning then stops == Stops(i, before) && kept == Filter(IsKept(i), before) + [e]
              else
                && kept == Filter(IsKept(i), before)
                && stops == if InGrace(i) || WithinLimit(i.now, newest) then Stops(i, before) else Stops(i, before) + [stop]
  {
    hide RecordsOf, Decisive, InGrace, WithinLimit, RunningOf, DevContainerFirst, Filter;
    assert (before + [e])[..|before|] == before;
    FilterSnoc(IsKept(i), before, e);
  }

  method GraceOf(i: Input) returns (grace: bool, graceUntil: Option<int>)
    ensures grace == InGrace(i)
    ensures (if grace then graceUntil else None) == NextState(i).graceUntil
  {
    graceUntil := i.state.graceUntil;
    if i.state.lastTickAt.None? || !(Abs(i.now - i.state.lastTickAt.value) <= i.timing.gapMs) {
      graceUntil := Some(i.now + i.timing.graceMs);
    } else if graceUntil.Some? {
      graceUntil := Some(Min(graceUntil.value, i.now + i.timing.graceMs));
    }
    grace := graceUntil.Some? && i.now < graceUntil.value;
  }

  method DecideTick(i: Input) returns (d: Decision)
    ensures d == Decide(i)
  {
    var grace, graceUntil := GraceOf(i);
    var running, order := GroupContainers(i.containers);
    var clamped, futureSeen := ClampRecords(i.now, i.records, i.state);
    var recordsOf := GroupRecords(clamped);
    var stop, kept := Judge(i, order, running, recordsOf, grace);
    var forget := StableSort(RemovedBefore(), Filter(ForgetTest(i), clamped));
    var superseded := Filter(SupersededOutside(i, forget), clamped);
    SupersededAsSpecified(i);
    var active := exists s :: s in clamped && WithinLimit(i.now, s);
    assert futureSeen == NextState(i).futureSeen;
    var state := State(Some(i.now), if grace then graceUntil else None, futureSeen);
    d := Decision(state, stop, kept, Map(Written(), forget), Map(Written(), superseded), grace, active);
  }

  /** The filter of the source for `superseded`, with the set of the forgotten records. */
  function SupersededOutside(i: Input, forget: seq<Seen>): Seen -> bool {
    (s: Seen) =>
      && s !in forget
      && !s.written.keepRunning
      && i.now - s.at > RECORD_MAX_AGE_MS
      && !HeldByKeep(i, s.written)
      && exists other :: other in RecordsOf(i, s.written.environmentId) && other.at > s.at
  }

  lemma ForgottenMembers(i: Input)
    ensures forall s :: s in Forgotten(i) <==> s in Clamped(i) && IsForgotten(i, s)
  {
    SortMembers(RemovedBefore(), Filter(ForgetTest(i), Clamped(i)));
  }

  lemma SupersededAsSpecified(i: Input)
    ensures Filter(SupersededOutside(i, Forgotten(i)), Clamped(i)) == Superseded(i)
  {
    ForgottenMembers(i);
    FilterAgrees(SupersededOutside(i, Forgotten(i)), SupersededTest(i), Clamped(i));
  }
}
