/** A decision judges each environment alone: deciding on the containers and records of one environment gives exactly its
    part of the whole decision. The second decision under the lock of an environment rests on this. */
module MonitorLocality {
  import opened Seqs
  import opened Sorting
  import opened MonitorRules

  function RecordOf(e: string): Record -> bool { (r: Record) => r.environmentId == e }

  function StopFor(e: string): Stop -> bool { (s: Stop) => s.environmentId == e }

  function Is(e: string): string -> bool { (name: string) => name == e }

  /** The input of a decision on the environment `e` alone, with the state `state`. */
  function Alone(i: Input, e: string, state: State): Input {
    Input(i.now, Filter(ContainerOf(e), i.containers), Filter(RecordOf(e), i.records), state, i.timing)
  }

  /** `j` looks at the environment `e` alone, at the same time, with the same grace and the same view of its records. */
  ghost predicate SameView(i: Input, j: Input, e: string) {
    && j == Alone(i, e, j.state)
    && InGrace(j) == InGrace(i)
    && forall r :: r in j.records ==> See(j.now, j.state)(r) == See(i.now, i.state)(r)
  }

  lemma RecordsAlone(i: Input, j: Input, e: string)
    requires SameView(i, j, e)
    ensures Clamped(j) == RecordsOf(i, e) && RecordsOf(j, e) == RecordsOf(i, e)
  {
    MapFilter(See(i.now, i.state), RecordOf(e), OfEnvironment(e), i.records);
    assert Clamped(j) == Map(See(i.now, i.state), j.records);
    FilterAll(OfEnvironment(e), Clamped(j));
  }

  lemma ContainersAlone(i: Input, j: Input, e: string)
    requires j.containers == Filter(ContainerOf(e), i.containers)
    ensures RunningOf(j.containers, e) == RunningOf(i.containers, e)
    ensures RunningEnvironments(j.containers) == Filter(Is(e), RunningEnvironments(i.containers))
    ensures Present(j, e) == Present(i, e)
  {
    var up := Filter(RunningContainer(), i.containers);
    FilterTwice(RunningContainer(), ContainerOf(e), i.containers);
    assert Filter(RunningContainer(), j.containers) == Filter(ContainerOf(e), up);
    FilterAll(ContainerOf(e), Filter(ContainerOf(e), up));
    MapFilter(EnvironmentOf(), ContainerOf(e), Is(e), up);
    DistinctFilter(Is(e), Map(EnvironmentOf(), up));
  }

  lemma {:induction false} DistinctFilter<T(!new)>(p: T -> bool, s: seq<T>)
    ensures Distinct(Filter(p, s)) == Filter(p, Distinct(s))
  {
    if s != [] {
      var init, last := s[..|s| - 1], s[|s| - 1];
      DistinctFilter(p, init);
      FilterSnoc(p, Distinct(init), last);
      if p(last) {
        assert (Filter(p, init) + [last])[..|Filter(p, init)|] == Filter(p, init);
      }
    }
  }

  lemma VerdictAlone(i: Input, j: Input, e: string)
    requires SameView(i, j, e)
    ensures VerdictOf(j, e) == VerdictOf(i, e)
    ensures VerdictOf(i, e).Silent? ==> StopOf(j, e) == StopOf(i, e)
  {
    RecordsAlone(i, j, e);
    ContainersAlone(i, j, e);
    hide RecordsOf, RunningOf, InGrace, Decisive;
  }

  lemma {:induction false} StopsAlone(i: Input, j: Input, e: string, environments: seq<string>)
    requires VerdictOf(j, e) == VerdictOf(i, e)
    requires VerdictOf(i, e).Silent? ==> StopOf(j, e) == StopOf(i, e)
    ensures Stops(j, Filter(Is(e), environments)) == Filter(StopFor(e), Stops(i, environments))
  {
    hide VerdictOf, DevContainerFirst, RunningOf;
    if environments != [] {
      var init, last := environments[..|environments| - 1], environments[|environments| - 1];
      StopsAlone(i, j, e, init);
      if VerdictOf(i, last).Silent? {
        FilterSnoc(StopFor(e), Stops(i, init), StopOf(i, last));
      }
      if last == e {
        assert (Filter(Is(e), init) + [last])[..|Filter(Is(e), init)|] == Filter(Is(e), init);
      }
    }
  }

  lemma ForgottenAlone(i: Input, j: Input, e: string)
    requires SameView(i, j, e)
    ensures forall s :: s in Clamped(i) && s.written.environmentId == e ==> IsForgotten(j, s) == IsForgotten(i, s)
  {
    RecordsAlone(i, j, e);
    ContainersAlone(i, j, e);
    hide Clamped;
    forall s: Seen, other: Seen | other in Clamped(i) && other.written.environmentId == e && s.written.environmentId == e
      ensures Blocks(j, other, s) == Blocks(i, other, s)
    {
    }
    forall s | s in Clamped(i) && s.written.environmentId == e
      ensures IsForgotten(j, s) == IsForgotten(i, s)
    {
      if other :| other in Clamped(i) && Blocks(i, other, s) {
        assert other in Clamped(j) && Blocks(j, other, s);
      }
    }
  }

  lemma ForgetAlone(i: Input, j: Input, e: string)
    requires SameView(i, j, e)
    ensures Forgotten(j) == Filter(OfEnvironment(e), Forgotten(i))
  {
    RecordsAlone(i, j, e);
    ForgottenAlone(i, j, e);
    RemovalOrder();
    FilterUnder(ForgetTest(j), ForgetTest(i), OfEnvironment(e), Clamped(i));
    FilterSort(RemovedBefore(), OfEnvironment(e), Filter(ForgetTest(i), Clamped(i)));
  }

  lemma RemovalOrder()
    ensures StrictWeakOrder(RemovedBefore())
  {
  }

  lemma SupersededAlone(i: Input, j: Input, e: string)
    requires SameView(i, j, e)
    ensures Superseded(j) == Filter(OfEnvironment(e), Superseded(i))
  {
    RecordsAlone(i, j, e);
    ForgottenAlone(i, j, e);
    hide Clamped, IsForgotten, RecordsOf;
    forall s | s in Clamped(i) && s.written.environmentId == e
      ensures IsSuperseded(j, s) == IsSuperseded(i, s)
    {
      assert HeldByKeep(j, s.written) == HeldByKeep(i, s.written) by {
        if HeldByKeep(i, s.written) {
          var other :| other in i.records && other.environmentId == e && other.keepRunning && other.source != s.written.source && other.at <= s.written.at;
          assert other in j.records;
        }
      }
    }
    FilterUnder(SupersededTest(j), SupersededTest(i), OfEnvironment(e), Clamped(i)) by {
      RecordsAlone(i, j, e);
    }
    assert Clamped(j) == Filter(OfEnvironment(e), Clamped(i)) by {
      RecordsAlone(i, j, e);
    }
  }

  lemma FutureKeysAlone(i: Input, e: string, state: State)
    ensures FutureKeys(Alone(i, e, state)) == set key | key in FutureKeys(i) && key.environmentId == e
  {
    var j := Alone(i, e, state);
    forall key
      ensures key in FutureKeys(j) <==> key in FutureKeys(i) && key.environmentId == e
    {
      if key in FutureKeys(i) && key.environmentId == e {
        var r :| r in i.records && IsFuture(i.now, r) && KeyOf(r) == key;
        assert r in j.records;
      }
    }
  }

  /** With the same time and state, the decision on one environment alone is exactly its part of the whole decision: the
      stop with its containers in order, the keep, the records to forget in their order, and the superseded ones. */
  lemma DecideAlone(i: Input, e: string)
    ensures var one := Decide(Alone(i, e, i.state));
            var whole := Decide(i);
            && one.stop == Filter(StopFor(e), whole.stop)
            && one.kept == Filter(Is(e), whole.kept)
            && one.forget == Filter(RecordOf(e), whole.forget)
            && one.superseded == Filter(RecordOf(e), whole.superseded)
            && one.grace == whole.grace
            && one.state.lastTickAt == whole.state.lastTickAt
            && one.state.graceUntil == whole.state.graceUntil
            && one.state.futureSeen == map key | key in whole.state.futureSeen && key.environmentId == e :: whole.state.futureSeen[key]
  {
    var j := Alone(i, e, i.state);
    assert SameView(i, j, e);
    JudgedAlone(i, j, e);
    RemovalsAlone(i, j, e);
    FutureKeysAlone(i, e, i.state);
    hide RecordsOf, Stops, RunningEnvironments, Superseded, Forgotten, IsActive, Filter, Map, FutureKeys, SameView;
  }

  lemma JudgedAlone(i: Input, j: Input, e: string)
    requires SameView(i, j, e)
    ensures Decide(j).stop == Filter(StopFor(e), Decide(i).stop)
    ensures Decide(j).kept == Filter(Is(e), Decide(i).kept)
  {
    var environments := RunningEnvironments(i.containers);
    VerdictAlone(i, j, e);
    ContainersAlone(i, j, e);
    StopsAlone(i, j, e, environments);
    FilterUnder(IsKept(j), IsKept(i), Is(e), environments);
    hide RecordsOf, Stops, RunningEnvironments, Superseded, Forgotten, NextState, IsActive, VerdictOf, Filter, Map;
  }

  lemma RemovalsAlone(i: Input, j: Input, e: string)
    requires SameView(i, j, e)
    ensures Decide(j).forget == Filter(RecordOf(e), Decide(i).forget)
    ensures Decide(j).superseded == Filter(RecordOf(e), Decide(i).superseded)
  {
    ForgetAlone(i, j, e);
    SupersededAlone(i, j, e);
    MapFilter(Written(), OfEnvironment(e), RecordOf(e), Forgotten(i));
    MapFilter(Written(), OfEnvironment(e), RecordOf(e), Superseded(i));
    hide RecordsOf, Stops, RunningEnvironments, Superseded, Forgotten, NextState, IsActive, VerdictOf;
  }

  // ---- The second decision, with the state that the tick left ----

  lemma ViewAfterTick(i: Input, e: string)
    requires i.timing.gapMs >= 0
    ensures SameView(i, Alone(i, e, Decide(i).state), e)
  {
    var state := NextState(i);
    var j := Alone(i, e, state);
    forall r | r in j.records
      ensures See(j.now, state)(r) == See(i.now, i.state)(r)
    {
      if IsFuture(i.now, r) {
        assert KeyOf(r) in FutureKeys(i);
      }
    }
    assert GraceUntil(i).Some? ==> GraceUntil(i).value <= i.now + i.timing.graceMs;
  }

  /** Decided again under the lock with the state of the tick, at the same time and on unchanged containers and records,
      an environment gets exactly the verdict and the stop of the tick: a second decision means the same as the first. */
  lemma DecidedAgainTheSame(i: Input, e: string)
    requires i.timing.gapMs >= 0
    ensures Decide(Alone(i, e, Decide(i).state)).stop == Filter(StopFor(e), Decide(i).stop)
    ensures Decide(Alone(i, e, Decide(i).state)).kept == Filter(Is(e), Decide(i).kept)
    ensures Decide(Alone(i, e, Decide(i).state)).grace == Decide(i).grace
  {
    var j := Alone(i, e, Decide(i).state);
    ViewAfterTick(i, e);
    JudgedAlone(i, j, e);
    hide RecordsOf, Stops, RunningEnvironments, Superseded, Forgotten, NextState, IsActive, VerdictOf;
  }
}
