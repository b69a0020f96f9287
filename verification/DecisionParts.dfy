/** The parts of a decision, said of the fields of its input alone (src/remoteMonitor/rules.ts): the times that the rules see, the grace,
    the order of the stops, the records to remove, and what is remembered for the next tick. */
module DecisionParts {
  import opened Seqs
  import opened Sorting
  import opened MonitorRules
  import opened MonitorDecision
  import opened MonitorLocality
  import opened MonitorRemovals

  // ---- The times ----

  /** The time that counts for a record: its own, unless it is more than five minutes ahead of now; then that of its first sight, and
      never a later one than now. */
  function SeenTime(i: Input, r: Record): int {
    var key := SeenKey(r.source, r.environmentId, r.at);
    if r.at - i.now <= 300_000 then r.at
    else if key in i.state.futureSeen && i.state.futureSeen[key] < i.now then i.state.futureSeen[key]
    else i.now
  }

  /** The rules look at the records of an environment in their order, each with its time. */
  lemma SeenTimes(i: Input, e: string)
    ensures RecordsOf(i, e) == Map((r: Record) => Seen(r, SeenTime(i, r)), Filter((r: Record) => r.environmentId == e, i.records))
  {
    var mine, see := (r: Record) => r.environmentId == e, (r: Record) => Seen(r, SeenTime(i, r));
    MapFilter(See(i.now, i.state), mine, OfEnvironment(e), i.records);
    assert Map(See(i.now, i.state), Filter(mine, i.records)) == Map(see, Filter(mine, i.records));
  }

  lemma SeenIs(i: Input, s: Seen)
    requires s in Clamped(i)
    ensures s.written in i.records && s.at == SeenTime(i, s.written)
  {
    SeenIsOfRecord(i, s);
  }

  // ---- The grace, and the state ----

  /** The grace holds at a first tick, after a time since the last one that is longer than the gap in either direction, and up to the
      end that was remembered, at most `graceMs` long each. */
  lemma GraceMeans(i: Input)
    ensures var last, until := i.state.lastTickAt, i.state.graceUntil;
            Decide(i).grace <==>
              && i.timing.graceMs > 0
              && (|| last == None || i.now - last.value > i.timing.gapMs || last.value - i.now > i.timing.gapMs
                  || (until.Some? && i.now < until.value))
  {
    hide Stops, RunningEnvironments, Superseded, Forgotten, IsActive;
  }

  /** What the next tick knows: this time, the end of the grace while it holds, and of exactly the records more than five minutes ahead
      the time that counts for them. */
  lemma StateMeans(i: Input)
    ensures var s := Decide(i).state;
            && s.lastTickAt == Some(i.now)
            && (s.graceUntil.Some? <==> Decide(i).grace)
            && (forall key :: key in s.futureSeen <==>
                  exists r :: r in i.records && r.at - i.now > 300_000 && key == SeenKey(r.source, r.environmentId, r.at))
            && forall r :: r in i.records && r.at - i.now > 300_000 ==>
                 SeenKey(r.source, r.environmentId, r.at) in s.futureSeen
                 && s.futureSeen[SeenKey(r.source, r.environmentId, r.at)] == SeenTime(i, r)
  {
    hide Stops, RunningEnvironments, Superseded, Forgotten, IsActive;
    forall key
      ensures key in FutureKeys(i) <==> exists r :: r in i.records && r.at - i.now > 300_000 && key == SeenKey(r.source, r.environmentId, r.at)
    {
      if key in FutureKeys(i) {
        var r :| r in i.records && IsFuture(i.now, r) && KeyOf(r) == key;
      }
    }
    hide GraceUntil;
  }

  /** The end of a grace that goes on is not moved; one that begins, or was too far away, ends `graceMs` from now. */
  lemma GraceEndMeans(i: Input)
    requires Decide(i).grace
    ensures var last, until, now := i.state.lastTickAt, i.state.graceUntil, Decide(i).state.graceUntil;
            if last.Some? && i.now - last.value <= i.timing.gapMs && last.value - i.now <= i.timing.gapMs
               && until.Some? && until.value <= i.now + i.timing.graceMs
            then now == until else now == Some(i.now + i.timing.graceMs)
  {
    hide Stops, RunningEnvironments, Superseded, Forgotten, IsActive;
  }

  /** The engine counts as used exactly when some record was written at most its limit ago. */
  lemma ActiveMeans(i: Input)
    ensures Decide(i).active <==> exists r :: r in i.records && i.now - SeenTime(i, r) <= r.limitSeconds * 1000
  {
    hide Stops, RunningEnvironments, Superseded, Forgotten, NextState;
    if r :| r in i.records && i.now - SeenTime(i, r) <= r.limitSeconds * 1000 {
      var k :| 0 <= k < |i.records| && i.records[k] == r;
      assert Clamped(i)[k] == Seen(r, SeenTime(i, r));
      assert Clamped(i)[k] in Clamped(i);
    }
    if s :| s in Clamped(i) && WithinLimit(i.now, s) {
      SeenIs(i, s);
    }
  }

  // ---- The stops ----

  predicate IsUp(c: Container) { c.state == "running" || c.state == "restarting" || c.state == "paused" }

  /** The first running container of `a` is listed before every one of `b`. */
  ghost predicate IsListedBefore(cs: seq<Container>, a: string, b: string) {
    exists p :: 0 <= p < |cs| && IsUp(cs[p]) && cs[p].environmentId == a
                && forall q :: 0 <= q <= p && IsUp(cs[q]) ==> cs[q].environmentId != b
  }

  lemma {:induction false} RunningInOrder(cs: seq<Container>, j: nat, k: nat)
    requires j < k < |RunningEnvironments(cs)|
    ensures IsListedBefore(cs, RunningEnvironments(cs)[j], RunningEnvironments(cs)[k])
  {
    var init, last := cs[..|cs| - 1], cs[|cs| - 1];
    assert cs == init + [last];
    EnvironmentsGrow(init, last);
    var before, all := RunningEnvironments(init), RunningEnvironments(cs);
    if k < |before| {
      RunningInOrder(init, j, k);
      var p :| 0 <= p < |init| && IsUp(init[p]) && init[p].environmentId == all[j]
               && forall q :: 0 <= q <= p && IsUp(init[q]) ==> init[q].environmentId != all[k];
      assert cs[p] == init[p] && forall q :: 0 <= q <= p ==> cs[q] == init[q];
    } else {
      assert all == before + [last.environmentId] && before[j] in before;
      EnvironmentsUp(init);
      var p :| 0 <= p < |init| && IsUp(init[p]) && init[p].environmentId == all[j];
      assert cs[p] == init[p] && forall q :: 0 <= q <= p ==> cs[q] == init[q];
    }
  }

  lemma EnvironmentsGrow(cs: seq<Container>, c: Container)
    ensures RunningEnvironments(cs + [c]) ==
            if IsUp(c) && c.environmentId !in RunningEnvironments(cs) then RunningEnvironments(cs) + [c.environmentId] else RunningEnvironments(cs)
  {
    var up := Filter(RunningContainer(), cs);
    FilterSnoc(RunningContainer(), cs, c);
    MapSnoc(EnvironmentOf(), up, c);
    DistinctSnoc(Map(EnvironmentOf(), up), c.environmentId);
  }

  lemma EnvironmentsUp(cs: seq<Container>)
    ensures forall e :: e in RunningEnvironments(cs) <==> exists p :: 0 <= p < |cs| && IsUp(cs[p]) && cs[p].environmentId == e
  {
    var up := Filter(RunningContainer(), cs);
    var names := Map(EnvironmentOf(), up);
    forall e | e in names
      ensures exists p :: 0 <= p < |cs| && IsUp(cs[p]) && cs[p].environmentId == e
    {
      var k :| 0 <= k < |names| && names[k] == e;
      assert up[k] in up;
    }
    forall p | 0 <= p < |cs| && IsUp(cs[p])
      ensures cs[p].environmentId in names
    {
      assert cs[p] in up;
      var k :| 0 <= k < |up| && up[k] == cs[p];
      assert names[k] == cs[p].environmentId;
    }
  }

  /** The stops come in the order in which the first running containers of their environments are listed. */
  lemma StopsInOrder(i: Input, j: nat, k: nat)
    requires j < k < |Decide(i).stop|
    ensures IsListedBefore(i.containers, Decide(i).stop[j].environmentId, Decide(i).stop[k].environmentId)
  {
    var environments := RunningEnvironments(i.containers);
    assert Decide(i).stop == Stops(i, environments);
    hide Decide, RunningEnvironments, IsListedBefore;
    var a, b := StopPlaces(i, environments, j, k);
    RunningInOrder(i.containers, a, b);
  }

  lemma {:induction false} StopPlaces(i: Input, environments: seq<string>, j: nat, k: nat) returns (a: nat, b: nat)
    requires j < k < |Stops(i, environments)|
    ensures a < b < |environments|
    ensures environments[a] == Stops(i, environments)[j].environmentId && environments[b] == Stops(i, environments)[k].environmentId
  {
    hide VerdictOf, DevContainerFirst, RunningOf;
    var init, last := environments[..|environments| - 1], environments[|environments| - 1];
    var before := Stops(i, init);
    if k < |before| {
      a, b := StopPlaces(i, init, j, k);
    } else {
      StopsAre(i, init);
      assert before[j] in before;
      b := |environments| - 1;
      a :| 0 <= a < |init| && init[a] == before[j].environmentId;
    }
  }

  /** So do the environments that are kept, each once. */
  lemma KeptInOrder(i: Input, j: nat, k: nat)
    requires j < k < |Decide(i).kept|
    ensures IsListedBefore(i.containers, Decide(i).kept[j], Decide(i).kept[k]) && Decide(i).kept[j] != Decide(i).kept[k]
  {
    var environments := RunningEnvironments(i.containers);
    assert Decide(i).kept == Filter(IsKept(i), environments);
    RunningEnvironmentsAre(i);
    hide Decide, RunningEnvironments, IsListedBefore, IsKept;
    var a, b := FilterPlaces(IsKept(i), environments, j, k);
    RunningInOrder(i.containers, a, b);
  }

  lemma {:induction false} FilterPlaces<T(!new)>(p: T -> bool, s: seq<T>, j: nat, k: nat) returns (a: nat, b: nat)
    requires j < k < |Filter(p, s)|
    ensures a < b < |s| && s[a] == Filter(p, s)[j] && s[b] == Filter(p, s)[k]
  {
    var init := s[..|s| - 1];
    if k == |Filter(p, init)| {
      b := |s| - 1;
      assert Filter(p, s)[j] in Filter(p, init);
      a :| 0 <= a < |init| && init[a] == Filter(p, s)[j];
    } else {
      a, b := FilterPlaces(p, init, j, k);
    }
  }

  /** A stop has the containers of its environment as they are listed, those of the dev container before those of services; and for the
      log the silence and the limit of the record that decides. */
  lemma StopMeans(i: Input, s: Stop)
    requires s in Decide(i).stop
    ensures var e := s.environmentId;
            s.containers == Filter((c: Container) => IsUp(c) && c.environmentId == e && c.composeService == "", i.containers)
                          + Filter((c: Container) => IsUp(c) && c.environmentId == e && c.composeService != "", i.containers)
    ensures var rs := RecordsOf(i, s.environmentId);
            exists d :: Decides(i.now, rs, d) && s.silentMs == i.now - rs[d].at && s.limitSeconds == rs[d].written.limitSeconds
  {
    StopIs(i, s);
    DecisiveDecides(i.now, RecordsOf(i, s.environmentId));
    hide Decide, Decides, Decisive, DevContainerFirst, RecordsOf;
    StopContainersAre(i.containers, s.environmentId);
  }

  lemma StopIs(i: Input, s: Stop)
    requires s in Decide(i).stop
    ensures var rs := RecordsOf(i, s.environmentId);
            && rs != [] && s.containers == DevContainerFirst(RunningOf(i.containers, s.environmentId))
            && s.silentMs == i.now - Decisive(i.now, rs).at && s.limitSeconds == Decisive(i.now, rs).written.limitSeconds
  {
    var environments := RunningEnvironments(i.containers);
    assert Decide(i).stop == Stops(i, environments);
    StopsAre(i, environments);
    hide Decide, RunningEnvironments, Decisive, DevContainerFirst, RunningOf, RecordsOf, InGrace;
  }

  lemma StopContainersAre(cs: seq<Container>, e: string)
    ensures DevContainerFirst(RunningOf(cs, e)) ==
              Filter((c: Container) => IsUp(c) && c.environmentId == e && c.composeService == "", cs)
            + Filter((c: Container) => IsUp(c) && c.environmentId == e && c.composeService != "", cs)
  {
    hide DevContainerFirst, RunningOf;
    DevBeforeServices(RunningOf(cs, e));
    var dev, service := (c: Container) => c.composeService == "", (c: Container) => c.composeService != "";
    ThreeFilters(cs, e, dev, (c: Container) => IsUp(c) && c.environmentId == e && c.composeService == "");
    ThreeFilters(cs, e, service, (c: Container) => IsUp(c) && c.environmentId == e && c.composeService != "");
  }

  lemma {:induction false} ThreeFilters(cs: seq<Container>, e: string, p: Container -> bool, all: Container -> bool)
    requires forall c :: all(c) <==> IsUp(c) && c.environmentId == e && p(c)
    ensures Filter(p, RunningOf(cs, e)) == Filter(all, cs)
  {
    if cs != [] {
      var init, last := cs[..|cs| - 1], cs[|cs| - 1];
      assert cs == init + [last];
      ThreeFilters(init, e, p, all);
      FilterSnoc(RunningContainer(), init, last);
      FilterSnoc(ContainerOf(e), Filter(RunningContainer(), init), last);
      FilterSnoc(p, RunningOf(init, e), last);
      FilterSnoc(all, init, last);
    }
  }

  /** The sort by the service: those without one, then those with one, each in their order. */
  lemma {:induction false} DevBeforeServices(cs: seq<Container>)
    ensures DevContainerFirst(cs) == Filter((c: Container) => c.composeService == "", cs) + Filter((c: Container) => c.composeService != "", cs)
  {
    var dev, service := (c: Container) => c.composeService == "", (c: Container) => c.composeService != "";
    if cs != [] {
      var head, rest := cs[0], cs[1..];
      DevBeforeServices(rest);
      assert cs == [head] + rest;
      FilterCons(dev, head, rest);
      FilterCons(service, head, rest);
      InsertAmong(head, Filter(dev, rest), Filter(service, rest));
    }
  }

  lemma {:induction false} InsertAmong(c: Container, devs: seq<Container>, services: seq<Container>)
    requires (forall d :: d in devs ==> d.composeService == "") && forall s :: s in services ==> s.composeService != ""
    ensures Insert(ServiceAfterDev(), c, devs + services) ==
            if c.composeService == "" then [c] + devs + services else devs + ([c] + services)
  {
    hide Insert;
    var less, all := ServiceAfterDev(), devs + services;
    if c.composeService == "" || devs == [] {
      forall y | y in all
        ensures !less(y, c)
      {
        assert y in devs || y in services;
      }
      InsertFront(less, c, all);
      assert [c] + all == [c] + devs + services;
    } else {
      assert devs[0] in devs && forall d :: d in devs[1..] ==> d in devs;
      InsertAmong(c, devs[1..], services);
      InsertBehind(less, c, devs[0], devs[1..] + services);
      assert [devs[0]] + (devs[1..] + services) == all;
      assert [devs[0]] + (devs[1..] + ([c] + services)) == devs + ([c] + services);
    }
  }

  // ---- The records to remove ----

  /** No container of its environment exists, and its own time is more than seven days from now. */
  predicate IsStale(i: Input, r: Record) {
    && (forall c :: c in i.containers ==> c.environmentId != r.environmentId)
    && (i.now - r.at > 604_800_000 || r.at - i.now > 604_800_000)
  }

  /** It is stale, and so is every record of its environment that counts as no later one, of as late ones beside a keep all. */
  ghost predicate MayBeForgotten(i: Input, r: Record) {
    && IsStale(i, r)
    && forall other :: other in i.records && other.environmentId == r.environmentId && !IsStale(i, other) ==>
         SeenTime(i, other) > SeenTime(i, r) || (SeenTime(i, other) == SeenTime(i, r) && !r.keepRunning)
  }

  lemma ForgottenIs(i: Input, s: Seen)
    requires s in Clamped(i)
    ensures IsForgotten(i, s) <==> MayBeForgotten(i, s.written)
  {
    SeenIs(i, s);
    forall r: Record
      ensures IsStale(i, r) <==> IsOld(i, r)
    {
    }
    hide IsStale, IsOld;
    forall other | other in Clamped(i)
      ensures other.written in i.records && other.at == SeenTime(i, other.written)
    {
      SeenIs(i, other);
    }
    forall r | r in i.records
      ensures Seen(r, SeenTime(i, r)) in Clamped(i)
    {
      RecordIsSeen(i, r);
    }
    hide Clamped, SeenTime;
    if MayBeForgotten(i, s.written) {
      forall other | other in Clamped(i)
        ensures !Blocks(i, other, s)
      {
      }
    } else if IsOld(i, s.written) {
      var r :| r in i.records && r.environmentId == s.written.environmentId && !IsStale(i, r)
               && !(SeenTime(i, r) > SeenTime(i, s.written) || (SeenTime(i, r) == SeenTime(i, s.written) && !s.written.keepRunning));
      assert Blocks(i, Seen(r, SeenTime(i, r)), s);
    }
  }

  lemma RecordIsSeen(i: Input, r: Record)
    requires r in i.records
    ensures Seen(r, SeenTime(i, r)) in Clamped(i)
  {
    var k :| 0 <= k < |i.records| && i.records[k] == r;
    assert Clamped(i)[k] == Seen(r, SeenTime(i, r));
  }

  /** Exactly these records are to be forgotten, the oldest first by the time that counts, of as late ones a keep last. */
  lemma ForgetMeans(i: Input)
    ensures forall r :: r in Decide(i).forget <==> r in i.records && MayBeForgotten(i, r)
    ensures var forget := Decide(i).forget;
            forall j, k :: 0 <= j < k < |forget| ==>
              || SeenTime(i, forget[j]) < SeenTime(i, forget[k])
              || (SeenTime(i, forget[j]) == SeenTime(i, forget[k]) && (forget[j].keepRunning ==> forget[k].keepRunning))
  {
    var all := Forgotten(i);
    SortMembers(RemovedBefore(), Filter(ForgetTest(i), Clamped(i)));
    RemovalOrder();
    SortSorted(RemovedBefore(), Filter(ForgetTest(i), Clamped(i)));
    assert Decide(i).forget == Map(Written(), all);
    hide Decide, StableSort;
    forall k | 0 <= k < |all|
      ensures all[k] in Clamped(i) && all[k].at == SeenTime(i, all[k].written) && all[k].written in i.records && MayBeForgotten(i, all[k].written)
    {
      assert all[k] in all;
      ForgottenIs(i, all[k]);
      SeenIs(i, all[k]);
    }
    hide Clamped, MayBeForgotten, SeenTime;
    forall r | r in i.records && MayBeForgotten(i, r)
      ensures r in Decide(i).forget
    {
      RecordIsSeen(i, r);
      ForgottenIs(i, Seen(r, SeenTime(i, r)));
      WrittenIn(all, Seen(r, SeenTime(i, r)));
    }
    hide Forgotten;
    forall j, k | 0 <= j < k < |all|
      ensures all[j].at < all[k].at || (all[j].at == all[k].at && (all[j].written.keepRunning ==> all[k].written.keepRunning))
    {
      assert !RemovedBefore()(all[k], all[j]);
    }
  }

  /** It does not keep, counts as more than seven days old, a later one of its environment exists, and no keep of another computer that
      was not written after it; and it is not to be forgotten. */
  ghost predicate IsReplaced(i: Input, r: Record) {
    && !MayBeForgotten(i, r) && !r.keepRunning && i.now - SeenTime(i, r) > 604_800_000
    && (forall other :: other in i.records && other.environmentId == r.environmentId && other.keepRunning && other.source != r.source ==>
          other.at > r.at)
    && exists other :: other in i.records && other.environmentId == r.environmentId && SeenTime(i, other) > SeenTime(i, r)
  }

  lemma SupersededIs(i: Input, s: Seen)
    requires s in Clamped(i)
    ensures IsSuperseded(i, s) <==> IsReplaced(i, s.written)
  {
    SeenIs(i, s);
    ForgottenIs(i, s);
    var e := s.written.environmentId;
    forall other | other in RecordsOf(i, e)
      ensures other.written in i.records && other.written.environmentId == e && other.at == SeenTime(i, other.written)
    {
      SeenIs(i, other);
    }
    forall r | r in i.records && r.environmentId == e
      ensures Seen(r, SeenTime(i, r)) in RecordsOf(i, e)
    {
      RecordIsSeen(i, r);
    }
    hide RecordsOf, Clamped, SeenTime, IsForgotten, MayBeForgotten;
    if r :| r in i.records && r.environmentId == e && SeenTime(i, r) > SeenTime(i, s.written) {
      assert Seen(r, SeenTime(i, r)) in RecordsOf(i, e);
    }
  }

  /** Exactly these records are superseded, in the order of the records. */
  lemma SupersededMeans(i: Input, replaced: Record -> bool)
    requires forall r :: replaced(r) <==> IsReplaced(i, r)
    ensures Decide(i).superseded == Filter(replaced, i.records)
  {
    hide IsReplaced, IsSuperseded, See, Stops, RunningEnvironments, Forgotten, NextState, IsActive;
    SupersededOf(i, replaced, i.records);
    assert Clamped(i) == Map(See(i.now, i.state), i.records);
  }

  lemma {:induction false} SupersededOf(i: Input, replaced: Record -> bool, records: seq<Record>)
    requires forall r :: replaced(r) <==> IsReplaced(i, r)
    requires forall r :: r in records ==> r in i.records
    ensures Map(Written(), Filter(SupersededTest(i), Map(See(i.now, i.state), records))) == Filter(replaced, records)
  {
    hide IsReplaced, IsSuperseded, Clamped;
    if records != [] {
      var init, last := records[..|records| - 1], records[|records| - 1];
      assert records == init + [last];
      SupersededOf(i, replaced, init);
      var see, mine := See(i.now, i.state), Map(See(i.now, i.state), init);
      MapSnoc(see, init, last);
      FilterSnoc(SupersededTest(i), mine, see(last));
      FilterSnoc(replaced, init, last);
      MapSnoc(Written(), Filter(SupersededTest(i), mine), see(last));
      SeeIsClamped(i, last);
      SupersededIs(i, see(last));
    }
  }

  lemma SeeIsClamped(i: Input, r: Record)
    requires r in i.records
    ensures See(i.now, i.state)(r) in Clamped(i) && See(i.now, i.state)(r).written == r
  {
    var k :| 0 <= k < |i.records| && i.records[k] == r;
    assert Clamped(i)[k] == See(i.now, i.state)(r);
  }
}
