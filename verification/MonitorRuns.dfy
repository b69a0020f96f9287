/** The rules of the Session Monitor over whole runs: the state of each tick is the one that the tick before it left. */
module MonitorRuns {
  import opened Seqs
  import opened MonitorRules
  import opened MonitorDecision
  import opened MonitorRemovals

  datatype Tick = Tick(now: int, containers: seq<Container>, records: seq<Record>)

  datatype Run = Run(timing: Timing, ticks: seq<Tick>)

  function StateBefore(run: Run, k: nat): State
    requires k <= |run.ticks|
    decreases k, 0
  {
    if k == 0 then INITIAL_STATE else Decide(InputAt(run, k - 1)).state
  }

  function InputAt(run: Run, k: nat): Input
    requires k < |run.ticks|
    decreases k, 1
  {
    Input(run.ticks[k].now, run.ticks[k].containers, run.ticks[k].records, StateBefore(run, k), run.timing)
  }

  ghost predicate ClockGoesOn(run: Run) {
    forall j, k :: 0 <= j < k < |run.ticks| ==> run.ticks[j].now <= run.ticks[k].now
  }

  // ---- The gap rule ----

  lemma {:induction false} GraceLasts(run: Run, g: nat, j: nat)
    requires ClockGoesOn(run) && g <= j < |run.ticks|
    requires IsGap(InputAt(run, g)) && run.ticks[j].now < run.ticks[g].now + run.timing.graceMs
    ensures InGrace(InputAt(run, j))
    ensures GraceUntil(InputAt(run, j)).value >= run.ticks[g].now + run.timing.graceMs
  {
    hide Stops, Superseded, Forgotten, IsActive, RunningEnvironments, FutureKeys;
    if g < j {
      GraceLasts(run, g, j - 1);
      assert StateBefore(run, j) == NextState(InputAt(run, j - 1));
    }
  }

  lemma {:induction false} NoStopsInGrace(i: Input, environments: seq<string>)
    requires InGrace(i)
    ensures Stops(i, environments) == []
  {
    if environments != [] {
      NoStopsInGrace(i, environments[..|environments| - 1]);
    }
  }

  /** With a clock that never goes back, no tick stops anything within `graceMs` of the first tick (a gap as well) or of any
      tick after a gap. */
  lemma NothingStopsAfterAGap(run: Run, g: nat, j: nat)
    requires ClockGoesOn(run) && g <= j < |run.ticks|
    requires g == 0 || Abs(run.ticks[g].now - run.ticks[g - 1].now) > run.timing.gapMs
    requires run.ticks[j].now < run.ticks[g].now + run.timing.graceMs
    ensures Decide(InputAt(run, j)).stop == [] && Decide(InputAt(run, j)).grace
  {
    hide Stops, Superseded, Forgotten, IsActive, RunningEnvironments, FutureKeys;
    if g > 0 {
      assert StateBefore(run, g) == NextState(InputAt(run, g - 1));
    }
    GraceLasts(run, g, j);
    NoStopsInGrace(InputAt(run, j), RunningEnvironments(run.ticks[j].containers));
  }

  /** Whatever the clock does, the remembered end of the grace is at most `graceMs` after the last tick. */
  lemma GraceIsBounded(run: Run, k: nat)
    requires 0 < k <= |run.ticks|
    ensures var s := StateBefore(run, k);
            s.lastTickAt == Some(run.ticks[k - 1].now)
            && (s.graceUntil.Some? ==> run.ticks[k - 1].now < s.graceUntil.value <= run.ticks[k - 1].now + run.timing.graceMs)
  {
    hide Stops, Superseded, Forgotten, IsActive, RunningEnvironments, FutureKeys;
    assert StateBefore(run, k) == NextState(InputAt(run, k - 1));
  }

  /** No gap from the tick after `i` up to the tick `j`. */
  ghost predicate NoGap(run: Run, i: nat, j: nat)
    requires j < |run.ticks|
  {
    forall k :: i < k <= j ==> Abs(run.ticks[k].now - run.ticks[k - 1].now) <= run.timing.gapMs
  }

  lemma {:induction false} GraceShrinks(run: Run, i: nat, j: nat)
    requires i <= j < |run.ticks| && NoGap(run, i, j)
    ensures var u := GraceUntil(InputAt(run, j)); u.Some? ==> u.value <= run.ticks[i].now + run.timing.graceMs
  {
    hide Stops, Superseded, Forgotten, IsActive, RunningEnvironments, FutureKeys;
    if j == i + 1 {
      GraceIsBounded(run, j);
    } else if i < j {
      GraceShrinks(run, i, j - 1);
      assert StateBefore(run, j) == NextState(InputAt(run, j - 1));
    }
  }

  /** Without a gap, the grace ends at the first tick at least `graceMs` after `i`, and does not come back before the next
      gap, even when the clock goes back in between. */
  lemma {:induction false} GraceEnds(run: Run, i: nat, m: nat, j: nat)
    requires i <= m <= j < |run.ticks| && NoGap(run, i, j)
    requires run.ticks[m].now >= run.ticks[i].now + run.timing.graceMs
    ensures !InGrace(InputAt(run, j))
    decreases j
  {
    hide Stops, Superseded, Forgotten, IsActive, RunningEnvironments, FutureKeys;
    if m == j {
      GraceShrinks(run, i, m);
    } else {
      GraceEnds(run, i, m, j - 1);
      assert StateBefore(run, j) == NextState(InputAt(run, j - 1));
    }
  }

  // ---- Records whose time is in the future ----

  /** `r` is read at every tick from `f` to `j`, and its written time stays in the future. */
  ghost predicate StaysInFuture(run: Run, f: nat, j: nat, r: Record)
    requires j < |run.ticks|
  {
    forall k :: f <= k <= j ==> r in run.ticks[k].records && IsFuture(run.ticks[k].now, r)
  }

  lemma NeverFarAhead(i: Input, e: string)
    ensures forall s :: s in RecordsOf(i, e) ==> s.at <= i.now + FUTURE_RECORD_TOLERANCE_MS && s.at <= s.written.at
  {
  }

  lemma {:induction false} FutureCountsFromFirstSight(run: Run, f: nat, j: nat, r: Record)
    requires ClockGoesOn(run) && f <= j < |run.ticks| && StaysInFuture(run, f, j, r)
    requires KeyOf(r) !in StateBefore(run, f).futureSeen
    ensures See(run.ticks[j].now, StateBefore(run, j))(r).at == run.ticks[f].now
  {
    hide Stops, Superseded, Forgotten, IsActive, RunningEnvironments;
    if f < j {
      FutureCountsFromFirstSight(run, f, j - 1, r);
      var before := InputAt(run, j - 1);
      assert StateBefore(run, j) == NextState(before);
      assert KeyOf(r) in FutureKeys(before);
    }
  }

  /** An environment whose only record lies in the future and does not keep is stopped, outside the grace, exactly from the
      first moment later than its first sight plus its limit. */
  lemma FutureRecordKeepsNothingForEver(run: Run, f: nat, j: nat, r: Record)
    requires ClockGoesOn(run) && f <= j < |run.ticks| && StaysInFuture(run, f, j, r)
    requires KeyOf(r) !in StateBefore(run, f).futureSeen && !r.keepRunning
    requires forall other :: other in run.ticks[j].records && other.environmentId == r.environmentId ==> other == r
    requires HasRunning(InputAt(run, j), r.environmentId) && !InGrace(InputAt(run, j))
    ensures Stopped(InputAt(run, j), r.environmentId) <==> run.ticks[j].now > run.ticks[f].now + r.limitSeconds * 1000
  {
    FutureCountsFromFirstSight(run, f, j, r);
    var i, e := InputAt(run, j), r.environmentId;
    OnlyRecordDecides(i, r);
    StoppedByVerdict(i, e);
    hide Stops, Superseded, Forgotten, IsActive, RunningEnvironments, RecordsOf, Decisive, Stopped, HasRunning;
  }

  lemma OnlyRecordDecides(i: Input, r: Record)
    requires r in i.records
    requires forall other :: other in i.records && other.environmentId == r.environmentId ==> other == r
    ensures var rs := RecordsOf(i, r.environmentId); rs != [] && Decisive(i.now, rs) == See(i.now, i.state)(r)
  {
    var rs := RecordsOf(i, r.environmentId);
    var seen := See(i.now, i.state)(r);
    var k :| 0 <= k < |i.records| && i.records[k] == r;
    assert Clamped(i)[k] == seen;
    assert seen in rs;
    NewestIsGreatest(rs);
    FilterNone(LiveOther(i.now, r.source), rs);
  }
}
