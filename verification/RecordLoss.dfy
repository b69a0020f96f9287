/** When an environment with a container may lose all its records: a record whose written time is far in the future counts from its
    first sight, and from its written time once that has come, so it is the older one for one tick and the newer one for the next
    (src/remoteMonitor/rules.ts, src/remoteMonitor/main.ts). */
module RecordLoss {
  import opened Seqs
  import opened MonitorRules
  import opened MonitorRemovals
  import opened HeartbeatRecords
  import opened RemovalRuns
  import opened RemovalSafety
  import opened NewestRuns
  import opened PlainRuns
  import MonitorRuns

  ghost predicate NoneOf(store: Store, e: string) { forall r :: !IsOf(store, e, r) }

  /** What can be told at the start, with the files and the clock: no record of `e` keeps, one is ahead of the clock by more than the
      tolerance and seven days, and another one is ahead of the clock but not as far. */
  ghost predicate IsAtRisk(store: Store, e: string, start: int) {
    && (forall r :: IsOf(store, e, r) ==> !r.keepRunning)
    && exists x, y :: IsOf(store, e, x) && IsOf(store, e, y) && start < y.at < x.at
                      && x.at > start + FUTURE_RECORD_TOLERANCE_MS + RECORD_MAX_AGE_MS + 1
  }

  // ---- What a loss needs ----

  /** Only records of the start are stored and read. */
  ghost predicate IsOfStart(s: Remover, store0: Store, e: string) {
    && (forall r :: IsOf(s.store, e, r) ==> IsStored(store0, r))
    && forall r :: r in s.reading && r.environmentId == e ==> IsStored(store0, r)
  }

  /** First sights are not before the start of the clock. */
  ghost predicate SeenSince(state: State, start: int) { forall key :: key in state.futureSeen ==> start <= state.futureSeen[key] }

  ghost predicate IsAround(s: Remover, e: string, r: Record) { r.environmentId == e && (IsStored(s.store, r) || r in s.reading) }

  ghost predicate SameSight(state: State, a: Record, b: Record) {
    && (KeyOf(a) in state.futureSeen <==> KeyOf(b) in state.futureSeen)
    && (KeyOf(a) in state.futureSeen ==> state.futureSeen[KeyOf(a)] == state.futureSeen[KeyOf(b)])
  }

  /** Records of the same written time were first seen at the same tick. */
  ghost predicate SeenTogether(s: Remover, e: string) {
    forall a, b :: IsAround(s, e, a) && IsAround(s, e, b) && a.at == b.at ==> SameSight(s.state, a, b)
  }

  lemma SightsAreKept(i: Input, a: Record)
    requires a in i.records
    ensures KeyOf(a) in NextState(i).futureSeen <==> IsFuture(i.now, a)
    ensures IsFuture(i.now, a) ==> NextState(i).futureSeen[KeyOf(a)] == FirstSeen(i.now, i.state, KeyOf(a))
  {
    if key :| key == KeyOf(a) && key in FutureKeys(i) {
      var r :| r in i.records && IsFuture(i.now, r) && KeyOf(r) == key;
    }
    hide InGrace, GraceUntil;
  }

  ghost predicate LossInv(s: Remover, store0: Store, e: string, start: int) {
    IsOfStart(s, store0, e) && SeenSince(s.state, start) && SeenTogether(s, e)
  }

  lemma TickKeeps(s: Remover, ev: Event, store0: Store, e: string, start: int)
    requires LossInv(s, store0, e, start) && Enabled(s, ev) && IsStepOf(Contained(e, start), s, ev) && ev.DecideTick?
    ensures LossInv(Next(s, ev), store0, e, start)
  {
    var i, after := InputOf(s, ev.now, ev.containers), Next(s, ev);
    assert after.state == NextState(i) && after.store == s.store && after.reading == [];
    hide Decide, Next, IsStored;
    forall a, b | IsAround(after, e, a) && IsAround(after, e, b) && a.at == b.at
      ensures SameSight(after.state, a, b)
    {
      assert IsOf(s.store, e, a) && IsOf(s.store, e, b);
      assert IsAround(s, e, a) && IsAround(s, e, b);
      SightsAreKept(i, a);
      SightsAreKept(i, b);
    }
    hide InGrace, GraceUntil;
  }

  lemma OtherStepKeeps(s: Remover, ev: Event, store0: Store, e: string, start: int)
    requires LossInv(s, store0, e, start) && Enabled(s, ev) && IsStepOf(Contained(e, start), s, ev) && !ev.DecideTick?
    ensures LossInv(Next(s, ev), store0, e, start)
  {
    var after := Next(s, ev);
    StoreShrinks(s, ev, e);
    assert forall r :: r in after.reading ==> r in s.reading || IsStored(s.store, r);
    assert after.state == s.state || after.state == INITIAL_STATE;
    hide Next, Enabled, IsStored;
    assert forall r :: IsAround(after, e, r) ==> IsAround(s, e, r);
  }

  lemma {:induction false} LossInvHolds(t: Trace, k: nat, store0: Store, e: string, start: int)
    requires IsRunOf(Contained(e, start), t, store0) && k <= |t.events|
    ensures LossInv(t.states[k], store0, e, start)
  {
    if k > 0 {
      LossInvHolds(t, k - 1, store0, e, start);
      var s, ev := t.states[k - 1], t.events[k - 1];
      assert Enabled(s, ev) && t.states[k] == Next(s, ev) && IsStepOf(Contained(e, start), s, ev);
      hide LossInv, Enabled, Next, IsStepOf, IsRunOf;
      if ev.DecideTick? { TickKeeps(s, ev, store0, e, start); } else { OtherStepKeeps(s, ev, store0, e, start); }
    }
  }

  /** The tick at `l` names the record as superseded. */
  ghost predicate Supersedes(t: Trace, l: nat, r: Record)
    requires IsTrace(t) && l < |t.events|
  {
    t.events[l].DecideTick? && r in InputAt(t, l).records && IsSuperseded(InputAt(t, l), See(InputAt(t, l).now, InputAt(t, l).state)(r))
  }

  lemma RemovalIsSuperseded(i: Input, x: Removal)
    requires x in Removals(i) && Present(i, x.record.environmentId)
    ensures x.record in i.records && IsSuperseded(i, See(i.now, i.state)(x.record))
  {
    var k :| 0 <= k < |Removals(i)| && Removals(i)[k] == x;
    RemovalIs(i, k);
    assert !x.forget;
    hide Forgotten, Superseded, RemovalsOf, Clamped, Present, IsSuperseded;
    SeenIsOfRecord(i, Superseded(i)[k - |Forgotten(i)|]);
  }

  lemma TickHasContainer(t: Trace, l: nat, store0: Store, e: string, start: int)
    requires IsRunOf(Contained(e, start), t, store0) && l < |t.events| && t.events[l].DecideTick?
    ensures Present(InputAt(t, l), e) && start <= InputAt(t, l).now
    ensures InputAt(t, l).records == t.states[l].reading && InputAt(t, l).state == t.states[l].state
  {
    assert IsStepOf(Contained(e, start), t.states[l], t.events[l]);
  }

  lemma StepOfRun(t: Trace, k: nat, w: World, store0: Store)
    requires IsRunOf(w, t, store0) && 0 < k <= |t.events|
    ensures |t.states| == |t.events| + 1
    ensures var s, ev := t.states[k - 1], t.events[k - 1];
            && Enabled(s, ev) && t.states[k] == Next(s, ev) && IsStepOf(w, s, ev)
            && forall x :: Takes(s, ev, x) ==> IsRemovalOf(t, k, x)
  {
    var s, ev := t.states[k - 1], t.events[k - 1];
    assert IsStepOf(w, s, ev);
    EverythingIsTraced(t, k - 1);
    TracedLater(t, k - 1);
    hide IsStepOf, Enabled, Next, Removals, Takes, HasNext, IsHeld;
    HowRemovalsPend(s, ev);
  }

  /** A record of the start that is not stored any more was superseded at a tick. */
  lemma {:induction false} GoneIsSuperseded(t: Trace, k: nat, store0: Store, e: string, start: int, r: Record) returns (l: nat)
    requires IsRunOf(Contained(e, start), t, store0) && k <= |t.events| && IsOf(store0, e, r) && !IsStored(t.states[k].store, r)
    ensures l < k && Supersedes(t, l, r)
  {
    assert k > 0;
    StepOfRun(t, k, Contained(e, start), store0);
    hide IsRunOf, IsTrace, Enabled, Next, Takes, Supersedes, IsRemovalOf;
    var s, ev, key := t.states[k - 1], t.events[k - 1], KeyOfRecord(r);
    if !IsStored(s.store, r) {
      l := GoneIsSuperseded(t, k - 1, store0, e, start, r);
    } else {
      if !(exists x :: Takes(s, ev, x) && KeyOfRecord(x.record) == key) {
        FileStays(s, ev, key);
        assert false;
      }
      var x :| Takes(s, ev, x) && KeyOfRecord(x.record) == key;
      l := NamesIt(t, k, store0, e, start, r, x);
    }
  }

  lemma NamesIt(t: Trace, k: nat, store0: Store, e: string, start: int, r: Record, x: Removal) returns (l: nat)
    requires IsRunOf(Contained(e, start), t, store0) && k <= |t.events| && IsOf(store0, e, r)
    requires IsRemovalOf(t, k, x) && KeyOfRecord(x.record) == KeyOfRecord(r)
    ensures l < k && Supersedes(t, l, r)
  {
    l := TickOf(t, k, x);
    TickHasContainer(t, l, store0, e, start);
    LossInvHolds(t, l, store0, e, start);
    hide IsRunOf, IsTrace, Removals, Present, IsSuperseded;
    RemovalIsSuperseded(InputAt(t, l), x);
    assert IsStored(store0, x.record);
  }

  /** The records that a tick names as superseded: which of the two was far ahead of the clock. */
  lemma SupersedingNeeds(t: Trace, l: nat, store0: Store, e: string, start: int, x: Record) returns (y: Record)
    requires IsRunOf(Contained(e, start), t, store0) && l < |t.events| && IsOf(store0, e, x) && Supersedes(t, l, x)
    requires forall r :: IsOf(store0, e, r) ==> r.at <= x.at
    ensures !x.keepRunning && IsOf(store0, e, y) && start < y.at < x.at
    ensures x.at > start + FUTURE_RECORD_TOLERANCE_MS + RECORD_MAX_AGE_MS + 1
  {
    var i := InputAt(t, l);
    TickHasContainer(t, l, store0, e, start);
    LossInvHolds(t, l, store0, e, start);
    var s := See(i.now, i.state)(x);
    var newer :| newer in RecordsOf(i, e) && newer.at > s.at;
    MonitorRuns.NeverFarAhead(i, e);
    SeenIsOfRecord(i, newer);
    y := newer.written;
    assert IsAround(t.states[l], e, x) && IsAround(t.states[l], e, y);
    hide IsRunOf, IsTrace, RecordsOf, Clamped, IsStored;
    assert IsOf(store0, e, y);
    assert x.at == y.at ==> SameSight(i.state, x, y);
  }

  lemma LossNeeds(t: Trace, k: nat, store0: Store, e: string, start: int, some: Record)
    requires IsRunOf(Contained(e, start), t, store0) && k <= |t.events| && NoneOf(t.states[k].store, e) && IsOf(store0, e, some)
    ensures IsAtRisk(store0, e, start)
  {
    forall r | IsOf(store0, e, r)
      ensures !r.keepRunning
    {
      assert !IsOf(t.states[k].store, e, r);
      var l := GoneIsSuperseded(t, k, store0, e, start, r);
    }
    SomeNewest(store0, e, WrittenAt(), some);
    var x :| IsNewest(store0, e, WrittenAt(), x);
    assert !IsOf(t.states[k].store, e, x);
    assert forall r :: IsOf(store0, e, r) ==> !Outranks(Ranked(WrittenAt(), r), Ranked(WrittenAt(), x));
    var l := GoneIsSuperseded(t, k, store0, e, start, x);
    hide IsRunOf, Supersedes, NoneOf, IsOf, IsTrace;
    var y := SupersedingNeeds(t, l, store0, e, start, x);
  }

  // ---- A run that loses them ----

  function UpOf(e: string): seq<Container> { [Container("", "running", "", e, "")] }

  /** Of an environment with a container and without keeps, a tick names a record as superseded when it is old and another one is seen
      as newer. */
  lemma IsNamedSuperseded(i: Input, r: Record, newer: Record)
    requires r in i.records && newer in i.records && r.environmentId == newer.environmentId && Present(i, r.environmentId)
    requires forall other :: other in i.records && other.environmentId == r.environmentId ==> !other.keepRunning
    requires var s := See(i.now, i.state)(r);
             i.now - s.at > RECORD_MAX_AGE_MS && s.at < See(i.now, i.state)(newer).at
    ensures Removal(r, false) in Removals(i)
  {
    ReadIsSeen(i, r);
    ReadIsSeen(i, newer);
    var s := See(i.now, i.state)(r);
    assert See(i.now, i.state)(newer) in RecordsOf(i, r.environmentId);
    assert IsSuperseded(i, s);
    hide Clamped, RecordsOf, IsSuperseded;
    assert s in Superseded(i);
    WrittenIn(Superseded(i), s);
    NamesSuperseded(i, r);
  }

  lemma NamesSuperseded(i: Input, r: Record)
    requires r in Decide(i).superseded
    ensures Removal(r, false) in Removals(i)
  {
    hide Decide;
    var d := Decide(i);
    var k :| 0 <= k < |d.superseded| && d.superseded[k] == r;
    assert Removals(i)[|d.forget| + k] == Removal(r, false);
  }

  /** With a container, a record whose seen time is not before now is not removed. */
  lemma YoungIsNotNamed(i: Input, r: Record, m: nat)
    requires KeysDiffer(i.records) && r in i.records && Present(i, r.environmentId) && m < |Removals(i)|
    requires See(i.now, i.state)(r).at >= i.now
    ensures KeyOfRecord(Removals(i)[m].record) != KeyOfRecord(r)
  {
    var x := Removals(i)[m];
    if x.record.environmentId == r.environmentId {
      assert x in Removals(i);
      RemovalIsSuperseded(i, x);
      hide RemovalsOf, Present;
      assert x.record != r;
      var j :| 0 <= j < |i.records| && i.records[j] == x.record;
      var k :| 0 <= k < |i.records| && i.records[k] == r;
    }
  }

  /** Two records and the times of two ticks after the first one: `x` is the latest, `y` another one; at the second tick `x` is
      still in the future and older, as seen, than `y`; at the third its time has come and every other record is old. */
  ghost predicate IsSchedule(store: Store, e: string, start: int, x: Record, y: Record, second: int, third: int) {
    && IsOf(store, e, x) && IsOf(store, e, y) && start < y.at < x.at
    && (forall r :: IsOf(store, e, r) ==> !r.keepRunning && r.at <= x.at)
    && start + RECORD_MAX_AGE_MS < second < x.at - FUTURE_RECORD_TOLERANCE_MS && y.at <= second + FUTURE_RECORD_TOLERANCE_MS
    && x.at - FUTURE_RECORD_TOLERANCE_MS <= third
    && forall r :: IsOf(store, e, r) && r.at < x.at ==> third - r.at > RECORD_MAX_AGE_MS
  }

  ghost predicate IsPart(store: Store, part: Store) { forall key :: key in part ==> key in store && part[key] == store[key] }

  /** After the first tick: its pass left the records ahead of the clock, and the latest ones are remembered from it. */
  ghost predicate IsAfterFirst(s: Remover, store: Store, e: string, start: int, x: Record, y: Record) {
    && s == Remover(s.store, [], s.state, Timing(0, 0), None, None, {})
    && IsPart(store, s.store) && IsStored(s.store, x) && IsStored(s.store, y)
    && forall r :: IsOf(s.store, e, r) && r.at == x.at ==> KeyOf(r) in s.state.futureSeen && s.state.futureSeen[KeyOf(r)] == start
  }

  lemma FirstPassLeaves(i: Input, before: Remover, after: Store, r: Record)
    requires KeysDiffer(i.records) && r in i.records && Present(i, r.environmentId) && i.state == INITIAL_STATE && i.now < r.at
    requires before.pass == Some(Pass(i, 0, {})) && IsLeftByPass(before, after) && IsStored(before.store, r)
    ensures IsStored(after, r)
  {
    hide Removals, Present;
    forall m | 0 <= m < |Removals(i)|
      ensures KeyOfRecord(Removals(i)[m].record) != KeyOfRecord(r)
    {
      YoungIsNotNamed(i, r, m);
    }
  }

  lemma UpIsPresent(i: Input, e: string)
    requires i.containers == UpOf(e)
    ensures Present(i, e) && exists c :: c in UpOf(e) && c.environmentId == e
  {
    assert UpOf(e)[0] in i.containers;
  }

  lemma FirstTick(store: Store, e: string, start: int, x: Record, y: Record, second: int, third: int) returns (t: Trace)
    requires IsSchedule(store, e, start, x, y, second, third)
    ensures IsPlainRunOf(Contained(e, start), t, store) && t.states != [] && Clock(t.events) == [start]
    ensures IsAfterFirst(Last(t), store, e, start, x, y)
  {
    var w := Contained(e, start);
    var rs := Listing(store, {});
    t := Start(w, store);
    var i := Input(start, UpOf(e), rs, INITIAL_STATE, Timing(0, 0));
    UpIsPresent(i, e);
    assert IsTick(w, Last(t).(reading := rs), start, UpOf(e));
    hide IsPlainRunOf, IsTick, Decide, Removals, Present;
    t := Tick(w, t, store, rs, start, UpOf(e));
    t := EndsTick(w, t, store);
    var before := Last(t);
    t := RunOut(w, t, store);
    FirstPassLeaves(i, before, Last(t).store, x);
    FirstPassLeaves(i, before, Last(t).store, y);
    LeftIsPart(before, Last(t).store);
    forall r | IsOf(Last(t).store, e, r) && r.at == x.at
      ensures KeyOf(r) in Last(t).state.futureSeen && Last(t).state.futureSeen[KeyOf(r)] == start
    {
      FirstSight(i, r);
    }
  }

  lemma LeftIsPart(before: Remover, after: Store)
    requires before.pass.Some? && IsLeftByPass(before, after)
    ensures IsPart(before.store, after) && forall r :: IsStored(after, r) ==> IsStored(before.store, r)
  {
    hide Removals;
  }

  lemma FirstSight(i: Input, r: Record)
    requires r in i.records && IsFuture(i.now, r) && i.state == INITIAL_STATE
    ensures var state := Decide(i).state; KeyOf(r) in state.futureSeen && state.futureSeen[KeyOf(r)] == i.now
  {
    SightsAreKept(i, r);
    hide Stops, Superseded, Forgotten, IsActive, RunningEnvironments;
  }

  /** Of an environment with a container, the latest records are superseded at the second tick, and all others at the third. */
  lemma SecondTickNames(i: Input, store: Store, e: string, start: int, x: Record, y: Record, second: int, third: int, r: Record)
    requires IsSchedule(store, e, start, x, y, second, third)
    requires i.now == second && i.containers == UpOf(e) && y in i.records && r in i.records && IsOf(store, e, r) && r.at == x.at
    requires forall other :: other in i.records ==> IsStored(store, other)
    requires KeyOf(r) in i.state.futureSeen && i.state.futureSeen[KeyOf(r)] == start
    ensures Removal(r, false) in Removals(i)
  {
    UpIsPresent(i, e);
    hide Removals, Present, IsStored;
    IsNamedSuperseded(i, r, y);
  }

  lemma ThirdTickNames(i: Input, store: Store, e: string, start: int, x: Record, y: Record, second: int, third: int, r: Record)
    requires IsSchedule(store, e, start, x, y, second, third)
    requires i.now == third && i.containers == UpOf(e) && x in i.records && r in i.records && IsOf(store, e, r) && r.at < x.at
    requires forall other :: other in i.records ==> IsStored(store, other)
    ensures Removal(r, false) in Removals(i)
  {
    UpIsPresent(i, e);
    hide Removals, Present, IsStored;
    IsNamedSuperseded(i, r, x);
  }

  lemma PartIsStored(store: Store, part: Store)
    requires IsPart(store, part)
    ensures forall r :: IsStored(part, r) ==> IsStored(store, r)
  {
  }

  lemma TakenByPass(i: Input, s: Remover, after: Store, r: Record)
    requires s.pass == Some(Pass(i, 0, {})) && IsLeftByPass(s, after) && Removal(r, false) in Removals(i)
    ensures !IsStored(after, r)
  {
    hide Removals;
    var removals := Removals(i);
    var m :| 0 <= m < |removals| && removals[m] == Removal(r, false);
    assert !Holds(after, removals[m].record);
  }

  /** The second tick starts its pass; while this pass has not removed anything yet, the third tick reads its files. */
  lemma SecondAndThirdTick(t: Trace, store: Store, e: string, start: int, x: Record, y: Record, second: int, third: int)
    returns (u: Trace)
    requires IsSchedule(store, e, start, x, y, second, third)
    requires IsPlainRunOf(Contained(e, start), t, store) && t.states != [] && IsAfterFirst(Last(t), store, e, start, x, y)
    ensures IsPlainRunOf(Contained(e, start), u, store) && u.states != [] && Clock(u.events) == Clock(t.events) + [second, third]
    ensures NoneOf(Last(u).store, e)
  {
    hide IsPlainRunOf, IsTick, Decide, Removals, IsLeftByPass, IsClean, NoneHolds, IsStored;
    var w, s := Contained(e, start), Last(t);
    var rs := Listing(s.store, {});
    PartIsStored(store, s.store);
    var i2 := Input(second, UpOf(e), rs, s.state, s.timing);
    UpIsPresent(i2, e);
    ReadsAll(w, s, rs, second);
    u := Tick(w, t, store, rs, second, UpOf(e));
    u := EndsTick(w, u, store);
    var i3 := Input(third, UpOf(e), rs, Last(u).state, s.timing);
    var before2 := Last(u);
    ReadsAll(w, before2, rs, third);
    u := Tick(w, u, store, rs, third, UpOf(e));
    var pass2 := Last(u);
    u := RunOut(w, u, store);
    u := EndsTick(w, u, store);
    var pass3 := Last(u);
    u := RunOut(w, u, store);
    LeftIsPart(pass2, pass3.store);
    LeftIsPart(pass3, Last(u).store);
    forall r
      ensures !IsOf(Last(u).store, e, r)
    {
      if IsOf(Last(u).store, e, r) {
        assert IsOf(s.store, e, r) && IsOf(store, e, r);
        if r.at == x.at {
          SecondTickNames(i2, store, e, start, x, y, second, third, r);
          TakenByPass(i2, pass2, pass3.store, r);
        } else {
          ThirdTickNames(i3, store, e, start, x, y, second, third, r);
          TakenByPass(i3, pass3, Last(u).store, r);
        }
        assert false;
      }
    }
    assert Clock(t.events) + [second] + [third] == Clock(t.events) + [second, third];
  }

  lemma ReadsAll(w: World, s: Remover, rs: seq<Record>, now: int)
    requires w.Contained? && w.start <= now && forall r :: IsStored(s.store, r) ==> r in rs
    requires exists c :: c in UpOf(w.e) && c.environmentId == w.e
    ensures IsTick(w, s.(reading := rs), now, UpOf(w.e))
  {
  }

  lemma LosingRun(store: Store, e: string, start: int, x: Record, y: Record, second: int, third: int) returns (t: Trace)
    requires IsSchedule(store, e, start, x, y, second, third)
    ensures IsPlainRunOf(Contained(e, start), t, store) && t.states != [] && Clock(t.events) == [start, second, third]
    ensures NoneOf(Last(t).store, e)
  {
    hide *;
    t := FirstTick(store, e, start, x, y, second, third);
    t := SecondAndThirdTick(t, store, e, start, x, y, second, third);
    assert [start] + [second, third] == [start, second, third];
  }

  /** At risk, there is such a schedule. */
  lemma RiskHasSchedule(store: Store, e: string, start: int) returns (x: Record, y: Record, second: int, third: int)
    requires IsAtRisk(store, e, start)
    ensures IsSchedule(store, e, start, x, y, second, third) && start < second < third
  {
    var a, b :| IsOf(store, e, a) && IsOf(store, e, b) && start < b.at < a.at
                && a.at > start + FUTURE_RECORD_TOLERANCE_MS + RECORD_MAX_AGE_MS + 1;
    SomeNewest(store, e, WrittenAt(), a);
    x :| IsNewest(store, e, WrittenAt(), x);
    y := b;
    assert forall r :: IsOf(store, e, r) ==> !Outranks(Ranked(WrittenAt(), r), Ranked(WrittenAt(), x));
    second, third := x.at - FUTURE_RECORD_TOLERANCE_MS - 1, x.at + RECORD_MAX_AGE_MS;
  }

  ghost predicate MayLoseAll(store: Store, e: string, start: int) {
    exists t :: IsRunOf(Contained(e, start), t, store) && t.states != [] && NoneOf(Last(t).store, e)
  }

  predicate Increases(clock: seq<int>) { forall j, k :: 0 <= j < k < |clock| ==> clock[j] < clock[k] }

  /** The same without failures, without another writer, and with a clock that goes on. */
  ghost predicate MayPlainlyLoseAll(store: Store, e: string, start: int) {
    exists t :: IsPlainRunOf(Contained(e, start), t, store) && t.states != [] && NoneOf(Last(t).store, e)
                && Increases(Clock(t.events))
  }

  /** Exactly when an environment with a container at every tick may lose all its records, whatever fails and however late a removal
      acts: when no record keeps, one is further ahead of the monitor's first clock than the tolerance and seven days, and another
      one is ahead of it too, but less. It then happens without any failure. */
  lemma AllRecordsMayGoExactly(store: Store, e: string, start: int)
    requires exists r :: IsOf(store, e, r)
    ensures MayLoseAll(store, e, start) <==> IsAtRisk(store, e, start)
    ensures MayPlainlyLoseAll(store, e, start) <==> IsAtRisk(store, e, start)
  {
    var some :| IsOf(store, e, some);
    if IsAtRisk(store, e, start) {
      RiskIsLoss(store, e, start);
    } else {
      forall t | IsRunOf(Contained(e, start), t, store) && t.states != []
        ensures !NoneOf(Last(t).store, e)
      {
        LastIsAt(t, store, e, start);
        hide IsRunOf, IsOf, NoneOf, IsAtRisk;
        if NoneOf(Last(t).store, e) {
          LossNeeds(t, |t.events|, store, e, start, some);
          assert false;
        }
      }
      hide IsOf, NoneOf, IsAtRisk, IsTrace, IsStepOf, IsPlain, Clock;
    }
  }

  lemma RiskIsLoss(store: Store, e: string, start: int)
    requires IsAtRisk(store, e, start)
    ensures MayLoseAll(store, e, start) && MayPlainlyLoseAll(store, e, start)
  {
    var x, y, second, third := RiskHasSchedule(store, e, start);
    hide IsAtRisk, IsSchedule, IsRunOf, IsPlainRunOf, NoneOf, Clock;
    var t := LosingRun(store, e, start, x, y, second, third);
    PlainIsRun(t, store, e, start);
  }

  lemma PlainIsRun(t: Trace, store: Store, e: string, start: int)
    requires IsPlainRunOf(Contained(e, start), t, store)
    ensures IsRunOf(Contained(e, start), t, store)
  {
  }

  lemma LastIsAt(t: Trace, store: Store, e: string, start: int)
    requires IsRunOf(Contained(e, start), t, store)
    ensures t.states != [] && Last(t) == t.states[|t.events|]
  {
  }

  // ---- An input ----

  const SECOND: int := 1000
  const WEEK_AND_TOLERANCE: int := RECORD_MAX_AGE_MS + FUTURE_RECORD_TOLERANCE_MS
  const AHEAD := Record("a", "e", WEEK_AND_TOLERANCE + 40 * SECOND, false, 60, false)
  const BEHIND := Record("b", "e", 30 * SECOND, false, 60, false)
  const FILES: Store :=
    map[FileKey("a", "e") := Stored(WEEK_AND_TOLERANCE + 40 * SECOND, false, 60, 0, false)]
       [FileKey("b", "e") := Stored(30 * SECOND, false, 60, 0, false)]

  /** Three ticks: the first one sees the record of the future; seven days and thirty seconds later one names it as the older one, and one
      thirty seconds after that, which reads the files before the removal is done, names the other record. Every command answers. */
  lemma ATimeThatComesMayTakeAllRecords() returns (t: Trace)
    ensures IsPlainRunOf(Contained("e", 0), t, FILES) && t.states != [] && NoneOf(Last(t).store, "e")
    ensures Clock(t.events) == [0, RECORD_MAX_AGE_MS + 30 * SECOND, RECORD_MAX_AGE_MS + 60 * SECOND]
  {
    assert IsOf(FILES, "e", AHEAD) && IsOf(FILES, "e", BEHIND);
    assert forall r :: IsOf(FILES, "e", r) ==> r == AHEAD || r == BEHIND;
    hide IsPlainRunOf, NoneOf, IsOf;
    t := LosingRun(FILES, "e", 0, AHEAD, BEHIND, RECORD_MAX_AGE_MS + 30 * SECOND, RECORD_MAX_AGE_MS + 60 * SECOND);
  }
}
