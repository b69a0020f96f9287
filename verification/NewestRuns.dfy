/** Removals over whole runs of the monitor: any number of ticks and passes, readings that overlap a pass, commands without an answer
    that act at any later moment, and restarts (src/remoteMonitor/main.ts). */
module NewestRuns {
  import opened Seqs
  import opened MonitorRules
  import opened MonitorRemovals
  import opened HeartbeatRecords
  import opened RemovalRuns
  import opened RemovalSafety

  /** The record of a file of `e`. */
  predicate IsOf(store: Store, e: string, r: Record) { IsStored(store, r) && r.environmentId == e }

  /** A record with the time that the ticks see. */
  function Ranked(seenAt: Record -> int, r: Record): Seen { Seen(r, seenAt(r)) }

  /** The time of a record as it is written, which is the one seen as long as it is not in the future. */
  function WrittenAt(): Record -> int { (r: Record) => r.at }

  /** No record of `e` outranks it: a later time, or for equal times a keep. */
  ghost predicate IsNewest(store: Store, e: string, seenAt: Record -> int, g: Record) {
    IsOf(store, e, g) && forall r :: IsOf(store, e, r) ==> !Outranks(Ranked(seenAt, r), Ranked(seenAt, g))
  }

  // ---- The runs ----

  /** A monitor at its start. */
  predicate AtStart(s: Remover) { s.reading == [] && s.decided == None && s.pass == None && s.pending == {} }

  /** Up to `k`: no other process changes a file of `e`, every tick sees the time of each record as `seenAt` and (when `whole`)
      has read each file of `e` but perhaps those of the newest records. */
  ghost predicate LeftAlone(t: Trace, k: nat, e: string, seenAt: Record -> int, whole: bool) {
    && IsTrace(t) && k <= |t.events| && AtStart(t.states[0])
    && forall l :: 0 <= l < k ==> StepLeavesAlone(t.states[l], t.events[l], t.states[0].store, e, seenAt, whole)
  }

  ghost predicate StepLeavesAlone(s: Remover, ev: Event, store0: Store, e: string, seenAt: Record -> int, whole: bool) {
    && (ev.Other? ==> ev.change.key.environmentId != e)
    && (ev.DecideTick? ==>
          && (whole ==> forall r :: IsOf(s.store, e, r) && !IsNewest(store0, e, seenAt, r) ==> r in s.reading)
          && forall r :: r in s.reading && r.environmentId == e ==> See(ev.now, s.state)(r).at == seenAt(r))
  }

  // ---- What every step keeps ----

  /** A decision's input knows of `e` only what was stored at the start, and everything that still is but is not newest. */
  ghost predicate Knows(i: Input, store0: Store, store: Store, e: string, seenAt: Record -> int, whole: bool) {
    && OneRecordEach(i.records)
    && (forall r :: r in i.records && r.environmentId == e ==> IsStored(store0, r) && See(i.now, i.state)(r) == Ranked(seenAt, r))
    && (whole ==> forall r :: IsOf(store, e, r) && !IsNewest(store0, e, seenAt, r) ==> r in i.records)
  }

  /** Its removal takes the last newest record only when no other record is left. */
  ghost predicate IsHarmless(x: Removal, store0: Store, store: Store, e: string, seenAt: Record -> int, whole: bool) {
    x.record.environmentId == e ==>
      && IsStored(store0, x.record)
      && (|| !whole
          || (exists r :: IsOf(store0, e, r) && Outranks(Ranked(seenAt, r), Ranked(seenAt, x.record)))
          || (forall r :: IsOf(store, e, r) ==> !Outranks(Ranked(seenAt, x.record), Ranked(seenAt, r))))
  }

  /** The pass took every record to forget of `e` that it did, unless it holds the rest back. */
  ghost predicate PassOk(p: Pass, store0: Store, store: Store, e: string, seenAt: Record -> int, whole: bool) {
    && Knows(p.input, store0, store, e, seenAt, whole) && p.next <= |Removals(p.input)|
    && (e in p.held || forall m :: 0 <= m < p.next && Removals(p.input)[m].forget ==> !IsOf(store, e, Removals(p.input)[m].record))
  }

  ghost predicate ReadingOk(reading: seq<Record>, store0: Store, e: string) {
    OneRecordEach(reading) && forall r :: r in reading && r.environmentId == e ==> IsStored(store0, r)
  }

  ghost predicate NewestIsLeft(store0: Store, store: Store, e: string, seenAt: Record -> int, whole: bool) {
    whole && (exists r :: IsOf(store, e, r)) ==> exists g :: IsNewest(store0, e, seenAt, g) && IsStored(store, g)
  }

  ghost predicate RunInv(s: Remover, store0: Store, e: string, seenAt: Record -> int, whole: bool) {
    && (forall r :: IsOf(s.store, e, r) ==> IsStored(store0, r))
    && ReadingOk(s.reading, store0, e)
    && (s.decided.Some? ==> Knows(s.decided.value, store0, s.store, e, seenAt, whole))
    && (s.pass.Some? ==> PassOk(s.pass.value, store0, s.store, e, seenAt, whole))
    && (forall x :: x in s.pending ==> IsHarmless(x, store0, s.store, e, seenAt, whole))
    && NewestIsLeft(store0, s.store, e, seenAt, whole)
  }

  /** A file less (of any environment), or a change elsewhere. */
  ghost predicate Shrinks(before: Store, after: Store, e: string) { forall r :: IsOf(after, e, r) ==> IsStored(before, r) }

  lemma ShrinksKeeps(s: Remover, after: Store, store0: Store, e: string, seenAt: Record -> int, whole: bool)
    requires RunInv(s, store0, e, seenAt, whole) && Shrinks(s.store, after, e) && NewestIsLeft(store0, after, e, seenAt, whole)
    ensures RunInv(s.(store := after), store0, e, seenAt, whole)
  {
    hide IsStored, Removals, OneRecordEach, NewestIsLeft, See;
  }

  /** A removal that is in turn is harmless. */
  lemma NextIsHarmless(s: Remover, store0: Store, e: string, seenAt: Record -> int, whole: bool)
    requires RunInv(s, store0, e, seenAt, whole) && HasNext(s) && !IsHeld(s)
    ensures IsHarmless(NextRemoval(s), store0, s.store, e, seenAt, whole)
  {
    var i, k, x := s.pass.value.input, s.pass.value.next, NextRemoval(s);
    if x.record.environmentId == e {
      RemovalIs(i, k);
      RemovedIsStored(i, store0, s.store, e, seenAt, whole, k);
      hide Removals, Forgotten, Superseded, IsStored, See, OneRecordEach, IsForgotten;
      if x.forget {
        SeenIsOfRecord(i, Forgotten(i)[k]);
        forall r | whole && IsOf(s.store, e, r)
          ensures !Outranks(Ranked(seenAt, x.record), Ranked(seenAt, r))
        {
          if Outranks(Ranked(seenAt, x.record), Ranked(seenAt, r)) {
            ReadIsSeen(i, r);
            var m := LowerGoBefore(i, k, See(i.now, i.state)(r));
            assert false;
          }
        }
      } else {
        SupersededIsOutranked(i, store0, s.store, e, seenAt, whole, k);
      }
    }
  }

  lemma SupersededIsOutranked(i: Input, store0: Store, store: Store, e: string, seenAt: Record -> int, whole: bool, k: nat)
    requires Knows(i, store0, store, e, seenAt, whole)
    requires k < |Removals(i)| && !Removals(i)[k].forget && Removals(i)[k].record.environmentId == e
    ensures exists r :: IsOf(store0, e, r) && Outranks(Ranked(seenAt, r), Ranked(seenAt, Removals(i)[k].record))
  {
    RemovalIs(i, k);
    var last := Superseded(i)[k - |Forgotten(i)|];
    hide Removals, Forgotten, Superseded, IsStored, See, OneRecordEach, IsForgotten;
    SeenIsOfRecord(i, last);
    var newer :| newer in RecordsOf(i, last.written.environmentId) && newer.at > last.at;
    SeenIsOfRecord(i, newer);
    assert IsOf(store0, e, newer.written);
  }

  lemma ReadIsSeen(i: Input, r: Record)
    requires r in i.records
    ensures See(i.now, i.state)(r) in Clamped(i)
  {
    var k :| 0 <= k < |i.records| && i.records[k] == r;
    assert Clamped(i)[k] == See(i.now, i.state)(r);
  }

  /** After a harmless removal a newest record is left, or none at all. */
  lemma NewestIsLeftAfter(x: Removal, store0: Store, store: Store, e: string, seenAt: Record -> int, whole: bool)
    requires forall r :: IsOf(store, e, r) ==> IsStored(store0, r)
    requires NewestIsLeft(store0, store, e, seenAt, whole) && IsHarmless(x, store0, store, e, seenAt, whole) && Holds(store, x.record)
    ensures NewestIsLeft(store0, Without(store, x.record), e, seenAt, whole) && Shrinks(store, Without(store, x.record), e)
  {
    var after := Without(store, x.record);
    assert forall r :: IsOf(after, e, r) <==> IsOf(store, e, r) && KeyOfRecord(r) != KeyOfRecord(x.record);
    if whole {
      if r :| IsOf(after, e, r) {
        var g :| IsNewest(store0, e, seenAt, g) && IsStored(store, g);
        if KeyOfRecord(g) == KeyOfRecord(x.record) {
          assert g == x.record;
          assert IsNewest(store0, e, seenAt, r);
        } else {
          assert IsStored(after, g);
        }
      }
    }
  }

  lemma OtherFileKeeps(s: Remover, change: Change, store0: Store, e: string, seenAt: Record -> int, whole: bool)
    requires RunInv(s, store0, e, seenAt, whole) && change.key.environmentId != e
    ensures RunInv(s.(store := ChangeStore(s.store, change)), store0, e, seenAt, whole)
  {
    var after := ChangeStore(s.store, change);
    forall r
      ensures IsOf(after, e, r) <==> IsOf(s.store, e, r)
    {
    }
    hide IsStored, ChangeStore, IsNewest;
    if whole {
      if r :| IsOf(after, e, r) {
        var g :| IsNewest(store0, e, seenAt, g) && IsStored(s.store, g);
        assert g.environmentId == e by {
          NewestIsOf(store0, e, seenAt, g);
        }
        assert IsOf(after, e, g);
      }
    }
    ShrinksKeeps(s, after, store0, e, seenAt, whole);
  }

  lemma NewestIsOf(store: Store, e: string, seenAt: Record -> int, g: Record)
    requires IsNewest(store, e, seenAt, g)
    ensures IsOf(store, e, g)
  {
  }

  lemma RemovalKeeps(s: Remover, x: Removal, store0: Store, e: string, seenAt: Record -> int, whole: bool)
    requires RunInv(s, store0, e, seenAt, whole) && IsHarmless(x, store0, s.store, e, seenAt, whole) && Holds(s.store, x.record)
    ensures RunInv(s.(store := Without(s.store, x.record)), store0, e, seenAt, whole)
  {
    NewestIsLeftAfter(x, store0, s.store, e, seenAt, whole);
    ShrinksKeeps(s, Without(s.store, x.record), store0, e, seenAt, whole);
  }

  /** After a removal that took its file, and after one that did not. */
  lemma PassGoesOn(p: Pass, store0: Store, store: Store, e: string, seenAt: Record -> int, whole: bool)
    requires PassOk(p, store0, store, e, seenAt, whole) && p.next < |Removals(p.input)|
    ensures var x := Removals(p.input)[p.next];
            && PassOk(Pass(p.input, p.next + 1, p.held + {x.record.environmentId}), store0, store, e, seenAt, whole)
            && (!IsOf(store, e, x.record) ==> PassOk(p.(next := p.next + 1), store0, store, e, seenAt, whole))
  {
    hide Removals, Knows, IsStored;
  }

  lemma AttemptKeeps(s: Remover, answer: Answer, store0: Store, e: string, seenAt: Record -> int, whole: bool)
    requires RunInv(s, store0, e, seenAt, whole) && Enabled(s, Attempt(answer))
    ensures RunInv(AfterAttempt(s, answer), store0, e, seenAt, whole)
  {
    var x := NextRemoval(s);
    NextIsHarmless(s, store0, e, seenAt, whole);
    PassGoesOn(s.pass.value, store0, s.store, e, seenAt, whole);
    if answer.Removed? {
      RemovalKeeps(s, x, store0, e, seenAt, whole);
      assert !IsStored(Without(s.store, x.record), x.record);
      PassGoesOn(s.pass.value, store0, Without(s.store, x.record), e, seenAt, whole);
    }
    hide Removals, IsHarmless, Knows, ReadingOk, NewestIsLeft, Holds, PassOk, IsStored;
  }

  lemma DecisionKnows(s: Remover, now: int, cs: seq<Container>, store0: Store, e: string, seenAt: Record -> int, whole: bool)
    requires RunInv(s, store0, e, seenAt, whole) && StepLeavesAlone(s, DecideTick(now, cs), store0, e, seenAt, whole)
    ensures Knows(InputOf(s, now, cs), store0, s.store, e, seenAt, whole)
  {
    hide IsStored, OneRecordEach;
  }

  /** Every step of the monitor, of a removal without an answer and of every other process keeps the invariant. */
  lemma RunInvStep(s: Remover, ev: Event, store0: Store, e: string, seenAt: Record -> int, whole: bool)
    requires RunInv(s, store0, e, seenAt, whole) && Enabled(s, ev) && StepLeavesAlone(s, ev, store0, e, seenAt, whole)
    ensures RunInv(Next(s, ev), store0, e, seenAt, whole)
  {
    match ev
    case Other(change) => OtherFileKeeps(s, change, store0, e, seenAt, whole);
    case ReadFile(r) => ReadKeeps(s, r, store0, e, seenAt, whole);
    case Attempt(answer) => AttemptKeeps(s, answer, store0, e, seenAt, whole);
    case Late(x) => RemovalKeeps(s, x, store0, e, seenAt, whole);
    case DecideTick(now, cs) => DecisionKnows(s, now, cs, store0, e, seenAt, whole); AfterDecision(s, now, cs, store0, e, seenAt, whole);
    case _ => OwnStepKeeps(s, ev, store0, e, seenAt, whole);
  }

  lemma AfterDecision(s: Remover, now: int, cs: seq<Container>, store0: Store, e: string, seenAt: Record -> int, whole: bool)
    requires RunInv(s, store0, e, seenAt, whole) && Enabled(s, DecideTick(now, cs)) && Knows(InputOf(s, now, cs), store0, s.store, e, seenAt, whole)
    ensures RunInv(Next(s, DecideTick(now, cs)), store0, e, seenAt, whole)
  {
    hide Removals, Knows, PassOk, IsHarmless, IsStored, Decide, NewestIsLeft;
  }

  lemma ReadKeeps(s: Remover, r: Record, store0: Store, e: string, seenAt: Record -> int, whole: bool)
    requires RunInv(s, store0, e, seenAt, whole) && Enabled(s, ReadFile(r))
    ensures RunInv(Next(s, ReadFile(r)), store0, e, seenAt, whole)
  {
    assert r.environmentId == e ==> IsOf(s.store, e, r);
    ReadingGrows(s, ReadFile(r));
    hide Removals, Knows, PassOk, IsHarmless, IsStored, NewestIsLeft, OneRecordEach;
    assert ReadingOk(s.reading + [r], store0, e);
  }

  lemma OwnStepKeeps(s: Remover, ev: Event, store0: Store, e: string, seenAt: Record -> int, whole: bool)
    requires RunInv(s, store0, e, seenAt, whole) && Enabled(s, ev) && (ev.MonitorDies? || ev.EndTick? || ev.Skip? || ev.EndPass?)
    ensures RunInv(Next(s, ev), store0, e, seenAt, whole)
  {
    hide Removals, Knows, IsHarmless, IsStored, NewestIsLeft;
  }

  // ---- The newest stay ----

  /** With a record, an environment has a newest one. */
  lemma {:induction false} SomeNewest(store: Store, e: string, seenAt: Record -> int, r: Record)
    requires IsOf(store, e, r)
    ensures exists g :: IsNewest(store, e, seenAt, g)
  {
    var keys := store.Keys;
    var g := r;
    var left := keys;
    while left != {}
      invariant left <= keys && IsOf(store, e, g)
      invariant forall x :: IsOf(store, e, x) && KeyOfRecord(x) !in left ==> !Outranks(Ranked(seenAt, x), Ranked(seenAt, g))
      decreases |left|
    {
      var key :| key in left;
      var x := RecordAt(key, store[key]);
      if IsOf(store, e, x) && Outranks(Ranked(seenAt, x), Ranked(seenAt, g)) { g := x; }
      left := left - {key};
    }
    assert IsNewest(store, e, seenAt, g);
  }

  lemma {:induction false} RunInvHolds(t: Trace, k: nat, e: string, seenAt: Record -> int, whole: bool)
    requires LeftAlone(t, k, e, seenAt, whole)
    ensures RunInv(t.states[k], t.states[0].store, e, seenAt, whole)
  {
    var store0 := t.states[0].store;
    if k == 0 {
      forall r | IsOf(store0, e, r)
        ensures exists g :: IsNewest(store0, e, seenAt, g)
      {
        SomeNewest(store0, e, seenAt, r);
      }
    } else {
      RunInvHolds(t, k - 1, e, seenAt, whole);
      RunInvStep(t.states[k - 1], t.events[k - 1], store0, e, seenAt, whole);
    }
  }

  /** Over every run of the monitor in which no other process changes the files of an environment: as long as any of its records is
      stored, a newest one is, whatever the ticks decide, whatever fails and however late a removal acts. */
  lemma NewestStayUntilAllAreGone(t: Trace, k: nat, e: string, seenAt: Record -> int)
    requires LeftAlone(t, k, e, seenAt, true)
    requires exists r :: IsOf(t.states[k].store, e, r)
    ensures exists g :: IsNewest(t.states[0].store, e, seenAt, g) && IsStored(t.states[k].store, g)
  {
    RunInvHolds(t, k, e, seenAt, true);
  }

  /** No other process changes a file of `e`; every tick has read each of them, and none of their records is in the future. */
  ghost predicate IsCalm(s: Remover, ev: Event, e: string) {
    && (ev.Other? ==> ev.change.key.environmentId != e)
    && (ev.DecideTick? ==>
          && (forall r :: IsOf(s.store, e, r) ==> r in s.reading)
          && forall r :: r in s.reading && r.environmentId == e ==> !IsFuture(ev.now, r))
  }

  /** The guard of the rules at every tick is enough: with no record of the environment in the future and every file read, as long as
      any of its records is stored, one of the latest written time is (and of these a keep). */
  lemma NewestStayWithoutFuture(t: Trace, k: nat, e: string)
    requires IsTrace(t) && k <= |t.events| && AtStart(t.states[0])
    requires forall l :: 0 <= l < k ==> IsCalm(t.states[l], t.events[l], e)
    requires exists r :: IsOf(t.states[k].store, e, r)
    ensures exists g :: IsNewest(t.states[0].store, e, WrittenAt(), g) && IsStored(t.states[k].store, g)
  {
    assert |t.states| == |t.events| + 1;
    hide IsTrace, IsNewest, IsStored;
    forall l | 0 <= l < k
      ensures StepLeavesAlone(t.states[l], t.events[l], t.states[0].store, e, WrittenAt(), true)
    {
      assert IsCalm(t.states[l], t.events[l], e);
    }
    NewestStayUntilAllAreGone(t, k, e, WrittenAt());
  }

  // ---- And go only where no container is ----

  /** The decision of a tick before `k`. */
  ghost predicate DecidedBefore(t: Trace, k: nat, i: Input)
    requires IsTrace(t) && k <= |t.events|
  {
    exists l :: 0 <= l < k && t.events[l].DecideTick? && i == InputOf(t.states[l], t.events[l].now, t.events[l].containers)
  }

  ghost predicate IsRemovalOf(t: Trace, k: nat, x: Removal)
    requires IsTrace(t) && k <= |t.events|
  {
    exists i :: DecidedBefore(t, k, i) && x in Removals(i)
  }

  ghost predicate Traced(t: Trace, k: nat)
    requires IsTrace(t) && k <= |t.events|
  {
    var s := t.states[k];
    && (s.decided.Some? ==> DecidedBefore(t, k, s.decided.value))
    && (s.pass.Some? ==> DecidedBefore(t, k, s.pass.value.input))
    && forall x :: x in s.pending ==> IsRemovalOf(t, k, x)
  }

  lemma {:induction false} EverythingIsTraced(t: Trace, k: nat)
    requires IsTrace(t) && k <= |t.events| && AtStart(t.states[0])
    ensures Traced(t, k)
  {
    if k > 0 {
      EverythingIsTraced(t, k - 1);
      var s, ev := t.states[k - 1], t.events[k - 1];
      assert Enabled(s, ev) && t.states[k] == Next(s, ev);
      HowAPassGoesOn(s, ev);
      HowRemovalsPend(s, ev);
      TracedLater(t, k - 1);
      hide Enabled, Next, Removals, IsTrace;
      if ev.DecideTick? {
        DecidesAs(s, ev);
        assert DecidedBefore(t, k, InputOf(s, ev.now, ev.containers));
      }
    }
  }

  lemma TracedLater(t: Trace, k: nat)
    requires IsTrace(t) && k < |t.events| && Traced(t, k)
    ensures forall i :: DecidedBefore(t, k, i) ==> DecidedBefore(t, k + 1, i)
    ensures forall x :: IsRemovalOf(t, k, x) ==> IsRemovalOf(t, k + 1, x)
    ensures HasNext(t.states[k]) ==> IsRemovalOf(t, k + 1, NextRemoval(t.states[k]))
  {
    var j, s := k + 1, t.states[k];
    hide IsTrace, Removals;
    forall i | DecidedBefore(t, k, i)
      ensures DecidedBefore(t, j, i)
    {
    }
    forall x | IsRemovalOf(t, k, x)
      ensures IsRemovalOf(t, j, x)
    {
      var i :| DecidedBefore(t, k, i) && x in Removals(i);
      assert DecidedBefore(t, j, i);
    }
    if HasNext(s) {
      assert DecidedBefore(t, j, s.pass.value.input);
    }
  }

  /** The tick at `l` forgets the record: it saw no container of its environment, and its written time is far from now. */
  ghost predicate Forgets(t: Trace, l: nat, g: Record)
    requires IsTrace(t) && l < |t.events|
  {
    t.events[l].DecideTick? &&
    var i := InputOf(t.states[l], t.events[l].now, t.events[l].containers);
    g in Decide(i).forget && !Present(i, g.environmentId) && Abs(i.now - g.at) > RECORD_MAX_AGE_MS
  }

  ghost predicate ForgottenBefore(t: Trace, k: nat, g: Record)
    requires IsTrace(t) && k <= |t.events|
  {
    exists l :: 0 <= l < k && Forgets(t, l, g)
  }

  lemma TickOf(t: Trace, k: nat, x: Removal) returns (l: nat)
    requires IsTrace(t) && k <= |t.events| && IsRemovalOf(t, k, x)
    ensures l < k && t.events[l].DecideTick? && x in Removals(InputOf(t.states[l], t.events[l].now, t.events[l].containers))
  {
    hide Removals;
    var i :| DecidedBefore(t, k, i) && x in Removals(i);
    l :| 0 <= l < k && t.events[l].DecideTick? && i == InputOf(t.states[l], t.events[l].now, t.events[l].containers);
  }

  lemma OnlyForgettingTakesTheNewest(t: Trace, k: nat, e: string, seenAt: Record -> int, g: Record, x: Removal)
    requires LeftAlone(t, k, e, seenAt, false) && IsNewest(t.states[0].store, e, seenAt, g)
    requires IsRemovalOf(t, k, x) && KeyOfRecord(x.record) == KeyOfRecord(g)
    ensures ForgottenBefore(t, k, g)
  {
    hide IsTrace, Removals, Knows, IsNewest, Decide, IsRemovalOf, LeftAlone;
    IsARun(t, k, e, seenAt);
    var l := TickOf(t, k, x);
    KnownAt(t, k, l, e, seenAt);
    NewestIsOf(t.states[0].store, e, seenAt, g);
    ItForgets(InputOf(t.states[l], t.events[l].now, t.events[l].containers), t.states[0].store, t.states[l].store, e, seenAt, g, x);
    hide Present;
    assert Forgets(t, l, g);
  }

  lemma KnownAt(t: Trace, k: nat, l: nat, e: string, seenAt: Record -> int)
    requires LeftAlone(t, k, e, seenAt, false) && l < k && t.events[l].DecideTick?
    ensures Knows(InputOf(t.states[l], t.events[l].now, t.events[l].containers), t.states[0].store, t.states[l].store, e, seenAt, false)
  {
    assert LeftAlone(t, l, e, seenAt, false) && StepLeavesAlone(t.states[l], t.events[l], t.states[0].store, e, seenAt, false);
    hide LeftAlone, StepLeavesAlone, RunInv, Knows;
    RunInvHolds(t, l, e, seenAt, false);
    DecisionKnows(t.states[l], t.events[l].now, t.events[l].containers, t.states[0].store, e, seenAt, false);
  }

  lemma ItForgets(i: Input, store0: Store, store: Store, e: string, seenAt: Record -> int, g: Record, x: Removal)
    requires Knows(i, store0, store, e, seenAt, false) && IsNewest(store0, e, seenAt, g)
    requires x in Removals(i) && KeyOfRecord(x.record) == KeyOfRecord(g)
    ensures g in Decide(i).forget && !Present(i, e) && Abs(i.now - g.at) > RECORD_MAX_AGE_MS
  {
    var k :| 0 <= k < |Removals(i)| && Removals(i)[k] == x;
    RemovalIs(i, k);
    hide Removals, Clamped, See, OneRecordEach, Superseded, Stops, RunningEnvironments, NextState, IsActive;
    RemovedIsStored(i, store0, store, e, seenAt, false, k);
    assert x.record == g;
    if !x.forget {
      SupersededIsOutranked(i, store0, store, e, seenAt, false, k);
      assert false;
    }
    hide Forgotten;
    assert Decide(i).forget[k] == g;
  }

  lemma RemovedIsStored(i: Input, store0: Store, store: Store, e: string, seenAt: Record -> int, whole: bool, k: nat)
    requires Knows(i, store0, store, e, seenAt, whole) && k < |Removals(i)| && Removals(i)[k].record.environmentId == e
    ensures IsStored(store0, Removals(i)[k].record)
  {
    RemovalIs(i, k);
    var s := if Removals(i)[k].forget then Forgotten(i)[k] else Superseded(i)[k - |Forgotten(i)|];
    hide Removals, Forgotten, Superseded, OneRecordEach, See, IsForgotten, IsSuperseded;
    SeenIsOfRecord(i, s);
  }

  lemma IsARun(t: Trace, k: nat, e: string, seenAt: Record -> int)
    requires LeftAlone(t, k, e, seenAt, false)
    ensures IsTrace(t) && k <= |t.events| && |t.states| == |t.events| + 1
  {
  }

  lemma OneMoreStep(t: Trace, k: nat, e: string, seenAt: Record -> int)
    requires LeftAlone(t, k, e, seenAt, false) && k > 0
    ensures LeftAlone(t, k - 1, e, seenAt, false)
    ensures var s, ev := t.states[k - 1], t.events[k - 1];
            StepLeavesAlone(s, ev, t.states[0].store, e, seenAt, false) && Enabled(s, ev) && t.states[k] == Next(s, ev)
    ensures forall x :: Takes(t.states[k - 1], t.events[k - 1], x) ==> IsRemovalOf(t, k, x)
  {
    var s, ev := t.states[k - 1], t.events[k - 1];
    assert StepLeavesAlone(s, ev, t.states[0].store, e, seenAt, false);
    EverythingIsTraced(t, k - 1);
    TracedLater(t, k - 1);
    hide StepLeavesAlone, Enabled, Next, Removals, Takes, HasNext, IsHeld;
    HowRemovalsPend(s, ev);
  }

  /** In such a run a newest record is stored until a tick forgets it: one that saw no container of its environment. */
  lemma {:induction false} ANewestGoesOnlyWhenForgotten(t: Trace, k: nat, e: string, seenAt: Record -> int, g: Record)
    requires LeftAlone(t, k, e, seenAt, false) && IsNewest(t.states[0].store, e, seenAt, g)
    ensures IsStored(t.states[k].store, g) || ForgottenBefore(t, k, g)
  {
    hide Enabled, Next, Takes, IsTrace, Forgets, IsNewest, IsRemovalOf, LeftAlone;
    IsARun(t, k, e, seenAt);
    NewestIsOf(t.states[0].store, e, seenAt, g);
    if k > 0 {
      OneMoreStep(t, k, e, seenAt);
      ANewestGoesOnlyWhenForgotten(t, k - 1, e, seenAt, g);
      var s, ev, key := t.states[k - 1], t.events[k - 1], KeyOfRecord(g);
      if x :| Takes(s, ev, x) && KeyOfRecord(x.record) == key {
        OnlyForgettingTakesTheNewest(t, k, e, seenAt, g, x);
      } else {
        FileStays(s, ev, key);
      }
    }
  }
}
