/** When an older record outlives the newest ones: exactly what files that cannot be read cost (src/remoteMonitor/main.ts). */
module UnreadLoss {
  import opened Seqs
  import opened Sorting
  import opened MonitorRules
  import opened MonitorRemovals
  import opened HeartbeatRecords
  import opened RemovalRuns
  import opened RemovalSafety
  import opened NewestRuns
  import opened PlainRuns

  /** A record of `e` is left, and no newest one. */
  ghost predicate OnlyOlderAreLeft(store0: Store, store: Store, e: string) {
    && (exists r :: IsOf(store, e, r))
    && forall g :: IsNewest(store0, e, WrittenAt(), g) ==> !IsStored(store, g)
  }

  /** What can be told at the start: every newest record can be read, and another one cannot. */
  ghost predicate HidesOlder(store: Store, e: string, unread: set<FileKey>) {
    && (forall g :: IsNewest(store, e, WrittenAt(), g) ==> KeyOfRecord(g) !in unread)
    && exists r :: IsOf(store, e, r) && !IsNewest(store, e, WrittenAt(), r) && KeyOfRecord(r) in unread
  }

  // ---- What it needs ----

  lemma UnreadLeavesAlone(t: Trace, store: Store, e: string, unread: set<FileKey>, whole: bool)
    requires IsRunOf(Unread(e, unread), t, store)
    requires whole ==> forall r :: IsOf(store, e, r) && !IsNewest(store, e, WrittenAt(), r) ==> KeyOfRecord(r) !in unread
    ensures LeftAlone(t, |t.events|, e, WrittenAt(), whole)
  {
    assert |t.states| == |t.events| + 1;
    hide IsNewest, IsTrace;
    forall l | 0 <= l < |t.events|
      ensures StepLeavesAlone(t.states[l], t.events[l], store, e, WrittenAt(), whole)
    {
      OnlyOfStart(t, l, store, e, unread);
      assert IsStepOf(Unread(e, unread), t.states[l], t.events[l]);
    }
  }

  lemma {:induction false} OnlyOfStart(t: Trace, k: nat, store: Store, e: string, unread: set<FileKey>)
    requires IsRunOf(Unread(e, unread), t, store) && k <= |t.events|
    ensures forall r :: IsOf(t.states[k].store, e, r) ==> IsStored(store, r)
  {
    if k > 0 {
      OnlyOfStart(t, k - 1, store, e, unread);
      var s, ev := t.states[k - 1], t.events[k - 1];
      assert Enabled(s, ev) && t.states[k] == Next(s, ev) && IsStepOf(Unread(e, unread), s, ev);
      hide IsRunOf, Enabled, Next, IsStepOf, IsStored;
      assert ev.Other? ==> ev.change.key.environmentId != e by {
        StepIsElsewhere(s, ev, e, unread);
      }
      StoreShrinks(s, ev, e);
    }
  }

  lemma StepIsElsewhere(s: Remover, ev: Event, e: string, unread: set<FileKey>)
    requires IsStepOf(Unread(e, unread), s, ev)
    ensures ev.Other? ==> ev.change.key.environmentId != e
  {
  }

  /** A newest record that no tick can read stays. */
  lemma UnreadNewestStays(t: Trace, store: Store, e: string, unread: set<FileKey>, g: Record)
    requires IsRunOf(Unread(e, unread), t, store) && IsNewest(store, e, WrittenAt(), g) && KeyOfRecord(g) in unread
    ensures IsStored(t.states[|t.events|].store, g)
  {
    UnreadLeavesAlone(t, store, e, unread, false);
    NewestIsOf(store, e, WrittenAt(), g);
    ANewestGoesOnlyWhenForgotten(t, |t.events|, e, WrittenAt(), g);
    hide IsNewest, LeftAlone, IsStored, Decide;
    if ForgottenBefore(t, |t.events|, g) {
      var l :| 0 <= l < |t.events| && Forgets(t, l, g);
      assert IsStepOf(Unread(e, unread), t.states[l], t.events[l]);
      ForgottenWasRead(InputOf(t.states[l], t.events[l].now, t.events[l].containers), g);
      assert false;
    }
  }

  lemma ForgottenWasRead(i: Input, g: Record)
    requires g in Decide(i).forget
    ensures g in i.records
  {
    hide Stops, RunningEnvironments, NextState, IsActive, Superseded, Clamped, IsForgotten, StableSort;
    var k :| 0 <= k < |Decide(i).forget| && Decide(i).forget[k] == g;
    SortMembers(RemovedBefore(), Filter(ForgetTest(i), Clamped(i)));
    assert Forgotten(i)[k] in Forgotten(i);
    SeenIsOfRecord(i, Forgotten(i)[k]);
  }

  lemma LossNeedsHidden(t: Trace, store: Store, e: string, unread: set<FileKey>)
    requires IsRunOf(Unread(e, unread), t, store) && |t.states| == |t.events| + 1
    requires OnlyOlderAreLeft(store, t.states[|t.events|].store, e)
    ensures HidesOlder(store, e, unread)
  {
    forall g | IsNewest(store, e, WrittenAt(), g)
      ensures KeyOfRecord(g) !in unread
    {
      if KeyOfRecord(g) in unread {
        UnreadNewestStays(t, store, e, unread, g);
        assert false;
      }
    }
    if forall r :: IsOf(store, e, r) && !IsNewest(store, e, WrittenAt(), r) ==> KeyOfRecord(r) !in unread {
      UnreadLeavesAlone(t, store, e, unread, true);
      hide IsRunOf, IsNewest, IsOf, LeftAlone;
      NewestStayUntilAllAreGone(t, |t.events|, e, WrittenAt());
      assert false;
    }
  }

  // ---- A run ----

  predicate IsLate(store: Store, now: int) { forall key :: key in store ==> now - store[key].at > RECORD_MAX_AGE_MS }

  lemma LateTime(store: Store) returns (now: int)
    ensures IsLate(store, now)
  {
    now := 0;
    var left := store.Keys;
    while left != {}
      invariant left <= store.Keys && forall key :: key in store && key !in left ==> now - store[key].at > RECORD_MAX_AGE_MS
      decreases |left|
    {
      var key :| key in left;
      if now - store[key].at <= RECORD_MAX_AGE_MS { now := store[key].at + RECORD_MAX_AGE_MS + 1; }
      left := left - {key};
    }
  }

  ghost predicate AllOld(i: Input) {
    i.containers == [] && KeysDiffer(i.records) && forall r :: r in i.records ==> i.now - r.at > RECORD_MAX_AGE_MS
  }

  lemma OldIsForgotten(i: Input, s: Seen)
    requires AllOld(i) && s in Clamped(i)
    ensures IsForgotten(i, s)
  {
    forall other | other in Clamped(i)
      ensures IsOld(i, other.written)
    {
      SeenIsOfRecord(i, other);
    }
    SeenIsOfRecord(i, s);
  }

  /** Without containers and with old records alone, a tick names every record that it read, once. */
  lemma AllAreForgotten(i: Input)
    requires AllOld(i)
    ensures forall r :: r in i.records ==> Removal(r, true) in Removals(i)
    ensures forall m :: 0 <= m < |Removals(i)| ==> Removals(i)[m].record in i.records
    ensures forall j, m :: 0 <= j < m < |Removals(i)| ==> KeyOfRecord(Removals(i)[j].record) != KeyOfRecord(Removals(i)[m].record)
  {
    forall r | r in i.records
      ensures Removal(r, true) in Removals(i)
    {
      ForgottenIsNamed(i, r);
    }
    forall m | 0 <= m < |Removals(i)|
      ensures Removals(i)[m].forget && m < |Forgotten(i)| && Removals(i)[m].record == Forgotten(i)[m].written && Forgotten(i)[m] in Clamped(i)
      ensures Removals(i)[m].record in i.records
    {
      OnlyForgotten(i, m);
    }
    OnceForgotten(i);
    hide Removals, Forgotten, Clamped;
    forall j, m | 0 <= j < m < |Removals(i)|
      ensures KeyOfRecord(Removals(i)[j].record) != KeyOfRecord(Removals(i)[m].record)
    {
      if KeyOfRecord(Removals(i)[j].record) == KeyOfRecord(Removals(i)[m].record) {
        SameKeySameRecord(i, Forgotten(i)[j], Forgotten(i)[m]);
        assert false;
      }
    }
  }

  lemma ForgottenIsNamed(i: Input, r: Record)
    requires AllOld(i) && r in i.records
    ensures Removal(r, true) in Removals(i)
  {
    ReadIsSeen(i, r);
    var s := See(i.now, i.state)(r);
    OldIsForgotten(i, s);
    SortMembers(RemovedBefore(), Filter(ForgetTest(i), Clamped(i)));
    hide Clamped, IsForgotten, StableSort, Stops, RunningEnvironments, NextState, IsActive, Superseded;
    var k :| 0 <= k < |Forgotten(i)| && Forgotten(i)[k] == s;
    assert Removals(i)[k] == Removal(r, true);
  }

  lemma OnlyForgotten(i: Input, m: nat)
    requires AllOld(i) && m < |Removals(i)|
    ensures Removals(i)[m].forget && m < |Forgotten(i)| && Removals(i)[m].record == Forgotten(i)[m].written
    ensures Forgotten(i)[m] in Clamped(i) && Removals(i)[m].record in i.records
  {
    RemovalIs(i, m);
    if !Removals(i)[m].forget {
      OldIsForgotten(i, Superseded(i)[m - |Forgotten(i)|]);
      assert false;
    }
    hide Removals, Forgotten, Superseded, IsForgotten;
    SeenIsOfRecord(i, Forgotten(i)[m]);
  }

  /** A tick without containers, so late that every record is old, and its pass: exactly the files that cannot be read are left. */
  lemma OneTick(store: Store, e: string, unread: set<FileKey>) returns (t: Trace)
    ensures IsPlainRunOf(Unread(e, unread), t, store) && t.states != []
    ensures forall r :: IsStored(Last(t).store, r) <==> IsStored(store, r) && KeyOfRecord(r) in unread
  {
    var w := Unread(e, unread);
    var rs := Listing(store, unread);
    var now := LateTime(store);
    t := Start(w, store);
    var i := Input(now, [], rs, INITIAL_STATE, Timing(0, 0));
    AllAreForgotten(i);
    assert IsTick(w, Last(t).(reading := rs), now, []);
    hide IsPlainRunOf, IsTick, Decide, Removals;
    t := Tick(w, t, store, rs, now, []);
    t := EndsTick(w, t, store);
    var before := Last(t);
    assert IsClean(before);
    t := RunOut(w, t, store);
    var after := Last(t).store;
    forall r
      ensures IsStored(after, r) <==> IsStored(store, r) && KeyOfRecord(r) in unread
    {
      LeftExactly(i, before, after, store, unread, r);
    }
  }

  lemma LeftExactly(i: Input, s: Remover, after: Store, store: Store, unread: set<FileKey>, r: Record)
    requires s.pass == Some(Pass(i, 0, {})) && s.store == store && IsLeftByPass(s, after) && NoneHolds(s, after)
    requires forall x :: x in i.records <==> IsStored(store, x) && KeyOfRecord(x) !in unread
    requires forall x :: x in i.records ==> Removal(x, true) in Removals(i)
    requires forall m :: 0 <= m < |Removals(i)| ==> Removals(i)[m].record in i.records
    ensures IsStored(after, r) <==> IsStored(store, r) && KeyOfRecord(r) in unread
  {
    hide Removals;
    if r in i.records {
      var m :| 0 <= m < |Removals(i)| && Removals(i)[m] == Removal(r, true);
      assert !Holds(after, Removals(i)[m].record);
    } else {
      assert forall m :: 0 <= m < |Removals(i)| && KeyOfRecord(Removals(i)[m].record) in unread ==> Removals(i)[m].record !in i.records;
    }
  }

  ghost predicate MayLeaveOnlyOlder(store: Store, e: string, unread: set<FileKey>) {
    exists t :: IsRunOf(Unread(e, unread), t, store) && t.states != [] && OnlyOlderAreLeft(store, Last(t).store, e)
  }

  ghost predicate MayPlainlyLeaveOnlyOlder(store: Store, e: string, unread: set<FileKey>) {
    exists t :: IsPlainRunOf(Unread(e, unread), t, store) && t.states != [] && OnlyOlderAreLeft(store, Last(t).store, e)
  }

  /** With no record in the future and files that no tick can read, a run may leave older records of an environment without its newest
      ones exactly when every newest record can be read and another one of the environment cannot. */
  lemma OlderMayOutliveExactly(store: Store, e: string, unread: set<FileKey>)
    ensures MayLeaveOnlyOlder(store, e, unread) <==> HidesOlder(store, e, unread)
    ensures MayPlainlyLeaveOnlyOlder(store, e, unread) <==> HidesOlder(store, e, unread)
  {
    if HidesOlder(store, e, unread) {
      HiddenIsLoss(store, e, unread);
    } else {
      forall t | IsRunOf(Unread(e, unread), t, store) && t.states != []
        ensures !OnlyOlderAreLeft(store, Last(t).store, e)
      {
        assert |t.states| == |t.events| + 1;
        hide IsRunOf, OnlyOlderAreLeft, HidesOlder;
        if OnlyOlderAreLeft(store, Last(t).store, e) {
          LossNeedsHidden(t, store, e, unread);
          assert false;
        }
      }
      hide OnlyOlderAreLeft, HidesOlder, IsTrace, IsStepOf, IsPlain;
    }
  }

  lemma HiddenIsLoss(store: Store, e: string, unread: set<FileKey>)
    requires HidesOlder(store, e, unread)
    ensures MayLeaveOnlyOlder(store, e, unread) && MayPlainlyLeaveOnlyOlder(store, e, unread)
  {
    var r :| IsOf(store, e, r) && !IsNewest(store, e, WrittenAt(), r) && KeyOfRecord(r) in unread;
    var t := OneTick(store, e, unread);
    hide IsTrace, IsStepOf, IsPlain, IsStored, IsNewest;
    assert IsOf(Last(t).store, e, r);
    assert IsRunOf(Unread(e, unread), t, store);
  }

  // ---- An input ----

  const NEWER := Record("a", "e", 60_000, false, 60, false)
  const OLDER := Record("b", "e", 0, false, 60, false)
  const OLDER_KEY := FileKey("b", "e")
  const FILES: Store := map[OLDER_KEY := Stored(0, false, 60, 0, false)][FileKey("a", "e") := Stored(60_000, false, 60, 0, false)]

  /** A tick without containers reads the newer of two old records and cannot read the other one: only the older one is left. */
  lemma AnUnreadFileOutlivesTheNewest() returns (t: Trace)
    ensures IsPlainRunOf(Unread("e", {OLDER_KEY}), t, FILES) && t.states != []
    ensures IsStored(FILES, NEWER) && IsStored(FILES, OLDER) && NEWER.at > OLDER.at
    ensures forall r :: IsStored(Last(t).store, r) <==> r == OLDER
  {
    t := OneTick(FILES, "e", {OLDER_KEY});
    hide IsPlainRunOf;
  }
}
