/** Runs of the monitor on a host that leaves the files of an environment alone, and how to make one in which every command answers:
    readings, ticks and passes (src/remoteMonitor/main.ts). */
module PlainRuns {
  import opened Seqs
  import opened MonitorRules
  import opened HeartbeatRecords
  import opened RemovalRuns
  import opened NewestRuns

  /** A host: with a container of `e` at every tick, a clock that never shows a time before `start`, and files that every tick can
      read; or with files of `e` that no tick can read, and no record of `e` in the future. */
  datatype World = Contained(e: string, start: int) | Unread(e: string, unread: set<FileKey>)

  ghost predicate IsTick(w: World, s: Remover, now: int, containers: seq<Container>) {
    match w
    case Contained(e, start) =>
      && start <= now && (exists c :: c in containers && c.environmentId == e)
      && forall r :: IsOf(s.store, e, r) ==> r in s.reading
    case Unread(e, unread) =>
      && (forall r :: r in s.reading && r.environmentId == e ==> KeyOfRecord(r) !in unread && !IsFuture(now, r))
      && forall r :: IsOf(s.store, e, r) && KeyOfRecord(r) !in unread ==> r in s.reading
  }

  ghost predicate IsStepOf(w: World, s: Remover, ev: Event) {
    && (ev.Other? ==> ev.change.key.environmentId != w.e)
    && (ev.DecideTick? ==> IsTick(w, s, ev.now, ev.containers))
  }

  ghost predicate IsRunOf(w: World, t: Trace, store: Store) {
    && IsTrace(t) && AtStart(t.states[0]) && t.states[0].state == INITIAL_STATE && t.states[0].store == store
    && forall l :: 0 <= l < |t.events| ==> IsStepOf(w, t.states[l], t.events[l])
  }

  /** The monitor goes on, no other process writes, and every command answers what it found. */
  ghost predicate IsPlain(s: Remover, ev: Event) {
    && !ev.Other? && !ev.MonitorDies? && !ev.Late? && ev != Attempt(NoAnswer)
    && (ev == Attempt(NotRemoved) && HasNext(s) ==> !Holds(s.store, NextRemoval(s).record))
  }

  ghost predicate IsPlainRunOf(w: World, t: Trace, store: Store) {
    IsRunOf(w, t, store) && forall l :: 0 <= l < |t.events| ==> IsPlain(t.states[l], t.events[l])
  }

  /** No step gives the environment a record. */
  lemma StoreShrinks(s: Remover, ev: Event, e: string)
    requires Enabled(s, ev) && (ev.Other? ==> ev.change.key.environmentId != e)
    ensures forall r :: IsOf(Next(s, ev).store, e, r) ==> IsStored(s.store, r)
  {
    hide Decide, Removals;
  }

  /** The times of the ticks. */
  function Clock(evs: seq<Event>): seq<int> {
    if evs == [] then []
    else
      var before, last := Clock(evs[..|evs| - 1]), evs[|evs| - 1];
      if last.DecideTick? then before + [last.now] else before
  }

  function Last(t: Trace): Remover
    requires t.states != []
  {
    t.states[|t.states| - 1]
  }

  lemma Start(w: World, store: Store) returns (t: Trace)
    ensures IsPlainRunOf(w, t, store) && t.states != [] && t.events == []
    ensures Last(t) == Remover(store, [], INITIAL_STATE, Timing(0, 0), None, None, {})
  {
    t := Trace([Remover(store, [], INITIAL_STATE, Timing(0, 0), None, None, {})], []);
  }

  lemma Extend(w: World, t: Trace, store: Store, ev: Event) returns (u: Trace)
    requires IsPlainRunOf(w, t, store) && t.states != [] && Enabled(Last(t), ev) && IsStepOf(w, Last(t), ev) && IsPlain(Last(t), ev)
    ensures IsPlainRunOf(w, u, store) && u.states != [] && Last(u) == Next(Last(t), ev)
    ensures Clock(u.events) == if ev.DecideTick? then Clock(t.events) + [ev.now] else Clock(t.events)
  {
    hide Next, Enabled, IsStepOf, IsPlain;
    OneStepMore(t, ev);
    u := Trace(t.states + [Next(Last(t), ev)], t.events + [ev]);
    assert u.events[..|t.events|] == t.events;
    hide IsTrace, AtStart;
    forall l | 0 <= l < |u.events|
      ensures IsStepOf(w, u.states[l], u.events[l]) && IsPlain(u.states[l], u.events[l])
    {
    }
  }

  // ---- A tick ----

  predicate KeysDiffer(rs: seq<Record>) { forall j, k :: 0 <= j < k < |rs| ==> KeyOfRecord(rs[j]) != KeyOfRecord(rs[k]) }

  /** The records of the files but some, each once. */
  lemma Listing(store: Store, unread: set<FileKey>) returns (rs: seq<Record>)
    ensures KeysDiffer(rs) && forall r :: r in rs <==> IsStored(store, r) && KeyOfRecord(r) !in unread
  {
    rs := [];
    var left := store.Keys - unread;
    while left != {}
      invariant left <= store.Keys - unread && KeysDiffer(rs)
      invariant forall r :: r in rs <==> IsStored(store, r) && KeyOfRecord(r) !in unread && KeyOfRecord(r) !in left
      decreases |left|
    {
      var key :| key in left;
      rs := rs + [RecordAt(key, store[key])];
      left := left - {key};
    }
  }

  lemma {:induction false} ReadFirst(w: World, t: Trace, store: Store, rs: seq<Record>, n: nat) returns (u: Trace)
    requires IsPlainRunOf(w, t, store) && t.states != [] && Last(t).decided == None && Last(t).reading == []
    requires n <= |rs| && KeysDiffer(rs) && forall r :: r in rs ==> IsStored(Last(t).store, r)
    ensures IsPlainRunOf(w, u, store) && u.states != [] && Clock(u.events) == Clock(t.events)
    ensures Last(u) == Last(t).(reading := rs[..n])
  {
    hide IsPlainRunOf, Decide, IsStored;
    if n == 0 {
      u := t;
    } else {
      u := ReadFirst(w, t, store, rs, n - 1);
      assert rs[n - 1] in rs && rs[..n] == rs[..n - 1] + [rs[n - 1]];
      u := Extend(w, u, store, ReadFile(rs[n - 1]));
    }
  }

  /** The tick reads these records and decides. */
  lemma Tick(w: World, t: Trace, store: Store, rs: seq<Record>, now: int, cs: seq<Container>) returns (u: Trace)
    requires IsPlainRunOf(w, t, store) && t.states != [] && Last(t).decided == None && Last(t).reading == []
    requires KeysDiffer(rs) && forall r :: r in rs ==> IsStored(Last(t).store, r)
    requires IsTick(w, Last(t).(reading := rs), now, cs)
    ensures IsPlainRunOf(w, u, store) && u.states != [] && Clock(u.events) == Clock(t.events) + [now]
    ensures var i := Input(now, cs, rs, Last(t).state, Last(t).timing);
            Last(u) == Last(t).(state := Decide(i).state, decided := Some(i))
  {
    u := ReadFirst(w, t, store, rs, |rs|);
    assert rs[..|rs|] == rs;
    hide IsPlainRunOf, Decide, IsTick;
    u := Extend(w, u, store, DecideTick(now, cs));
  }

  lemma EndsTick(w: World, t: Trace, store: Store) returns (u: Trace)
    requires IsPlainRunOf(w, t, store) && t.states != [] && Last(t).decided.Some?
    ensures IsPlainRunOf(w, u, store) && u.states != [] && Clock(u.events) == Clock(t.events) && Last(u) == AfterTick(Last(t))
  {
    hide IsPlainRunOf, Decide;
    u := Extend(w, t, store, EndTick);
  }

  // ---- A pass ----

  /** What a pass from `s` on leaves: only files that were there, no record of a removal that is not held back, and every file that no
      removal names. */
  ghost predicate IsLeftByPass(s: Remover, after: Store)
    requires s.pass.Some?
  {
    var removals, next := Removals(s.pass.value.input), s.pass.value.next;
    && (forall key :: key in after ==> key in s.store && after[key] == s.store[key])
    && (forall m :: next <= m < |removals| && !removals[m].forget ==> !Holds(after, removals[m].record))
    && (forall key :: key in s.store && (forall m :: next <= m < |removals| ==> KeyOfRecord(removals[m].record) != key) ==> key in after)
  }

  /** The rest of the list can be removed: each record is there, and each file is named once. */
  ghost predicate IsClean(s: Remover)
    requires s.pass.Some?
  {
    var removals, next := Removals(s.pass.value.input), s.pass.value.next;
    && s.pass.value.held == {}
    && (forall m :: next <= m < |removals| ==> Holds(s.store, removals[m].record))
    && forall j, m :: next <= j < m < |removals| ==> KeyOfRecord(removals[j].record) != KeyOfRecord(removals[m].record)
  }

  ghost predicate NoneHolds(s: Remover, after: Store)
    requires s.pass.Some?
  {
    var removals, next := Removals(s.pass.value.input), s.pass.value.next;
    forall m :: next <= m < |removals| ==> !Holds(after, removals[m].record)
  }

  function Answered(s: Remover): Event
    requires HasNext(s)
  {
    if IsHeld(s) then Skip else if Holds(s.store, NextRemoval(s).record) then Attempt(Removed) else Attempt(NotRemoved)
  }

  /** The pass one removal further. */
  ghost predicate IsOneFurther(s: Remover, after: Remover) {
    && s.pass.Some? && after.pass.Some?
    && after.pass.value.input == s.pass.value.input && after.pass.value.next == s.pass.value.next + 1
    && after == s.(store := after.store, pass := after.pass)
  }

  lemma AnswerIs(w: World, s: Remover) returns (after: Remover)
    requires HasNext(s)
    ensures Enabled(s, Answered(s)) && IsStepOf(w, s, Answered(s)) && IsPlain(s, Answered(s)) && after == Next(s, Answered(s))
    ensures IsOneFurther(s, after)
    ensures after.store == s.store || after.store == Without(s.store, NextRemoval(s).record)
    ensures !NextRemoval(s).forget ==> !Holds(after.store, NextRemoval(s).record)
    ensures IsClean(s) ==> after.store == Without(s.store, NextRemoval(s).record) && after.pass.value.held == {}
  {
    hide Removals;
    after := Next(s, Answered(s));
    assert NextRemoval(s) == Removals(s.pass.value.input)[s.pass.value.next];
  }

  lemma CleanFurther(s: Remover, after: Remover)
    requires HasNext(s) && IsOneFurther(s, after) && IsClean(s)
    requires after.store == Without(s.store, NextRemoval(s).record) && after.pass.value.held == {}
    ensures IsClean(after)
  {
    hide Removals;
  }

  lemma LeftFurther(s: Remover, after: Remover, last: Store)
    requires HasNext(s) && IsOneFurther(s, after) && IsLeftByPass(after, last)
    requires after.store == s.store || after.store == Without(s.store, NextRemoval(s).record)
    requires !NextRemoval(s).forget ==> !Holds(after.store, NextRemoval(s).record)
    ensures IsLeftByPass(s, last)
  {
    hide Removals;
    assert NextRemoval(s) == Removals(s.pass.value.input)[s.pass.value.next];
  }

  lemma NoneHoldsFurther(s: Remover, after: Remover, last: Store)
    requires HasNext(s) && IsOneFurther(s, after) && IsLeftByPass(after, last) && NoneHolds(after, last)
    requires after.store == Without(s.store, NextRemoval(s).record)
    ensures NoneHolds(s, last)
  {
    hide Removals;
    assert NextRemoval(s) == Removals(s.pass.value.input)[s.pass.value.next];
  }

  /** The rest of a pass, to its end. */
  lemma {:induction false} RunOut(w: World, t: Trace, store: Store) returns (u: Trace)
    requires IsPlainRunOf(w, t, store) && t.states != [] && Last(t).pass.Some?
    requires Last(t).pass.value.next <= |Removals(Last(t).pass.value.input)|
    ensures IsPlainRunOf(w, u, store) && u.states != [] && Clock(u.events) == Clock(t.events)
    ensures Last(u) == Last(t).(store := Last(u).store, pass := None)
    ensures IsLeftByPass(Last(t), Last(u).store) && (IsClean(Last(t)) ==> NoneHolds(Last(t), Last(u).store))
    decreases |Removals(Last(t).pass.value.input)| - Last(t).pass.value.next
  {
    hide IsPlainRunOf, RemovalsOf, IsStepOf, IsPlain, IsLeftByPass, IsClean, NoneHolds;
    var s := Last(t);
    if HasNext(s) {
      var after := AnswerIs(w, s);
      u := Extend(w, t, store, Answered(s));
      hide Next, Enabled, Answered, IsHeld;
      u := RunOut(w, u, store);
      LeftFurther(s, after, Last(u).store);
      if IsClean(s) {
        CleanFurther(s, after);
        NoneHoldsFurther(s, after, Last(u).store);
      }
    } else {
      PassEnds(w, s);
      u := Extend(w, t, store, EndPass);
    }
  }

  lemma PassEnds(w: World, s: Remover)
    requires s.pass.Some? && !HasNext(s) && s.pass.value.next <= |Removals(s.pass.value.input)|
    ensures Enabled(s, EndPass) && IsStepOf(w, s, EndPass) && IsPlain(s, EndPass) && Next(s, EndPass) == s.(pass := None)
    ensures IsLeftByPass(s, s.store) && NoneHolds(s, s.store)
  {
  }
}
