/** The decisions and the background passes together: whatever fails, however late a removal acts and whatever ticks read in the
    meantime, the newest records of an environment stay until all of them are gone. */
module RemovalSafety {
  import opened Seqs
  import opened Sorting
  import opened MonitorRules
  import opened MonitorLocality
  import opened MonitorRemovals
  import opened HeartbeatRecords
  import opened RemovalRuns

  // ---- The list of a pass ----

  /** A removal of a decision: of a record that is forgotten, or of one that is superseded. */
  lemma RemovalIs(i: Input, k: nat)
    requires k < |Removals(i)|
    ensures Removals(i)[k].forget ==>
              k < |Forgotten(i)| && Removals(i)[k].record == Forgotten(i)[k].written && Forgotten(i)[k] in Clamped(i) && IsForgotten(i, Forgotten(i)[k])
    ensures !Removals(i)[k].forget ==>
              var j := k - |Forgotten(i)|;
              0 <= j < |Superseded(i)| && Removals(i)[k].record == Superseded(i)[j].written && Superseded(i)[j] in Clamped(i) && IsSuperseded(i, Superseded(i)[j])
  {
    SortMembers(RemovedBefore(), Filter(ForgetTest(i), Clamped(i)));
    hide Stops, RunningEnvironments, NextState, IsActive, Clamped, IsForgotten, IsSuperseded, StableSort;
    var all := Forgotten(i);
    if k < |all| {
      assert all[k] in all;
    } else {
      assert Superseded(i)[k - |all|] in Superseded(i);
    }
  }

  /** Every record that a forgotten one of its environment outranks is forgotten before it. */
  lemma LowerGoBefore(i: Input, k: nat, y: Seen) returns (m: nat)
    requires k < |Removals(i)| && Removals(i)[k].forget
    requires y in Clamped(i) && y.written.environmentId == Removals(i)[k].record.environmentId && Outranks(Forgotten(i)[k], y)
    ensures m < k && Removals(i)[m] == Removal(y.written, true) && Forgotten(i)[m] == y && IsForgotten(i, y)
  {
    var all := Forgotten(i);
    RemovalIs(i, k);
    LowerIsForgotten(i, all[k], y);
    RemovalOrder();
    SortMembers(RemovedBefore(), Filter(ForgetTest(i), Clamped(i)));
    SortSorted(RemovedBefore(), Filter(ForgetTest(i), Clamped(i)));
    hide Stops, RunningEnvironments, NextState, IsActive, Clamped, IsForgotten, StableSort, Superseded;
    assert y in all;
    m :| 0 <= m < |all| && all[m] == y;
    assert RemovedBefore()(y, all[k]);
  }

  lemma LowerIsForgotten(i: Input, s: Seen, y: Seen)
    requires IsForgotten(i, s) && y in Clamped(i) && y.written.environmentId == s.written.environmentId && Outranks(s, y)
    ensures IsForgotten(i, y)
  {
    assert !Blocks(i, y, s);
    forall other | other in Clamped(i)
      ensures !Blocks(i, other, y)
    {
      assert !Blocks(i, other, s);
    }
  }

  lemma SameKeySameRecord(i: Input, a: Seen, b: Seen)
    requires OneRecordEach(i.records) && a in Clamped(i) && b in Clamped(i)
    requires KeyOfRecord(a.written) == KeyOfRecord(b.written)
    ensures a == b
  {
    var j :| 0 <= j < |Clamped(i)| && Clamped(i)[j] == a;
    var k :| 0 <= k < |Clamped(i)| && Clamped(i)[k] == b;
    assert a.written == i.records[j] && b.written == i.records[k];
  }

  /** A removal that names the file of a greatest record of its decision forgets this record. */
  lemma OnlyForgettingTakesTheGreatest(i: Input, k: nat, e: string, g: Seen)
    requires OneRecordEach(i.records) && k < |Removals(i)| && GreatestOf(RecordsOf(i, e), g)
    requires KeyOfRecord(Removals(i)[k].record) == KeyOfRecord(g.written)
    ensures Removals(i)[k] == Removal(g.written, true) && k < |Forgotten(i)| && Forgotten(i)[k] == g && IsForgotten(i, g)
  {
    RemovalIs(i, k);
    var s := if Removals(i)[k].forget then Forgotten(i)[k] else Superseded(i)[k - |Forgotten(i)|];
    hide Forgotten, Superseded, RemovalsOf, IsForgotten, Clamped;
    SameKeySameRecord(i, s, g);
  }

  lemma OnceForgotten(i: Input)
    requires OneRecordEach(i.records)
    ensures NoDuplicates(Forgotten(i)) && NoDuplicates(Superseded(i))
  {
    assert NoDuplicates(Clamped(i));
    FilterNoDuplicates(ForgetTest(i), Clamped(i));
    FilterNoDuplicates(SupersededTest(i), Clamped(i));
    SortMultiset(RemovedBefore(), Filter(ForgetTest(i), Clamped(i)));
    NoDuplicatesByMultiset(Filter(ForgetTest(i), Clamped(i)), Forgotten(i));
  }

  /** With one record for each file, a pass names each file once. */
  lemma FilesOfAPassDiffer(i: Input)
    requires OneRecordEach(i.records)
    ensures FilesDiffer(Removals(i))
  {
    forall j, k | 0 <= j < k < |Removals(i)|
      ensures KeyOfRecord(Removals(i)[j].record) != KeyOfRecord(Removals(i)[k].record)
    {
      FilesDifferAt(i, j, k);
    }
    hide Removals;
  }

  lemma FilesDifferAt(i: Input, j: nat, k: nat)
    requires OneRecordEach(i.records) && j < k < |Removals(i)|
    ensures KeyOfRecord(Removals(i)[j].record) != KeyOfRecord(Removals(i)[k].record)
  {
    hide *;
    var a := SeenOf(i, j);
    var b := SeenOf(i, k);
    if KeyOfRecord(Removals(i)[j].record) == KeyOfRecord(Removals(i)[k].record) {
      SameKeySameRecord(i, a, b);
      NeitherBoth(i, a);
      EachOnce(i, j, k);
    }
  }

  lemma EachOnce(i: Input, j: nat, k: nat)
    requires OneRecordEach(i.records) && j < k < |Forgotten(i)| + |Superseded(i)|
    ensures k < |Forgotten(i)| ==> Forgotten(i)[j] != Forgotten(i)[k]
    ensures j >= |Forgotten(i)| ==> Superseded(i)[j - |Forgotten(i)|] != Superseded(i)[k - |Forgotten(i)|]
  {
    OnceForgotten(i);
    hide Forgotten, Superseded, OneRecordEach;
  }

  /** The record of a removal as the rules see it: one of the forgotten, or behind them one of the superseded. */
  lemma SeenOf(i: Input, k: nat) returns (s: Seen)
    requires k < |Removals(i)|
    ensures k < |Forgotten(i)| + |Superseded(i)| && s in Clamped(i) && s.written == Removals(i)[k].record
    ensures if k < |Forgotten(i)| then s == Forgotten(i)[k] && IsForgotten(i, s)
            else s == Superseded(i)[k - |Forgotten(i)|] && IsSuperseded(i, s)
  {
    RemovalIs(i, k);
    hide Clamped, IsForgotten, IsSuperseded, StableSort;
    if k < |Forgotten(i)| {
      s := Forgotten(i)[k];
      assert s in Forgotten(i);
      SortMembers(RemovedBefore(), Filter(ForgetTest(i), Clamped(i)));
    } else {
      s := Superseded(i)[k - |Forgotten(i)|];
      assert s in Superseded(i);
    }
  }

  lemma NeitherBoth(i: Input, s: Seen)
    ensures !(IsForgotten(i, s) && IsSuperseded(i, s))
  {
  }

  // ---- One tick and its pass, whatever others write ----

  /** The event removes the file of `x`: its command answers so, or acts after the wait for it ended. */
  ghost predicate Takes(s: Remover, ev: Event, x: Removal) {
    (ev == Attempt(Removed) && HasNext(s) && NextRemoval(s) == x) || ev == Late(x)
  }

  /** From `d` on, the file of `x` was removed. */
  ghost predicate WasTaken(t: Trace, d: nat, k: nat, x: Removal)
    requires IsTrace(t) && k <= |t.events|
  {
    exists l :: d <= l < k && Takes(t.states[l], t.events[l], x)
  }

  /** From `f` on, another process changed the file. */
  ghost predicate Touched(t: Trace, f: nat, k: nat, key: FileKey)
    requires IsTrace(t) && k <= |t.events|
  {
    exists l :: f <= l < k && t.events[l].Other? && t.events[l].change.key == key
  }

  /** A removal of an earlier tick that is under way: of the pass that runs, or without an answer. */
  ghost predicate IsUnderWay(s: Remover, x: Removal) {
    x in s.pending || (s.pass.Some? && x in Removals(s.pass.value.input))
  }

  ghost predicate IsNamed(s: Remover, key: FileKey) { exists x :: IsUnderWay(s, x) && KeyOfRecord(x.record) == key }

  /** All removals of the environment of the removal `m` that come before it took their files. */
  ghost predicate InTurn(t: Trace, d: nat, k: nat, i: Input, m: nat)
    requires IsTrace(t) && k <= |t.events| && m < |Removals(i)|
  {
    forall j :: 0 <= j < m && Removals(i)[j].forget && Removals(i)[j].record.environmentId == Removals(i)[m].record.environmentId ==>
      WasTaken(t, d, k, Removals(i)[j])
  }

  ghost predicate Attempted(t: Trace, d: nat, k: nat, i: Input, x: Removal)
    requires IsTrace(t) && k <= |t.events|
  {
    exists m :: 0 <= m < |Removals(i)| && Removals(i)[m] == x && (x.forget ==> InTurn(t, d, k, i, m))
  }

  /** A removal of this decision that was in turn, or one of an earlier tick. */
  ghost predicate IsKnown(t: Trace, d: nat, k: nat, i: Input, x: Removal)
    requires IsTrace(t) && k <= |t.events|
  {
    IsUnderWay(t.states[0], x) || (d < k && Attempted(t, d, k, i, x))
  }

  /** What the pass of the decision did so far: of the environments that are not held back, every record to forget was taken. */
  ghost predicate DoneInTurn(t: Trace, d: nat, k: nat, i: Input, p: Pass)
    requires IsTrace(t) && k <= |t.events|
  {
    && p.input == i && p.next <= |Removals(i)|
    && forall m :: 0 <= m < p.next && Removals(i)[m].forget && Removals(i)[m].record.environmentId !in p.held ==>
         WasTaken(t, d, k, Removals(i)[m])
  }

  ghost predicate IsOldPass(s: Remover, p: Pass) { s.pass.Some? && p.input == s.pass.value.input }

  ghost predicate PassInv(t: Trace, d: nat, k: nat, i: Input)
    requires IsTrace(t) && k <= |t.events|
  {
    var s := t.states[k];
    && (s.decided.Some? ==> d < k && s.decided.value == i)
    && (s.pass.Some? ==> IsOldPass(t.states[0], s.pass.value) || (d < k && DoneInTurn(t, d, k, i, s.pass.value)))
    && (forall x :: x in s.pending ==> IsKnown(t, d, k, i, x))
    && (forall x :: WasTaken(t, d, k, x) ==> IsKnown(t, d, k, i, x))
  }

  lemma TakenLater(t: Trace, d: nat, k: nat, i: Input)
    requires IsTrace(t) && k < |t.events|
    ensures forall x :: WasTaken(t, d, k + 1, x) <==> WasTaken(t, d, k, x) || (d <= k && Takes(t.states[k], t.events[k], x))
    ensures forall x :: IsKnown(t, d, k, i, x) ==> IsKnown(t, d, k + 1, i, x)
  {
    hide IsTrace, Takes, Removals, IsUnderWay;
    forall x | Attempted(t, d, k, i, x)
      ensures Attempted(t, d, k + 1, i, x)
    {
      var m :| 0 <= m < |Removals(i)| && Removals(i)[m] == x && (x.forget ==> InTurn(t, d, k, i, m));
      assert x.forget ==> InTurn(t, d, k + 1, i, m);
    }
  }

  lemma NextIsKnown(t: Trace, d: nat, k: nat, i: Input)
    requires IsTrace(t) && k <= |t.events| && PassInv(t, d, k, i) && HasNext(t.states[k]) && !IsHeld(t.states[k])
    ensures IsKnown(t, d, k, i, NextRemoval(t.states[k]))
  {
    var s := t.states[k];
    var m := s.pass.value.next;
    hide IsTrace, WasTaken, Removals;
    if !IsOldPass(t.states[0], s.pass.value) {
      assert Removals(i)[m] == NextRemoval(s);
      assert NextRemoval(s).forget ==> InTurn(t, d, k, i, m);
    }
  }

  /** How a pass goes on: by the next removal, which takes its file or holds its environment back (or is held back). */
  ghost predicate OneRemovalMore(s: Remover, ev: Event, after: Pass) {
    && HasNext(s) && after.input == s.pass.value.input && after.next == s.pass.value.next + 1 && s.pass.value.held <= after.held
    && (NextRemoval(s).record.environmentId in after.held || Takes(s, ev, NextRemoval(s)))
  }

  lemma HowAPassGoesOn(s: Remover, ev: Event)
    requires Enabled(s, ev)
    ensures var after := Next(s, ev).pass;
            after.Some? ==>
              || after == s.pass
              || (s.decided.Some? && after.value == Pass(s.decided.value, 0, {}))
              || OneRemovalMore(s, ev, after.value)
  {
    hide Removals, Decide, Holds, IsStored;
  }

  lemma HowRemovalsPend(s: Remover, ev: Event)
    requires Enabled(s, ev)
    ensures Next(s, ev).decided.Some? ==> Next(s, ev).decided == s.decided || ev.DecideTick?
    ensures forall x :: x in Next(s, ev).pending ==> x in s.pending || (HasNext(s) && !IsHeld(s) && x == NextRemoval(s))
    ensures forall x :: Takes(s, ev, x) ==> x in s.pending || (HasNext(s) && !IsHeld(s) && x == NextRemoval(s))
  {
    hide Removals, Decide, Holds, IsStored;
  }

  lemma DecidesAs(s: Remover, ev: Event)
    requires Enabled(s, ev) && ev.DecideTick?
    ensures Next(s, ev).decided == Some(InputOf(s, ev.now, ev.containers))
  {
    hide Decide;
  }

  lemma DoneInTurnStep(t: Trace, d: nat, k: nat, i: Input, p: Pass)
    requires IsTrace(t) && k < |t.events| && PassInv(t, d, k, i) && OneRemovalMore(t.states[k], t.events[k], p)
    ensures IsOldPass(t.states[0], p) || (d < k && DoneInTurn(t, d, k + 1, i, p))
  {
    TakenLater(t, d, k, i);
    hide IsTrace, Removals, WasTaken, IsKnown, Takes;
  }

  lemma TakesWhatIsKnown(t: Trace, d: nat, k: nat, i: Input)
    requires IsTrace(t) && k < |t.events| && PassInv(t, d, k, i)
    ensures forall x :: Takes(t.states[k], t.events[k], x) ==> IsKnown(t, d, k, i, x)
    ensures forall x :: x in t.states[k + 1].pending ==> IsKnown(t, d, k, i, x)
  {
    var s, ev := t.states[k], t.events[k];
    assert Enabled(s, ev) && t.states[k + 1] == Next(s, ev);
    HowRemovalsPend(s, ev);
    hide IsTrace, Removals, IsKnown, Next, Enabled, Takes, WasTaken;
    if HasNext(s) && !IsHeld(s) {
      NextIsKnown(t, d, k, i);
    }
  }

  lemma PassInvStep(t: Trace, d: nat, k: nat, i: Input)
    requires IsTrace(t) && k < |t.events| && PassInv(t, d, k, i)
    requires t.events[k].DecideTick? ==> k == d && i == InputOf(t.states[k], t.events[k].now, t.events[k].containers)
    ensures PassInv(t, d, k + 1, i)
  {
    var s, ev, after := t.states[k], t.events[k], t.states[k + 1];
    assert Enabled(s, ev) && after == Next(s, ev);
    TakenLater(t, d, k, i);
    HowAPassGoesOn(s, ev);
    HowRemovalsPend(s, ev);
    if ev.DecideTick? { DecidesAs(s, ev); }
    TakesWhatIsKnown(t, d, k, i);
    hide IsTrace, Removals, WasTaken, IsKnown, Next, Enabled, Takes, HasNext, IsHeld, NextRemoval;
    if after.pass.Some? && OneRemovalMore(s, ev, after.pass.value) {
      DoneInTurnStep(t, d, k, i, after.pass.value);
    }
    var later := k + 1;
    forall x | WasTaken(t, d, later, x)
      ensures IsKnown(t, d, later, i, x)
    {
      assert WasTaken(t, d, k, x) || Takes(s, ev, x);
    }
  }

  /** What an event leaves of a file that no other process writes: it is the file of a removal, or stays as it is. */
  lemma FileStays(s: Remover, ev: Event, key: FileKey)
    requires Enabled(s, ev) && !(ev.Other? && ev.change.key == key)
    requires forall x :: Takes(s, ev, x) ==> KeyOfRecord(x.record) != key
    ensures Get(Next(s, ev).store, key) == Get(s.store, key)
  {
    hide Removals, Decide;
    if ev == Attempt(Removed) { assert Takes(s, ev, NextRemoval(s)); }
    if ev.Late? { assert Takes(s, ev, ev.removal); }
  }

  /** Since it was read at `f`, the record is still stored, or another process changed its file, or a removal of an earlier tick
      names it. */
  ghost predicate IsLeftBy(t: Trace, f: nat, k: nat, g: Record)
    requires IsTrace(t) && k <= |t.events|
  {
    Touched(t, f, k, KeyOfRecord(g)) || IsNamed(t.states[0], KeyOfRecord(g)) || Holds(t.states[k].store, g)
  }

  lemma LeftOrTakenStep(t: Trace, d: nat, f: nat, k: nat, i: Input, e: string, g: Seen)
    requires IsTrace(t) && f <= k < |t.events| && PassInv(t, d, k, i) && OneRecordEach(i.records) && GreatestOf(RecordsOf(i, e), g)
    requires IsLeftBy(t, f, k, g.written) || WasTaken(t, d, k, Removal(g.written, true))
    ensures IsLeftBy(t, f, k + 1, g.written) || WasTaken(t, d, k + 1, Removal(g.written, true))
  {
    var s, ev, key := t.states[k], t.events[k], KeyOfRecord(g.written);
    TakenLater(t, d, k, i);
    TakesWhatIsKnown(t, d, k, i);
    assert Enabled(s, ev) && t.states[k + 1] == Next(s, ev);
    hide IsTrace, Takes, Removals, WasTaken, Next, Enabled, GreatestOf, IsUnderWay;
    if Touched(t, f, k, key) || (ev.Other? && ev.change.key == key) {
      assert Touched(t, f, k + 1, key);
    } else if Holds(s.store, g.written) {
      if x :| Takes(s, ev, x) && KeyOfRecord(x.record) == key {
        if !IsUnderWay(t.states[0], x) {
          var m :| 0 <= m < |Removals(i)| && Removals(i)[m] == x;
          OnlyForgettingTakesTheGreatest(i, m, e, g);
        }
      } else {
        FileStays(s, ev, key);
      }
    }
  }

  /** One tick, from the start of its reading: it decides at `d`, and no other one up to `k`. */
  ghost predicate IsTickOf(t: Trace, d: nat, k: nat) {
    && IsTrace(t) && d < k <= |t.events| && t.states[0].reading == [] && t.states[0].decided == None
    && forall l :: 0 <= l < k ==> (t.events[l].DecideTick? <==> l == d)
  }

  function InputAt(t: Trace, d: nat): Input
    requires d < |t.events| && d < |t.states| && t.events[d].DecideTick?
  {
    InputOf(t.states[d], t.events[d].now, t.events[d].containers)
  }

  ghost predicate WasRead(t: Trace, f: nat, d: nat, r: Record)
    requires d <= |t.events|
  {
    f < d && t.events[f] == ReadFile(r)
  }

  lemma {:induction false} ReadingIs(t: Trace, d: nat)
    requires IsTrace(t) && d <= |t.events| && t.states[0].reading == [] && forall l :: 0 <= l < d ==> !t.events[l].DecideTick?
    ensures OneRecordEach(t.states[d].reading)
    ensures forall r :: r in t.states[d].reading ==> exists f :: WasRead(t, f, d, r)
  {
    if d > 0 {
      ReadingIs(t, d - 1);
      var s, ev := t.states[d - 1], t.events[d - 1];
      assert Enabled(s, ev) && t.states[d] == Next(s, ev);
      ReadingGrows(s, ev);
      hide IsTrace, Enabled, Next;
      forall r | r in t.states[d].reading
        ensures exists f :: WasRead(t, f, d, r)
      {
        if r in s.reading {
          var f :| WasRead(t, f, d - 1, r);
          assert WasRead(t, f, d, r);
        } else {
          assert WasRead(t, d - 1, d, r);
        }
      }
    }
  }

  lemma ReadingGrows(s: Remover, ev: Event)
    requires Enabled(s, ev) && !ev.DecideTick? && OneRecordEach(s.reading)
    ensures OneRecordEach(Next(s, ev).reading)
    ensures forall r :: r in Next(s, ev).reading ==> r in s.reading || ev == ReadFile(r)
  {
    hide Decide, IsStored, Removals;
    if ev.ReadFile? {
      var reading := s.reading + [ev.record];
      forall j, k | 0 <= j < k < |reading|
        ensures KeyOfRecord(reading[j]) != KeyOfRecord(reading[k])
      {
        if k == |s.reading| { assert reading[j] in s.reading; }
      }
    }
  }

  lemma PassInvStarts(t: Trace, d: nat, i: Input)
    requires IsTrace(t) && t.states[0].decided == None
    ensures PassInv(t, d, 0, i)
  {
    hide Removals, IsTrace;
  }

  lemma {:induction false} PassInvHolds(t: Trace, d: nat, j: nat, k: nat)
    requires IsTickOf(t, d, k) && j <= k
    ensures PassInv(t, d, j, InputAt(t, d))
  {
    if j == 0 {
      PassInvStarts(t, d, InputAt(t, d));
    } else {
      PassInvHolds(t, d, j - 1, k);
      hide PassInv;
      PassInvStep(t, d, j - 1, InputAt(t, d));
    }
  }

  lemma {:induction false} LeftOrTaken(t: Trace, d: nat, f: nat, j: nat, k: nat, e: string, g: Seen)
    requires IsTickOf(t, d, k) && f <= j <= k && WasRead(t, f, d, g.written)
    requires OneRecordEach(InputAt(t, d).records) && GreatestOf(RecordsOf(InputAt(t, d), e), g)
    ensures IsLeftBy(t, f, j, g.written) || WasTaken(t, d, j, Removal(g.written, true))
  {
    hide GreatestOf, RecordsOf, PassInv, WasTaken, Touched, IsNamed;
    if j == f {
      assert Enabled(t.states[f], t.events[f]);
    } else {
      LeftOrTaken(t, d, f, j - 1, k, e, g);
      PassInvHolds(t, d, j - 1, k);
      hide IsTickOf, IsTrace;
      LeftOrTakenStep(t, d, f, j - 1, InputAt(t, d), e, g);
    }
  }

  /** Since its read for the decision at `d`. */
  ghost predicate IsLeftSinceRead(t: Trace, d: nat, k: nat, g: Record)
    requires IsTrace(t) && d <= k <= |t.events|
  {
    exists f :: WasRead(t, f, d, g) && IsLeftBy(t, f, k, g)
  }

  /** Of any tick, at every moment after its decision (its pass, and removals whose wait failed, however late they act), for each
      environment with records: a newest one (time as the rules see it, then keepRunning) is still stored as it was read, or since
      its read another process changed its file, or a removal of an earlier tick names it; or every record of the environment was to
      be forgotten and is removed. */
  lemma PassKeepsTheNewest(t: Trace, d: nat, k: nat, e: string)
    requires IsTickOf(t, d, k) && RecordsOf(InputAt(t, d), e) != []
    ensures var i := InputAt(t, d);
            || (exists g :: GreatestOf(RecordsOf(i, e), g) && IsLeftSinceRead(t, d, k, g.written))
            || (forall s :: s in RecordsOf(i, e) ==> IsForgotten(i, s) && WasTaken(t, d, k, Removal(s.written, true)))
  {
    var i := InputAt(t, d);
    var rs := RecordsOf(i, e);
    ReadingIs(t, d);
    PassInvHolds(t, d, k, k);
    var g := NewestOf(rs);
    NewestIsGreatest(rs);
    forall h | GreatestOf(rs, h)
      ensures IsLeftSinceRead(t, d, k, h.written) || IsTakenInTurn(t, d, k, h.written)
    {
      SeenIsOfRecord(i, h);
      var f :| WasRead(t, f, d, h.written);
      hide GreatestOf, RecordsOf, WasTaken, Touched;
      LeftOrTaken(t, d, f, k, k, e, h);
      assert IsUnderWay(t.states[0], Removal(h.written, true)) ==> IsNamed(t.states[0], KeyOfRecord(h.written));
    }
    hide IsTrace, WasTaken, IsLeftSinceRead, IsTakenInTurn, IsTickOf, NewestOf, Removals, IsForgotten, PassInv, RecordsOf;
    if !(exists g :: GreatestOf(rs, g) && IsLeftSinceRead(t, d, k, g.written)) {
      forall s | s in rs
        ensures IsForgotten(i, s) && WasTaken(t, d, k, Removal(s.written, true))
      {
        AllAreTaken(t, d, k, i, e, g, s);
      }
    }
  }

  ghost predicate IsTakenInTurn(t: Trace, d: nat, k: nat, g: Record)
    requires IsTrace(t) && k <= |t.events|
  {
    WasTaken(t, d, k, Removal(g, true)) && !IsUnderWay(t.states[0], Removal(g, true))
  }

  lemma AllAreTaken(t: Trace, d: nat, k: nat, i: Input, e: string, g: Seen, s: Seen)
    requires IsTrace(t) && k <= |t.events| && PassInv(t, d, k, i) && OneRecordEach(i.records)
    requires GreatestOf(RecordsOf(i, e), g) && s in RecordsOf(i, e)
    requires forall h :: GreatestOf(RecordsOf(i, e), h) ==> IsTakenInTurn(t, d, k, h.written)
    ensures IsForgotten(i, s) && WasTaken(t, d, k, Removal(s.written, true))
  {
    hide IsTrace, WasTaken, Removals, IsForgotten, Clamped, IsUnderWay;
    var h := if Outranks(g, s) then g else s;
    assert GreatestOf(RecordsOf(i, e), h);
    var m :| 0 <= m < |Removals(i)| && Removals(i)[m] == Removal(h.written, true) && InTurn(t, d, k, i, m);
    OnlyForgettingTakesTheGreatest(i, m, e, h);
    if h != s {
      var j := LowerGoBefore(i, m, s);
    }
  }
}
