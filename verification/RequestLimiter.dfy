/** The limiter of parallel requests (src/core/concurrency.ts): two classes of calls, one slot that lookups leave free while
    a list is open, and slots that go on to waiting calls. */
module RequestLimiter {
  import opened Seqs

  datatype Call = Call(id: nat, lookup: bool)

  /** The fields of the limiter; for the specification also the calls that run, and those started and submitted so far. */
  datatype State = State(
    limit: int, active: int, activeLookups: int, openLists: int, waiting: seq<Call>, peak: int,
    running: set<Call>, started: seq<Call>, submitted: seq<Call>)

  function Initial(limit: int): State { State(limit, 0, 0, 0, [], 0, {}, [], []) }

  function Max(x: int, y: int): int { if x < y then y else x }

  function MaxActive(s: State): int { Max(1, s.limit) }

  function LookupLimit(s: State): int {
    if s.openLists > 0 then Max(1, MaxActive(s) - 1) else MaxActive(s)
  }

  function Lookup(lookup: bool): Call -> bool { (c: Call) => c.lookup == lookup }

  /** `findIndex`: the first call of the class, or -1. */
  function FirstOf(waiting: seq<Call>, lookup: bool): (index: int)
    ensures -1 <= index < |waiting|
    ensures index >= 0 ==> waiting[index].lookup == lookup
    ensures forall k :: 0 <= k < (if index < 0 then |waiting| else index) ==> waiting[k].lookup != lookup
  {
    if waiting == [] then -1
    else if waiting[0].lookup == lookup then 0
    else
      var index := FirstOf(waiting[1..], lookup);
      if index < 0 then -1 else index + 1
  }

  /** The waiting call that may start now: the first that is no lookup, else the first lookup while its limit allows one. */
  function Startable(s: State): (index: int)
    ensures -1 <= index < |s.waiting|
  {
    if s.active >= MaxActive(s) then -1
    else if FirstOf(s.waiting, false) >= 0 then FirstOf(s.waiting, false)
    else if s.activeLookups < LookupLimit(s) then FirstOf(s.waiting, true)
    else -1
  }

  function Without(waiting: seq<Call>, index: int): seq<Call>
    requires 0 <= index < |waiting|
  {
    waiting[..index] + waiting[index + 1..]
  }

  function Start(s: State, index: int): State
    requires 0 <= index < |s.waiting|
  {
    var call := s.waiting[index];
    s.(waiting := Without(s.waiting, index),
       active := s.active + 1,
       activeLookups := s.activeLookups + (if call.lookup then 1 else 0),
       peak := Max(s.peak, s.active + 1),
       running := s.running + {call},
       started := s.started + [call])
  }

  function Pump(s: State): State
    decreases |s.waiting|
  {
    if Startable(s) < 0 then s else Pump(Start(s, Startable(s)))
  }

  datatype Event = Submit(call: Call) | Finish(call: Call) | OpenList | CloseList

  predicate Enabled(s: State, ev: Event) {
    match ev
    case Submit(call) => call !in s.submitted
    case Finish(call) => call in s.running
    case OpenList => true
    // Each list is closed at most once: a second call of its function does nothing.
    case CloseList => s.openLists > 0
  }

  function Submitted(s: State, call: Call): State {
    s.(waiting := s.waiting + [call], submitted := s.submitted + [call])
  }

  function Finished(s: State, call: Call): State {
    s.(active := s.active - 1, activeLookups := s.activeLookups - (if call.lookup then 1 else 0), running := s.running - {call})
  }

  function Next(s: State, ev: Event): State {
    match ev
    case Submit(call) => Pump(Submitted(s, call))
    case Finish(call) => Pump(Finished(s, call))
    case OpenList => s.(openLists := s.openLists + 1)
    case CloseList => Pump(s.(openLists := s.openLists - 1))
  }

  predicate LookupIdle(s: State) {
    s.active < MaxActive(s) && s.activeLookups < LookupLimit(s) && !exists call :: call in s.waiting && call.lookup
  }

  // ---- The class ----

  class Limiter {
    const limit: int
    var active: int
    var activeLookups: int
    var openLists: int
    var waiting: seq<Call>
    var peak: int
    ghost var running: set<Call>
    ghost var started: seq<Call>
    ghost var submitted: seq<Call>

    ghost function View(): State
      reads this
    {
      State(limit, active, activeLookups, openLists, waiting, peak, running, started, submitted)
    }

    constructor (limit: int)
      ensures View() == Initial(limit)
    {
      this.limit := limit;
      active, activeLookups, openLists, waiting, peak := 0, 0, 0, [], 0;
      running, started, submitted := {}, [], [];
    }

    function Most(): int { Max(1, limit) }

    function MostLookups(): int
      reads this
    {
      if openLists > 0 then Max(1, Most() - 1) else Most()
    }

    /** Starts waiting calls while slots are free. */
    method PumpAll()
      modifies this
      ensures View() == Pump(old(View()))
    {
      while active < Most()
        invariant Pump(View()) == Pump(old(View()))
        decreases |waiting|
      {
        var index := FirstOf(waiting, false);
        if index < 0 && activeLookups < MostLookups() {
          index := FirstOf(waiting, true);
        }
        if index < 0 {
          return;
        }
        assert index == Startable(View());
        StartAt(index);
      }
    }

    method StartAt(index: int)
      requires 0 <= index < |waiting|
      modifies this
      ensures View() == Start(old(View()), index)
    {
      hide Without;
      var entry := waiting[index];
      waiting := Without(waiting, index);
      active := active + 1;
      if entry.lookup {
        activeLookups := activeLookups + 1;
      }
      peak := Max(peak, active);
      running, started := running + {entry}, started + [entry];
    }

    method Run(call: Call)
      requires Enabled(View(), Submit(call))
      modifies this
      ensures View() == Next(old(View()), Submit(call))
    {
      hide Pump;
      waiting := waiting + [call];
      submitted := submitted + [call];
      PumpAll();
    }

    method Finished(call: Call)
      requires Enabled(View(), Finish(call))
      modifies this
      ensures View() == Next(old(View()), Finish(call))
    {
      hide Pump;
      active := active - 1;
      if call.lookup {
        activeLookups := activeLookups - 1;
      }
      running := running - {call};
      PumpAll();
    }

    method Open()
      modifies this
      ensures View() == Next(old(View()), OpenList)
    {
      openLists := openLists + 1;
    }

    /** The function that `openList` returns; `closed` is its own flag. */
    method Close(closed: bool) returns (closedNow: bool)
      requires !closed ==> Enabled(View(), CloseList)
      modifies this
      ensures closedNow
      ensures View() == if closed then old(View()) else Next(old(View()), CloseList)
    {
      hide Pump;
      closedNow := true;
      if closed { return; }
      openLists := openLists - 1;
      PumpAll();
    }
  }

  // ---- One pump ----

  function Waiting(s: State, lookup: bool): seq<Call> { Filter(Lookup(lookup), s.waiting) }

  lemma FirstAndRest(waiting: seq<Call>, lookup: bool)
    requires FirstOf(waiting, lookup) >= 0
    ensures var index := FirstOf(waiting, lookup);
            && Filter(Lookup(lookup), waiting) == [waiting[index]] + Filter(Lookup(lookup), Without(waiting, index))
            && Filter(Lookup(!lookup), waiting) == Filter(Lookup(!lookup), Without(waiting, index))
  {
    hide Filter, FirstOf;
    var index := FirstOf(waiting, lookup);
    var before, x, after := waiting[..index], waiting[index], waiting[index + 1..];
    assert waiting == before + [x] + after && Without(waiting, index) == before + after;
    hide Without;
    FilterMiddle(Lookup(lookup), before, x, after);
    FilterMiddle(Lookup(!lookup), before, x, after);
    FilterNone(Lookup(lookup), before);
  }

  lemma NoneOf(waiting: seq<Call>, lookup: bool)
    requires FirstOf(waiting, lookup) < 0
    ensures Filter(Lookup(lookup), waiting) == []
  {
    FilterNone(Lookup(lookup), waiting);
  }

  /** The calls of a class that started and those that wait, in this order. */
  function InOrder(s: State, lookup: bool): seq<Call> { Filter(Lookup(lookup), s.started) + Waiting(s, lookup) }

  lemma StartKeepsOrder(s: State, index: int)
    requires index == Startable(s) >= 0
    ensures forall b :: InOrder(Start(s, index), b) == InOrder(s, b)
    ensures Waiting(s, s.waiting[index].lookup) == [s.waiting[index]] + Waiting(Start(s, index), s.waiting[index].lookup)
    ensures Waiting(s, !s.waiting[index].lookup) == Waiting(Start(s, index), !s.waiting[index].lookup)
  {
    hide Filter, FirstOf, Without;
    var c := s.waiting[index];
    assert FirstOf(s.waiting, c.lookup) == index;
    hide Startable;
    FirstAndRest(s.waiting, c.lookup);
    FilterSnoc(Lookup(c.lookup), s.started, c);
    FilterSnoc(Lookup(!c.lookup), s.started, c);
    forall b
      ensures InOrder(Start(s, index), b) == InOrder(s, b)
    {
      assert b == c.lookup || b == !c.lookup;
    }
  }

  ghost predicate NothingStartable(s: State) { Startable(s) < 0 }

  /** What a pump does: it starts calls in the order of each class and never above the limits, and leaves none that could
      start. */
  lemma {:induction false} PumpStarts(s: State)
    ensures NothingStartable(Pump(s))
    ensures forall b :: InOrder(Pump(s), b) == InOrder(s, b)
    ensures Pump(s).active <= Max(s.active, MaxActive(s))
    ensures Pump(s).activeLookups <= Max(s.activeLookups, LookupLimit(s))
    ensures Pump(s).limit == s.limit && Pump(s).openLists == s.openLists && Pump(s).submitted == s.submitted
    decreases |s.waiting|
  {
    var index := Startable(s);
    if index >= 0 {
      StartKeepsOrder(s, index);
      PumpStarts(Start(s, index));
      hide InOrder, FirstOf;
    }
  }

  /** A pump starts the first waiting calls that are no lookups, as many as slots are free. */
  lemma {:induction false} PumpStartsOthers(s: State)
    ensures var free := Max(0, MaxActive(s) - s.active);
            var others := Waiting(s, false);
            Waiting(Pump(s), false) == if free <= |others| then others[free..] else []
    decreases |s.waiting|
  {
    hide Waiting, Filter;
    if Startable(s) >= 0 {
      StartKeepsOrder(s, Startable(s));
      PumpStartsOthers(Start(s, Startable(s)));
      if !s.waiting[Startable(s)].lookup {
      } else {
        NoneOf(s.waiting, false);
        assert Waiting(s, false) == [] by { WaitingIsFilter(s, false); }
      }
    } else if s.active < MaxActive(s) {
      NoneOf(s.waiting, false);
      WaitingIsFilter(s, false);
    }
  }

  lemma WaitingIsFilter(s: State, lookup: bool)
    ensures Waiting(s, lookup) == Filter(Lookup(lookup), s.waiting)
  {
  }

  // ---- What every event keeps ----

  ghost predicate Counts(s: State) {
    && s.active == |s.running|
    && s.activeLookups == |set c | c in s.running && c.lookup|
    && s.running <= (set c | c in s.started)
    && (forall c :: c in s.waiting ==> c !in s.started)
    && NoDuplicates(s.waiting)
    && (forall c :: c in s.submitted <==> c in s.started || c in s.waiting)
  }

  ghost predicate Inv(s: State) {
    && Counts(s)
    && 0 <= s.openLists && s.active <= MaxActive(s) && s.active <= s.peak <= MaxActive(s)
    && NothingStartable(s)
    && forall b :: InOrder(s, b) == Filter(Lookup(b), s.submitted)
  }

  lemma StartKeepsCounts(s: State, index: int)
    requires Counts(s) && 0 <= index < |s.waiting|
    ensures Counts(Start(s, index))
  {
    var c, next := s.waiting[index], Start(s, index);
    assert c in s.waiting;
    var lookups := set x | x in s.running && x.lookup;
    assert (set x | x in next.running && x.lookup) == if c.lookup then lookups + {c} else lookups;
    assert forall x :: x in next.waiting ==> x in s.waiting && x != c;
    assert forall x :: x in s.waiting ==> x == c || x in next.waiting;
  }

  lemma {:induction false} PumpKeepsCounts(s: State)
    requires Counts(s) && s.active <= s.peak <= MaxActive(s)
    ensures Counts(Pump(s))
    ensures Pump(s).active <= Pump(s).peak <= MaxActive(s)
    decreases |s.waiting|
  {
    hide Counts;
    if Startable(s) >= 0 {
      StartKeepsCounts(s, Startable(s));
      PumpKeepsCounts(Start(s, Startable(s)));
    }
  }

  lemma FinishKeepsCounts(s: State, call: Call)
    requires Counts(s) && call in s.running
    ensures Counts(Finished(s, call))
  {
    var next := Finished(s, call);
    var lookups := set x | x in s.running && x.lookup;
    assert (set x | x in next.running && x.lookup) == if call.lookup then lookups - {call} else lookups;
  }

  lemma SubmitKeepsCounts(s: State, call: Call)
    requires Counts(s) && call !in s.submitted
    ensures Counts(Submitted(s, call))
    ensures forall b :: InOrder(s, b) == Filter(Lookup(b), s.submitted) ==>
              InOrder(Submitted(s, call), b) == Filter(Lookup(b), Submitted(s, call).submitted)
  {
    forall b | InOrder(s, b) == Filter(Lookup(b), s.submitted)
      ensures InOrder(Submitted(s, call), b) == Filter(Lookup(b), Submitted(s, call).submitted)
    {
      FilterSnoc(Lookup(b), s.waiting, call);
      FilterSnoc(Lookup(b), s.submitted, call);
    }
  }

  lemma StepKeepsInv(s: State, ev: Event)
    requires Inv(s) && Enabled(s, ev)
    ensures Inv(Next(s, ev))
  {
    hide Counts, Filter, Pump, NothingStartable;
    match ev
    case Submit(call) =>
      SubmitKeepsCounts(s, call);
      PumpKeepsInv(Submitted(s, call));
    case Finish(call) =>
      FinishKeepsCounts(s, call);
      assert forall b :: InOrder(Finished(s, call), b) == InOrder(s, b);
      PumpKeepsInv(Finished(s, call));
    case OpenList =>
      OpenKeepsInv(s);
    case CloseList =>
      var t := s.(openLists := s.openLists - 1);
      CloseKeepsCounts(s);
      assert forall b :: InOrder(t, b) == InOrder(s, b);
      PumpKeepsInv(t);
  }

  lemma OpenKeepsInv(s: State)
    requires Inv(s)
    ensures Inv(s.(openLists := s.openLists + 1))
  {
    var t := s.(openLists := s.openLists + 1);
    assert Counts(t);
    hide Counts, Filter, FirstOf;
    assert forall b :: InOrder(t, b) == InOrder(s, b);
  }

  lemma CloseKeepsCounts(s: State)
    requires Counts(s)
    ensures Counts(s.(openLists := s.openLists - 1))
  {
  }

  lemma PumpKeepsInv(s: State)
    requires Counts(s) && 0 <= s.openLists && s.active <= MaxActive(s) && s.active <= s.peak <= MaxActive(s)
    requires forall b :: InOrder(s, b) == Filter(Lookup(b), s.submitted)
    ensures Inv(Pump(s))
  {
    PumpKeepsCounts(s);
    PumpStarts(s);
    hide Counts, InOrder, NothingStartable, Pump;
  }

  // ---- Every run ----

  function RunAll(s: State, evs: seq<Event>): Option<State> {
    if evs == [] then Some(s) else
    var before := RunAll(s, evs[..|evs| - 1]);
    if before.Some? && Enabled(before.value, evs[|evs| - 1]) then Some(Next(before.value, evs[|evs| - 1])) else None
  }

  lemma {:induction false} InvHolds(s: State, evs: seq<Event>)
    requires Inv(s) && RunAll(s, evs).Some?
    ensures Inv(RunAll(s, evs).value)
  {
    hide Inv, Next;
    if evs != [] {
      InvHolds(s, evs[..|evs| - 1]);
      StepKeepsInv(RunAll(s, evs[..|evs| - 1]).value, evs[|evs| - 1]);
    }
  }

  lemma InitialInv(limit: int)
    ensures Inv(Initial(limit))
  {
  }

  /** After every sequence of calls: never more than the limit run (one, when it is less), and `active` counts them; nothing that
      could start waits, a lookup only while no slot is free but the one that an open list keeps; each class starts in the order of
      its calls. */
  lemma Scheduling(limit: int, evs: seq<Event>)
    requires RunAll(Initial(limit), evs).Some?
    ensures var s := RunAll(Initial(limit), evs).value;
            var most: nat := if limit < 1 then 1 else limit;
            var lookups: nat := if s.openLists > 0 && most > 1 then most - 1 else most;
            && s.active == |s.running| <= most && s.peak <= most
            && s.activeLookups == |set c | c in s.running && c.lookup|
            && (s.active < most ==> forall c :: c in s.waiting ==> c.lookup)
            && (s.active < most && s.activeLookups < lookups ==> s.waiting == [])
            && (forall c :: c in s.submitted <==> c in s.started || c in s.waiting)
            && (forall b :: Filter(Lookup(b), s.started) <= Filter(Lookup(b), s.submitted))
  {
    InitialInv(limit);
    InvHolds(Initial(limit), evs);
    var s := RunAll(Initial(limit), evs).value;
    LimitStays(Initial(limit), evs);
    if s.active < MaxActive(s) {
      NoneOf(s.waiting, false);
    }
    forall b
      ensures Filter(Lookup(b), s.started) <= Filter(Lookup(b), s.submitted)
    {
      assert InOrder(s, b) == Filter(Lookup(b), s.submitted);
    }
  }

  lemma {:induction false} LimitStays(s: State, evs: seq<Event>)
    requires RunAll(s, evs).Some?
    ensures RunAll(s, evs).value.limit == s.limit
  {
    if evs != [] {
      var before, ev := RunAll(s, evs[..|evs| - 1]).value, evs[|evs| - 1];
      LimitStays(s, evs[..|evs| - 1]);
      match ev
      case Submit(call) => PumpStarts(Submitted(before, call));
      case Finish(call) => PumpStarts(Finished(before, call));
      case OpenList =>
      case CloseList => PumpStarts(before.(openLists := before.openLists - 1));
    }
  }

  /** A lookup starts only below the limit in force: an event that starts one leaves at most that many, which while a list is open is
      one less than the slots (if there is more than one). */
  lemma LookupsStayBelowTheirLimit(s: State, ev: Event)
    requires Inv(s) && Enabled(s, ev)
    ensures var next, most: nat := Next(s, ev), if s.limit < 1 then 1 else s.limit;
            (exists c :: c in next.started && c !in s.started && c.lookup) ==>
              next.activeLookups <= if next.openLists > 0 && most > 1 then most - 1 else most
  {
    hide Inv, Pump;
    match ev
    case Submit(call) => PumpLookups(Submitted(s, call));
    case Finish(call) => PumpLookups(Finished(s, call));
    case OpenList =>
    case CloseList => PumpLookups(s.(openLists := s.openLists - 1));
  }

  /** The slot of the lists: once fewer lookups run than there are slots, this stays so as long as a list is open, and then a call
      that is no lookup starts at once unless others of its kind hold all the slots that are left. */
  lemma {:induction false} ASlotStaysFree(s: State, evs: seq<Event>)
    requires Inv(s) && s.limit > 1 && s.activeLookups < s.limit && AListIsOpen(s, evs)
    ensures RunAll(s, evs).Some?
    ensures var after := RunAll(s, evs).value;
            && after.activeLookups < s.limit
            && forall call: Call :: !call.lookup && call !in after.submitted && after.active == after.activeLookups ==>
                 call in Next(after, Submit(call)).started
  {
    LookupsLeaveASlot(s, evs);
    var after := RunAll(s, evs).value;
    forall call: Call | !call.lookup && call !in after.submitted && after.active == after.activeLookups
      ensures call in Next(after, Submit(call)).started
    {
      InvHolds(s, evs);
      StartsAtOnce(after, call);
    }
  }

  /** The calls of `evs` can be made from `s`, and a list is open at every moment. */
  predicate AListIsOpen(s: State, evs: seq<Event>) {
    RunAll(s, evs).Some? && RunAll(s, evs).value.openLists > 0 && (evs != [] ==> AListIsOpen(s, evs[..|evs| - 1]))
  }

  lemma {:induction false} LookupsLeaveASlot(s: State, evs: seq<Event>)
    requires s.limit > 1 && s.activeLookups < s.limit && AListIsOpen(s, evs)
    ensures RunAll(s, evs).value.activeLookups < s.limit && RunAll(s, evs).value.limit == s.limit
  {
    LimitStays(s, evs);
    if evs != [] {
      LookupsLeaveASlot(s, evs[..|evs| - 1]);
      StepLeavesASlot(RunAll(s, evs[..|evs| - 1]).value, evs[|evs| - 1]);
      hide Next;
    }
  }

  lemma StepLeavesASlot(s: State, ev: Event)
    ensures var next := Next(s, ev);
            next.limit == s.limit
            && (s.limit > 1 && s.activeLookups < s.limit && next.openLists > 0 ==> next.activeLookups < s.limit)
  {
    hide InOrder, NothingStartable, Pump;
    match ev
    case Submit(call) => PumpStarts(Submitted(s, call));
    case Finish(call) => PumpStarts(Finished(s, call));
    case OpenList =>
    case CloseList => PumpStarts(s.(openLists := s.openLists - 1));
  }

  lemma StartsAtOnce(s: State, call: Call)
    requires Inv(s) && s.active < s.limit && !call.lookup && call !in s.submitted
    ensures call in Next(s, Submit(call)).started
  {
    var t, next := Submitted(s, call), Next(s, Submit(call));
    StepKeepsInv(s, Submit(call));
    NoneOf(s.waiting, false);
    FilterSnoc(Lookup(false), s.waiting, call);
    PumpStartsOthers(t);
    PumpStarts(t);
    hide Pump, FirstOf, Filter, InOrder, NothingStartable;
    assert call in next.waiting ==> call in Waiting(next, false);
  }

  lemma {:induction false} PumpLookups(s: State)
    ensures (exists c :: c in Pump(s).started && c !in s.started && c.lookup) ==> Pump(s).activeLookups <= LookupLimit(s)
    ensures LookupLimit(Pump(s)) == LookupLimit(s) && Pump(s).limit == s.limit && Pump(s).openLists == s.openLists
    decreases |s.waiting|
  {
    if Startable(s) >= 0 {
      var next := Start(s, Startable(s));
      PumpLookups(next);
      PumpStarts(next);
      hide Pump;
    }
  }

  /** `lookupIdle()` says exactly whether a lookup submitted now would start at once. */
  lemma LookupIdleIsExact(s: State, call: Call)
    requires Inv(s) && call.lookup && call !in s.submitted
    ensures LookupIdle(s) <==> call in Next(s, Submit(call)).started
  {
    var t := Submitted(s, call);
    assert forall k :: 0 <= k < |s.waiting| ==> s.waiting[k] in s.waiting;
    if s.active < MaxActive(s) {
      NoneOf(s.waiting, false);
      if exists c :: c in s.waiting && c.lookup {
        assert FirstOf(s.waiting, true) >= 0;
        StartableWithMore(s, call);
        assert Pump(t) == t;
      } else if s.activeLookups < LookupLimit(s) {
        assert t.waiting == [call];
        assert FirstOf([call], true) == 0 && FirstOf([call], false) < 0;
        assert Startable(t) == 0;
        assert Start(t, 0).started[|s.started|] == call;
        PumpKeepsStarted(Start(t, 0));
      } else {
        StartableWithMore(s, call);
      }
    }
  }

  lemma StartableWithMore(s: State, call: Call)
    requires call.lookup && NothingStartable(s) && s.activeLookups >= LookupLimit(s)
    ensures Startable(Submitted(s, call)) < 0
  {
    var t := Submitted(s, call);
    if s.active < MaxActive(s) {
      assert forall k :: 0 <= k < |t.waiting| ==> t.waiting[k].lookup;
    }
  }

  // ---- The wait of a call that is no lookup ----

  function Finishes(evs: seq<Event>): nat {
    if evs == [] then 0 else Finishes(evs[..|evs| - 1]) + if evs[|evs| - 1].Finish? then 1 else 0
  }

  /** One event: the waiting calls that are no lookups lose their first one when a call finishes, and only then; a new call
      comes last. */
  lemma OthersMoveUp(s: State, ev: Event)
    requires Inv(s) && Enabled(s, ev) && Waiting(s, false) != []
    ensures var others, after := Waiting(s, false), Waiting(Next(s, ev), false);
            if ev.Finish? then after == others[1..]
            else others <= after
  {
    assert s.active == MaxActive(s) by {
      if s.active < MaxActive(s) { NoneOf(s.waiting, false); }
    }
    match ev
    case Submit(call) =>
      PumpStartsOthers(Submitted(s, call));
      FilterSnoc(Lookup(false), s.waiting, call);
    case Finish(call) => PumpStartsOthers(Finished(s, call));
    case OpenList =>
    case CloseList => PumpStartsOthers(s.(openLists := s.openLists - 1));
  }

  /** A waiting call that is no lookup, with `p` such calls before it, has started after `p + 1` more completions at the
      latest, whatever else is submitted, opened or closed in between. */
  lemma {:induction false} WaitIsBounded(s: State, evs: seq<Event>, p: nat)
    requires Inv(s) && RunAll(s, evs).Some? && p < |Waiting(s, false)|
    ensures var call, after := Waiting(s, false)[p], RunAll(s, evs).value;
            if Finishes(evs) > p then call in after.started
            else p - Finishes(evs) < |Waiting(after, false)| && Waiting(after, false)[p - Finishes(evs)] == call
  {
    hide Inv, Next, Waiting;
    if evs != [] {
      var init, ev := evs[..|evs| - 1], evs[|evs| - 1];
      var before := RunAll(s, init).value;
      var call := Waiting(s, false)[p];
      WaitIsBounded(s, init, p);
      InvHolds(s, init);
      StartedStay(before, ev);
      if Finishes(init) <= p {
        OthersMoveUp(before, ev);
        if ev.Finish? && Finishes(init) == p {
          FirstStarts(before, ev);
        }
      }
    }
  }

  lemma StartedStay(s: State, ev: Event)
    requires Inv(s) && Enabled(s, ev)
    ensures forall c :: c in s.started ==> c in Next(s, ev).started
  {
    StepKeepsInv(s, ev);
    match ev
    case Submit(call) => PumpKeepsStarted(Submitted(s, call));
    case Finish(call) => PumpKeepsStarted(Finished(s, call));
    case OpenList =>
    case CloseList => PumpKeepsStarted(s.(openLists := s.openLists - 1));
  }

  lemma {:induction false} PumpKeepsStarted(s: State)
    ensures s.started <= Pump(s).started
    decreases |s.waiting|
  {
    if Startable(s) >= 0 {
      PumpKeepsStarted(Start(s, Startable(s)));
    }
  }

  lemma FirstStarts(s: State, ev: Event)
    requires Inv(s) && Enabled(s, ev) && ev.Finish? && Waiting(s, false) != []
    ensures Waiting(s, false)[0] in Next(s, ev).started
  {
    var c, next := Waiting(s, false)[0], Next(s, ev);
    OthersMoveUp(s, ev);
    StepKeepsInv(s, ev);
    assert c in s.waiting && !c.lookup;
    SubmittedStay(s, ev);
    FilterNoDuplicates(Lookup(false), s.waiting);
    assert c !in Waiting(next, false);
  }

  lemma SubmittedStay(s: State, ev: Event)
    ensures forall c :: c in s.submitted ==> c in Next(s, ev).submitted
  {
    match ev
    case Submit(call) => PumpStarts(Submitted(s, call));
    case Finish(call) => PumpStarts(Finished(s, call));
    case OpenList =>
    case CloseList => PumpStarts(s.(openLists := s.openLists - 1));
  }

  // ---- What is counted ----

  function Lists(evs: seq<Event>): int {
    if evs == [] then 0
    else Lists(evs[..|evs| - 1]) + if evs[|evs| - 1].OpenList? then 1 else if evs[|evs| - 1].CloseList? then -1 else 0
  }

  /** The open lists are those that were opened and not closed yet. */
  lemma {:induction false} ListsAreCounted(limit: int, evs: seq<Event>)
    requires RunAll(Initial(limit), evs).Some?
    ensures RunAll(Initial(limit), evs).value.openLists == Lists(evs)
  {
    hide Pump;
    if evs != [] {
      var before, ev := RunAll(Initial(limit), evs[..|evs| - 1]).value, evs[|evs| - 1];
      ListsAreCounted(limit, evs[..|evs| - 1]);
      match ev
      case Submit(call) => PumpStarts(Submitted(before, call));
      case Finish(call) => PumpStarts(Finished(before, call));
      case OpenList =>
      case CloseList => PumpStarts(before.(openLists := before.openLists - 1));
    }
  }

  lemma {:induction false} PumpPeak(s: State)
    requires s.active <= s.peak
    ensures Pump(s).peak == Max(s.peak, Pump(s).active) && s.active <= Pump(s).active
    decreases |s.waiting|
  {
    hide Startable;
    if Startable(s) >= 0 { PumpPeak(Start(s, Startable(s))); }
  }

  lemma PeakInStep(s: State, ev: Event)
    requires s.active <= s.peak
    ensures Next(s, ev).peak == Max(s.peak, Next(s, ev).active)
  {
    hide Pump;
    match ev
    case Submit(call) => PumpPeak(Submitted(s, call));
    case Finish(call) => PumpPeak(Finished(s, call));
    case OpenList =>
    case CloseList => PumpPeak(s.(openLists := s.openLists - 1));
  }

  /** The most calls that ran at one of the moments between the events. */
  function MostActive(limit: int, evs: seq<Event>): int
    requires RunAll(Initial(limit), evs).Some?
  {
    if evs == [] then 0 else Max(MostActive(limit, evs[..|evs| - 1]), RunAll(Initial(limit), evs).value.active)
  }

  /** The peak is the most calls that ran at the same time. */
  lemma {:induction false} PeakIsTheMost(limit: int, evs: seq<Event>)
    requires RunAll(Initial(limit), evs).Some?
    ensures RunAll(Initial(limit), evs).value.peak == MostActive(limit, evs)
    ensures RunAll(Initial(limit), evs).value.active <= MostActive(limit, evs)
  {
    if evs != [] {
      PeakIsTheMost(limit, evs[..|evs| - 1]);
      PeakInStep(RunAll(Initial(limit), evs[..|evs| - 1]).value, evs[|evs| - 1]);
      hide Next;
    }
  }
}
