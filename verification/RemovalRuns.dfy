/** The removals of old records in the background (src/remoteMonitor/main.ts): one pass at a time, which goes on while ticks read
    and decide, and whose commands may act long after the wait for them ended. Each await ends a step. */
module RemovalRuns {
  import opened Seqs
  import opened MonitorRules
  import opened HeartbeatRecords

  /** A record to remove, as the tick read it; `forget`: no container of its environment exists (else: superseded). */
  datatype Removal = Removal(record: Record, forget: bool)

  function ToForget(): Record -> Removal { (r: Record) => Removal(r, true) }

  function ToSupersede(): Record -> Removal { (r: Record) => Removal(r, false) }

  /** The list of a pass: first the forgotten records, then the superseded ones. */
  function RemovalsOf(d: Decision): seq<Removal> { Map(ToForget(), d.forget) + Map(ToSupersede(), d.superseded) }

  function Removals(i: Input): seq<Removal> { RemovalsOf(Decide(i)) }

  /** The pass that runs: the input of its decision, how many removals are done, and the environments of those that did not
      remove their record. */
  datatype Pass = Pass(input: Input, next: nat, held: set<string>)

  /** What the command of a removal answers; without an answer within its time it may still act at any later moment. */
  datatype Answer = Removed | NotRemoved | NoAnswer

  /** What another process does to a file. */
  datatype Change = Put(key: FileKey, stored: Stored) | Drop(key: FileKey)

  /** The volume and the monitor. `reading`: the records that the tick has read so far; `decided`: the tick has decided and has not
      ended; `pending`: the removals without an answer. */
  datatype Remover = Remover(
    store: Store, reading: seq<Record>, state: State, timing: Timing, decided: Option<Input>, pass: Option<Pass>, pending: set<Removal>)

  datatype Event =
    | Other(change: Change)
    | MonitorDies
    | ReadFile(record: Record)
    | DecideTick(now: int, containers: seq<Container>)
    | EndTick
    | Attempt(answer: Answer)
    | Skip
    | EndPass
    | Late(removal: Removal)

  function ChangeStore(store: Store, change: Change): Store {
    match change
    case Put(key, stored) => store[key := stored]
    case Drop(key) => store - {key}
  }

  function Without(store: Store, r: Record): Store { store - {KeyOfRecord(r)} }

  predicate HasNext(s: Remover) { s.pass.Some? && s.pass.value.next < |Removals(s.pass.value.input)| }

  function NextRemoval(s: Remover): Removal
    requires HasNext(s)
  {
    Removals(s.pass.value.input)[s.pass.value.next]
  }

  /** A record to forget stays when one of its environment before it was not removed. */
  predicate IsHeld(s: Remover)
    requires HasNext(s)
  {
    NextRemoval(s).forget && NextRemoval(s).record.environmentId in s.pass.value.held
  }

  predicate Enabled(s: Remover, ev: Event) {
    match ev
    case Other(_) => true
    case MonitorDies => true
    case ReadFile(r) => s.decided.None? && IsStored(s.store, r) && forall x :: x in s.reading ==> KeyOfRecord(x) != KeyOfRecord(r)
    case DecideTick(_, _) => s.decided.None?
    case EndTick => s.decided.Some?
    case Attempt(answer) => HasNext(s) && !IsHeld(s) && (answer.Removed? ==> Holds(s.store, NextRemoval(s).record))
    case Skip => HasNext(s) && IsHeld(s)
    case EndPass => s.pass.Some? && !HasNext(s)
    case Late(x) => x in s.pending && Holds(s.store, x.record)
  }

  function InputOf(s: Remover, now: int, containers: seq<Container>): Input { Input(now, containers, s.reading, s.state, s.timing) }

  /** The end of a tick starts a pass, unless one runs. */
  function AfterTick(s: Remover): Remover
    requires s.decided.Some?
  {
    s.(decided := None, pass := if s.pass.Some? then s.pass else Some(Pass(s.decided.value, 0, {})))
  }

  function AfterAttempt(s: Remover, answer: Answer): Remover
    requires HasNext(s)
  {
    var p, x := s.pass.value, NextRemoval(s);
    match answer
    case Removed => s.(store := Without(s.store, x.record), pass := Some(p.(next := p.next + 1)))
    case NotRemoved => s.(pass := Some(Pass(p.input, p.next + 1, p.held + {x.record.environmentId})))
    case NoAnswer =>
      s.(pass := Some(Pass(p.input, p.next + 1, p.held + {x.record.environmentId})), pending := s.pending + {x})
  }

  function Next(s: Remover, ev: Event): Remover
    requires Enabled(s, ev)
  {
    match ev
    case Other(change) => s.(store := ChangeStore(s.store, change))
    case MonitorDies => s.(reading := [], state := INITIAL_STATE, decided := None, pass := None)
    case ReadFile(r) => s.(reading := s.reading + [r])
    case DecideTick(now, cs) =>
      s.(reading := [], state := Decide(InputOf(s, now, cs)).state, decided := Some(InputOf(s, now, cs)))
    case EndTick => AfterTick(s)
    case Attempt(answer) => AfterAttempt(s, answer)
    case Skip => s.(pass := Some(s.pass.value.(next := s.pass.value.next + 1)))
    case EndPass => s.(pass := None)
    case Late(x) => s.(store := Without(s.store, x.record))
  }

  /** When the monitor ends, nothing of its tick and of its pass is left but the commands without an answer. */
  lemma DyingMeans(s: Remover)
    ensures Next(s, MonitorDies) == Remover(s.store, [], State(None, None, map[]), s.timing, None, None, s.pending)
  {
  }

  datatype Trace = Trace(states: seq<Remover>, events: seq<Event>)

  ghost predicate IsTrace(t: Trace) {
    && |t.states| == |t.events| + 1
    && forall k :: 0 <= k < |t.events| ==> Enabled(t.states[k], t.events[k]) && t.states[k + 1] == Next(t.states[k], t.events[k])
  }

  lemma OneStepMore(t: Trace, ev: Event)
    requires IsTrace(t) && Enabled(t.states[|t.events|], ev)
    ensures IsTrace(Trace(t.states + [Next(t.states[|t.events|], ev)], t.events + [ev]))
  {
    hide Enabled, Next;
  }

  // ---- The loop of a pass ----

  /** How an attempt goes: the command runs and answers (a file that it cannot read counts as changed), or gives no answer. */
  datatype Outcome = Answers(readable: bool) | Fails

  predicate Elsewhere(ev: Event) { ev.Other? || ev.ReadFile? || ev.DecideTick? || ev.EndTick? || ev.Late? }

  /** What happens elsewhere, as far as it can. */
  function AfterAll(s: Remover, evs: seq<Event>): Remover {
    if evs == [] then s
    else
      var before, ev := AfterAll(s, evs[..|evs| - 1]), evs[|evs| - 1];
      if Elsewhere(ev) && Enabled(before, ev) then Next(before, ev) else before
  }

  /** What the command of the next removal answers. */
  function AnswerOf(s: Remover, outcome: Outcome): Answer
    requires HasNext(s)
  {
    if outcome == Fails then NoAnswer
    else if outcome == Answers(true) && HasTime(s.store, NextRemoval(s).record) then Removed else NotRemoved
  }

  /** One removal: it is held back, or others act and then its command does. */
  function AfterOne(s: Remover, evs: seq<Event>, outcome: Outcome): Remover {
    if !HasNext(s) then s
    else if IsHeld(s) then s.(pass := Some(s.pass.value.(next := s.pass.value.next + 1)))
    else
      var t := AfterAll(s, evs);
      if HasNext(t) then AfterAttempt(t, AnswerOf(t, outcome)) else t
  }

  function AfterRemovals(s: Remover, meanwhile: nat -> seq<Event>, outcomes: nat -> Outcome, k: nat): Remover {
    if k == 0 then s else AfterOne(AfterRemovals(s, meanwhile, outcomes, k - 1), meanwhile(k - 1), outcomes(k - 1))
  }

  /** More events, in none of which the monitor dies. */
  ghost predicate GoesOn(before: seq<Event>, after: seq<Event>) {
    before <= after && forall k :: |before| <= k < |after| ==> !after[k].MonitorDies?
  }

  /** The file of the record holds one with its time. */
  predicate HasTime(store: Store, r: Record) {
    var key := FileKey(r.source, r.environmentId);
    key in store && store[key].at == r.at
  }

  /** An attempt of a pass says what its command did: it removed the record exactly when it answered, could read the file, and the file
      then held the record's time; it gives no answer exactly when its wait failed. */
  ghost predicate AnswersAs(outcomes: nat -> Outcome, s: Remover, ev: Event) {
    ev.Attempt? ==>
      && HasNext(s)
      && var outcome := outcomes(s.pass.value.next);
         && (ev.answer == Removed <==> outcome == Answers(true) && HasTime(s.store, NextRemoval(s).record))
         && (ev.answer == NoAnswer <==> outcome == Fails)
  }

  ghost predicate AllAnswerAs(outcomes: nat -> Outcome, states: seq<Remover>, events: seq<Event>, from: nat) {
    |states| == |events| + 1 && forall l :: from <= l < |events| ==> AnswersAs(outcomes, states[l], events[l])
  }

  // ---- A pass in which every command answers and nothing else happens ----

  predicate FilesDiffer(removals: seq<Removal>) {
    forall j, k :: 0 <= j < k < |removals| ==>
      removals[j].record.source != removals[k].record.source || removals[j].record.environmentId != removals[k].record.environmentId
  }

  /** The removal `m` finds its record, and so did every one to forget of its environment before it, when it is to forget itself. */
  predicate IsTakenInTurn(store: Store, removals: seq<Removal>, m: nat)
    requires m < |removals|
  {
    && HasTime(store, removals[m].record)
    && (removals[m].forget ==>
          forall j :: 0 <= j < m && removals[j].forget && removals[j].record.environmentId == removals[m].record.environmentId ==>
            HasTime(store, removals[j].record))
  }

  /** What the first `k` removals leave: every file but those of the removals taken in turn. */
  ghost predicate IsLeftByFirst(store: Store, removals: seq<Removal>, k: nat, left: Store)
    requires k <= |removals|
  {
    && (forall key :: key in left ==> key in store && left[key] == store[key])
    && forall key :: key in store ==>
         (key !in left <==>
            exists m :: 0 <= m < k && FileKey(removals[m].record.source, removals[m].record.environmentId) == key && IsTakenInTurn(store, removals, m))
  }

  /** The environments held back after the first `k`: those of the removals that were not taken. */
  ghost predicate IsHeldByFirst(store: Store, removals: seq<Removal>, k: nat, held: set<string>)
    requires k <= |removals|
  {
    forall e :: e in held <==> exists m :: 0 <= m < k && removals[m].record.environmentId == e && !IsTakenInTurn(store, removals, m)
  }

  predicate ForgetsFirst(removals: seq<Removal>) { forall j, k :: 0 <= j < k < |removals| && removals[k].forget ==> removals[j].forget }

  lemma QuietRemoval(store: Store, removals: seq<Removal>, k: nat, left: Store, held: set<string>)
    requires FilesDiffer(removals) && ForgetsFirst(removals) && k < |removals|
    requires IsLeftByFirst(store, removals, k, left) && IsHeldByFirst(store, removals, k, held)
    ensures var x := removals[k];
            var isHeld := x.forget && x.record.environmentId in held;
            var taken := !isHeld && Holds(left, x.record);
            && taken == IsTakenInTurn(store, removals, k)
            && IsLeftByFirst(store, removals, k + 1, if taken then Without(left, x.record) else left)
            && IsHeldByFirst(store, removals, k + 1, if taken || isHeld then held else held + {x.record.environmentId})
  {
    var x, key := removals[k], KeyOfRecord(removals[k].record);
    assert forall m :: 0 <= m < k ==> FileKey(removals[m].record.source, removals[m].record.environmentId) != key;
    assert key in left <==> key in store;
    if x.forget { FirstHeld(store, removals, k, held); }
    var taken := IsTakenInTurn(store, removals, k);
    hide IsTakenInTurn;
  }

  /** A removal to forget is held back exactly when one of its environment before it was not there. */
  lemma FirstHeld(store: Store, removals: seq<Removal>, k: nat, held: set<string>)
    requires ForgetsFirst(removals) && k < |removals| && removals[k].forget && IsHeldByFirst(store, removals, k, held)
    ensures removals[k].record.environmentId in held <==>
              exists j :: 0 <= j < k && removals[j].forget && removals[j].record.environmentId == removals[k].record.environmentId
                          && !HasTime(store, removals[j].record)
  {
    var e := removals[k].record.environmentId;
    if e in held {
      var m :| 0 <= m < k && removals[m].record.environmentId == e && !IsTakenInTurn(store, removals, m);
      assert removals[m].forget;
    }
    if j :| 0 <= j < k && removals[j].forget && removals[j].record.environmentId == e && !HasTime(store, removals[j].record) {
      assert !IsTakenInTurn(store, removals, j);
    }
  }

  lemma ForgetComesFirst(i: Input)
    ensures ForgetsFirst(Removals(i))
  {
    hide Decide;
  }

  class RemovalLoop {
    /** What happens at the n-th await besides the pass, and how the command of the n-th removal goes. */
    const meanwhile: nat -> seq<Event>
    const outcomes: nat -> Outcome
    var s: Remover
    ghost var states: seq<Remover>
    ghost var events: seq<Event>

    ghost predicate Valid()
      reads this
    {
      IsTrace(Trace(states, events)) && s == states[|states| - 1]
    }

    constructor (s: Remover, meanwhile: nat -> seq<Event>, outcomes: nat -> Outcome)
      ensures Valid() && this.s == s && this.meanwhile == meanwhile && this.outcomes == outcomes
    {
      this.s, this.meanwhile, this.outcomes := s, meanwhile, outcomes;
      states, events := [s], [];
    }

    ghost method Note(ev: Event, before: Remover)
      requires IsTrace(Trace(states, events)) && before == states[|states| - 1] && Enabled(before, ev) && s == Next(before, ev)
      modifies this`states, this`events
      ensures Valid() && states == old(states) + [s] && events == old(events) + [ev]
    {
      hide Enabled, Next;
      OneStepMore(Trace(states, events), ev);
      states, events := states + [s], events + [ev];
    }

    lemma SameLength()
      requires Valid()
      ensures |states| == |events| + 1
    {
    }

    /** Ticks, other processes and commands without an answer act at an await. */
    method Await(n: nat)
      requires Valid() && s.pass.Some?
      modifies this
      ensures Valid() && s.pass == old(s).pass && GoesOn(old(events), events)
      ensures old(states) <= states && AllAnswerAs(outcomes, states, events, |old(events)|)
      ensures s == AfterAll(old(s), meanwhile(n)) && (meanwhile(n) == [] ==> s == old(s))
    {
      var evs := meanwhile(n);
      hide Next, Enabled;
      assert evs[..0] == [];
      for k := 0 to |evs|
        invariant Valid() && s.pass == old(s).pass && GoesOn(old(events), events)
        invariant old(states) <= states && AllAnswerAs(outcomes, states, events, |old(events)|)
        invariant s == AfterAll(old(s), evs[..k]) && (k == 0 ==> s == old(s))
      {
        assert evs[..k + 1][..k] == evs[..k];
        if Elsewhere(evs[k]) && Enabled(s, evs[k]) {
          ghost var before := s;
          KeepsPass(s, evs[k]);
          s := Next(s, evs[k]);
          Note(evs[k], before);
        }
      }
      assert evs[..|evs|] == evs;
    }

    /** Every command answers, and nothing happens besides the pass. */
    ghost predicate IsQuiet() { forall n :: meanwhile(n) == [] && outcomes(n) == Answers(true) }

    /** The pass: after a record that is not removed, the rest of its environment to forget is held back. What each attempt does is what
        its command found; when all of them answer and nothing else happens, exactly the records that are there are removed, but for
        those behind one of their environment that is not. */
    method RunPass(input: Input)
      requires Valid() && s.pass == Some(Pass(input, 0, {}))
      modifies this
      ensures Valid() && s.pass == None && GoesOn(old(events), events)
      ensures old(states) <= states && AllAnswerAs(outcomes, states, events, |old(events)|)
      ensures s == AfterRemovals(old(s), meanwhile, outcomes, |Removals(input)|).(pass := None)
      ensures IsQuiet() && FilesDiffer(Removals(input)) ==>
                s == old(s).(pass := None, store := s.store)
                && IsLeftByFirst(old(s).store, Removals(input), |Removals(input)|, s.store)
    {
      hide Decide, Next, Enabled, IsTrace, RemovalsOf, IsLeftByFirst, IsHeldByFirst, FilesDiffer, AfterOne;
      var removals := Removals(input);
      var held: set<string> := {};
      ForgetComesFirst(input);
      NothingDone(s.store, removals);
      SameLength();
      for k := 0 to |removals|
        invariant Valid() && s.pass == Some(Pass(input, k, held)) && GoesOn(old(events), events)
        invariant old(states) <= states && AllAnswerAs(outcomes, states, events, |old(events)|)
        invariant s == AfterRemovals(old(s), meanwhile, outcomes, k)
        invariant IsQuiet() && FilesDiffer(removals) ==>
                    s == old(s).(pass := s.pass, store := s.store)
                    && IsLeftByFirst(old(s).store, removals, k, s.store) && IsHeldByFirst(old(s).store, removals, k, held)
      {
        held := OneRemoval(input, k, removals, held, old(s).store);
      }
      ghost var before := s;
      s := s.(pass := None);
      StepIs(before);
      Note(EndPass, before);
    }

    method OneRemoval(input: Input, k: nat, removals: seq<Removal>, held0: set<string>, ghost store0: Store) returns (held: set<string>)
      requires Valid() && removals == Removals(input) && k < |removals| && s.pass == Some(Pass(input, k, held0))
      requires ForgetsFirst(removals)
      requires IsQuiet() && FilesDiffer(removals) ==>
                 IsLeftByFirst(store0, removals, k, s.store) && IsHeldByFirst(store0, removals, k, held0)
      modifies this
      ensures Valid() && s.pass == Some(Pass(input, k + 1, held)) && GoesOn(old(events), events)
      ensures old(states) <= states && AllAnswerAs(outcomes, states, events, |old(events)|)
      ensures s == AfterOne(old(s), meanwhile(k), outcomes(k))
      ensures IsQuiet() && FilesDiffer(removals) ==>
                s == old(s).(pass := s.pass, store := s.store)
                && IsLeftByFirst(store0, removals, k + 1, s.store) && IsHeldByFirst(store0, removals, k + 1, held)
    {
      hide Decide, Next, Enabled, IsTrace, RemovalsOf, IsLeftByFirst, IsHeldByFirst, FilesDiffer, AfterAll;
      held := held0;
      SameLength();
      if IsQuiet() && FilesDiffer(removals) { QuietRemoval(store0, removals, k, s.store, held); }
      var Removal(record, forget) := removals[k];
      if forget && record.environmentId in held {
        ghost var before := s;
        s := s.(pass := Some(Pass(input, k + 1, held)));
        StepIs(before);
        Note(Skip, before);
        return;
      }
      Await(k);
      ghost var before := s;
      var outcome := outcomes(k);
      var removed := outcome.Answers? && outcome.readable && Holds(s.store, record);
      if !removed { held := held + {record.environmentId}; }
      s := s.(store := if removed then Without(s.store, record) else s.store,
              pass := Some(Pass(input, k + 1, held)),
              pending := if outcome.Fails? then s.pending + {removals[k]} else s.pending);
      StepIs(before);
      Note(Attempt(if removed then Removed else if outcome.Answers? then NotRemoved else NoAnswer), before);
    }
  }

  lemma NothingDone(store: Store, removals: seq<Removal>)
    ensures IsLeftByFirst(store, removals, 0, store) && IsHeldByFirst(store, removals, 0, {})
  {
  }

  lemma StepIs(s: Remover)
    requires s.pass.Some?
    ensures !HasNext(s) ==> Enabled(s, EndPass) && Next(s, EndPass) == s.(pass := None)
    ensures HasNext(s) && IsHeld(s) ==>
              Enabled(s, Skip) && Next(s, Skip) == s.(pass := Some(s.pass.value.(next := s.pass.value.next + 1)))
    ensures HasNext(s) && !IsHeld(s) ==>
              && (Holds(s.store, NextRemoval(s).record) ==> Enabled(s, Attempt(Removed)) && Next(s, Attempt(Removed)) == AfterAttempt(s, Removed))
              && Enabled(s, Attempt(NotRemoved)) && Next(s, Attempt(NotRemoved)) == AfterAttempt(s, NotRemoved)
              && Enabled(s, Attempt(NoAnswer)) && Next(s, Attempt(NoAnswer)) == AfterAttempt(s, NoAnswer)
  {
    hide Decide;
  }

  lemma KeepsPass(s: Remover, ev: Event)
    requires Elsewhere(ev) && Enabled(s, ev) && s.pass.Some?
    ensures Next(s, ev).pass == s.pass
  {
    hide Decide;
  }
}
