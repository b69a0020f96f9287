/** The schedule of the background run and the idle exit of the monitor (src/remoteMonitor/main.ts). Each await ends a step;
    checks, runs and the loop of the ticks interleave freely between the steps. */
module CacheSchedule {
  import opened Seqs

  const CLOCK_RESET_MS: int := 60 * 60_000

  /** Where a check waits: for the settings, the stored state, its observe, the stored reset, or the run it started. */
  datatype CheckPc = NoCheck | Settings | Loading | Observing | Observed | Resetting | InRun | RunEnded

  /** Where a run waits: for an observe that runs, the settings, the pass, or the stored end. */
  datatype RunPc = WaitObserve | Refreshing | Passing | Storing

  datatype LoopPc = Ticking | WaitRemovals | Exited

  datatype State = State(
    lastEndAt: Option<int>, loaded: bool, running: bool, checking: bool, observing: bool,
    check: CheckPc, runs: seq<RunPc>, loop: LoopPc)

  datatype Event =
    | CheckTimer
    | RunTimer
    | SettingsRead
    | StateLoaded(lastEndAt: Option<int>)
    | ObserveEnds(fails: bool)
    | CheckGoesOn(time: int, due: bool)
    | ResetStored(due: bool)
    | CheckEnds
    | RunGoesOn(run: nat)
    | PassEnds(run: nat, time: int)
    | EndStored(run: nat)
    | TickEnds(idle: bool)
    | RemovalsEnd

  const INITIAL := State(None, false, false, false, false, NoCheck, [], Ticking)

  predicate RunAt(s: State, run: nat, pc: RunPc) { run < |s.runs| && s.runs[run] == pc }

  predicate Enabled(s: State, ev: Event) {
    s.loop != Exited &&
    match ev
    case CheckTimer => true
    case RunTimer => true
    case SettingsRead => s.check == Settings
    case StateLoaded(_) => s.check == Loading
    case ObserveEnds(_) => s.check == Observing
    case CheckGoesOn(_, due) => s.check == Observed && (s.lastEndAt.None? ==> due)
    case ResetStored(_) => s.check == Resetting
    case CheckEnds => s.check == RunEnded
    case RunGoesOn(run) => (RunAt(s, run, WaitObserve) && !s.observing) || RunAt(s, run, Refreshing)
    case PassEnds(run, _) => RunAt(s, run, Refreshing) || RunAt(s, run, Passing)
    case EndStored(run) => RunAt(s, run, Storing)
    case TickEnds(_) => s.loop == Ticking
    case RemovalsEnd => s.loop == WaitRemovals
  }

  /** `run()`: refused while one runs. */
  function StartRun(s: State): State {
    if s.running then s else s.(running := true, runs := s.runs + [WaitObserve])
  }

  /** After the stored state is known: the observe, unless a run runs. */
  function AfterLoad(s: State): State {
    if s.running then s.(check := Observed) else s.(check := Observing, observing := true)
  }

  /** The end of a check: a run when it is due and none runs. */
  function RunIfDue(s: State, due: bool): State {
    if s.running || !due then EndCheck(s) else StartRun(s).(check := InRun)
  }

  function EndCheck(s: State): State { s.(check := NoCheck, checking := false) }

  function Next(s: State, ev: Event): State
    requires Enabled(s, ev)
  {
    match ev
    case CheckTimer => if s.checking then s else s.(checking := true, check := Settings)
    case RunTimer => StartRun(s)
    case SettingsRead => if s.loaded then AfterLoad(s) else s.(loaded := true, check := Loading)
    case StateLoaded(lastEndAt) => AfterLoad(s.(lastEndAt := lastEndAt))
    case ObserveEnds(fails) => if fails then EndCheck(s.(observing := false)) else s.(observing := false, check := Observed)
    case CheckGoesOn(time, due) =>
      if s.lastEndAt.Some? && time < s.lastEndAt.value - CLOCK_RESET_MS
      then s.(lastEndAt := Some(time), check := Resetting)
      else RunIfDue(s, due)
    case ResetStored(due) => RunIfDue(s, due)
    case CheckEnds => EndCheck(s)
    case RunGoesOn(run) => s.(runs := s.runs[run := if s.runs[run] == WaitObserve then Refreshing else Passing])
    case PassEnds(run, time) => s.(runs := s.runs[run := Storing], loaded := true, lastEndAt := Some(time))
    case EndStored(run) =>
      s.(running := false, runs := s.runs[..run] + s.runs[run + 1..], check := if s.check == InRun then RunEnded else s.check)
    case TickEnds(idle) => if idle && !s.running then s.(loop := WaitRemovals) else s
    case RemovalsEnd => if s.running then s.(loop := Ticking) else s.(loop := Exited)
  }

  // ---- The class, one method for each step between two awaits ----

  class Schedule {
    var lastEndAt: Option<int>
    var loaded: bool
    var running: bool
    var checking: bool
    var observing: bool
    ghost var check: CheckPc
    ghost var runs: seq<RunPc>
    ghost var loop: LoopPc

    ghost function View(): State
      reads this
    {
      State(lastEndAt, loaded, running, checking, observing, check, runs, loop)
    }

    constructor ()
      ensures View() == INITIAL
    {
      lastEndAt, loaded, running, checking, observing := None, false, false, false, false;
      check, runs, loop := NoCheck, [], Ticking;
    }

    method Check()
      requires Enabled(View(), CheckTimer)
      modifies this
      ensures View() == Next(old(View()), CheckTimer)
    {
      if checking { return; }
      checking := true;
      check := Settings;
    }

    method Run()
      requires Enabled(View(), RunTimer)
      modifies this
      ensures View() == Next(old(View()), RunTimer)
    {
      if running { return; }
      running := true;
      runs := runs + [WaitObserve];
    }

    method SettingsAreRead()
      requires Enabled(View(), SettingsRead)
      modifies this
      ensures View() == Next(old(View()), SettingsRead)
    {
      if !loaded {
        loaded := true;
        check := Loading;
        return;
      }
      StartObserve();
    }

    method StateIsLoaded(stored: Option<int>)
      requires Enabled(View(), StateLoaded(stored))
      modifies this
      ensures View() == Next(old(View()), StateLoaded(stored))
    {
      lastEndAt := stored;
      StartObserve();
    }

    method StartObserve()
      modifies this
      ensures View() == AfterLoad(old(View()))
    {
      check := Observed;
      if !running {
        observing := true;
        check := Observing;
      }
    }

    method ObserveEnded(fails: bool)
      requires Enabled(View(), ObserveEnds(fails))
      modifies this
      ensures View() == Next(old(View()), ObserveEnds(fails))
    {
      observing := false;
      check := Observed;
      if fails {
        checking := false;
        check := NoCheck;
      }
    }

    method Decide(time: int, due: bool)
      requires Enabled(View(), CheckGoesOn(time, due))
      modifies this
      ensures View() == Next(old(View()), CheckGoesOn(time, due))
    {
      if lastEndAt.Some? && time < lastEndAt.value - CLOCK_RESET_MS {
        lastEndAt := Some(time);
        check := Resetting;
        return;
      }
      RunWhenDue(due);
    }

    method RunWhenDue(due: bool)
      requires loop != Exited
      modifies this
      ensures View() == RunIfDue(old(View()), due)
    {
      if running || !due {
        checking := false;
        check := NoCheck;
        return;
      }
      Run();
      check := InRun;
    }

    method PassEnded(ghost run: nat, time: int)
      requires Enabled(View(), PassEnds(run, time))
      modifies this
      ensures View() == Next(old(View()), PassEnds(run, time))
    {
      loaded := true;
      lastEndAt := Some(time);
      runs := runs[run := Storing];
    }

    method EndIsStored(ghost run: nat)
      requires Enabled(View(), EndStored(run))
      modifies this
      ensures View() == Next(old(View()), EndStored(run))
    {
      running := false;
      runs := runs[..run] + runs[run + 1..];
      check := if check == InRun then RunEnded else check;
    }

    /** The idle exit asks between two ticks, and again after the removals. */
    method MayExit() returns (exits: bool)
      requires Enabled(View(), RemovalsEnd)
      modifies this
      ensures View() == Next(old(View()), RemovalsEnd)
      ensures exits <==> loop == Exited
    {
      exits := !running;
      loop := if exits then Exited else Ticking;
    }
  }

  // ---- Every interleaving ----

  ghost predicate Inv(s: State) {
    && |s.runs| == (if s.running then 1 else 0)
    && (s.checking <==> s.check != NoCheck)
    && (s.observing <==> s.check == Observing)
    && (s.check == InRun ==> s.running)
    && (s.running && s.runs[0] != WaitObserve ==> !s.observing)
    && (s.loop == Exited ==> !s.running)
  }

  lemma StepKeepsInv(s: State, ev: Event)
    requires Inv(s) && Enabled(s, ev)
    ensures Inv(Next(s, ev))
  {
  }

  function RunAll(s: State, evs: seq<Event>): Option<State> {
    if evs == [] then Some(s) else
    var before := RunAll(s, evs[..|evs| - 1]);
    if before.Some? && Enabled(before.value, evs[|evs| - 1]) then Some(Next(before.value, evs[|evs| - 1])) else None
  }

  lemma {:induction false} InvHolds(evs: seq<Event>)
    requires RunAll(INITIAL, evs).Some?
    ensures Inv(RunAll(INITIAL, evs).value)
  {
    if evs != [] {
      InvHolds(evs[..|evs| - 1]);
      StepKeepsInv(RunAll(INITIAL, evs[..|evs| - 1]).value, evs[|evs| - 1]);
    }
  }

  predicate IsPass(pc: RunPc) { pc == Passing }

  /** In every interleaving at most one background run exists, from its start to the end of the attempt to store its end,
      no observe runs during its pass, and a refused run or check changes nothing. */
  lemma OneRunAtATime(evs: seq<Event>)
    requires RunAll(INITIAL, evs).Some?
    ensures var s := RunAll(INITIAL, evs).value;
            && |s.runs| <= 1
            && (s.running <==> s.runs != [])
            && (forall run :: 0 <= run < |s.runs| && IsPass(s.runs[run]) ==> !s.observing && s.check != Observing)
            && (s.running && s.loop != Exited ==> Next(s, RunTimer) == s)
            && (s.checking && s.loop != Exited ==> Next(s, CheckTimer) == s)
  {
    InvHolds(evs);
  }

  /** The monitor never exits while a run exists: when a step ends it, no run has been started whose end was not stored, and
      nothing can happen afterwards. */
  lemma NeverExitsDuringARun(evs: seq<Event>, ev: Event)
    requires RunAll(INITIAL, evs + [ev]).Some? && RunAll(INITIAL, evs + [ev]).value.loop == Exited
    ensures RunAll(INITIAL, evs).Some? && RunAll(INITIAL, evs).value.runs == [] && ev == RemovalsEnd
    ensures forall more :: RunAll(INITIAL, evs + [ev] + [more]).None?
  {
    assert (evs + [ev])[..|evs|] == evs;
    InvHolds(evs);
    forall more
      ensures RunAll(INITIAL, evs + [ev] + [more]).None?
    {
      assert (evs + [ev] + [more])[..|evs| + 1] == evs + [ev];
    }
  }

  /** An idle monitor does exit: once no run exists, two steps of the loop end it. */
  lemma IdleMonitorExits(evs: seq<Event>)
    requires RunAll(INITIAL, evs).Some? && RunAll(INITIAL, evs).value.runs == [] && RunAll(INITIAL, evs).value.loop == Ticking
    ensures RunAll(INITIAL, evs + [TickEnds(true)] + [RemovalsEnd]).Some?
    ensures RunAll(INITIAL, evs + [TickEnds(true)] + [RemovalsEnd]).value.loop == Exited
  {
    hide RunAll;
    InvHolds(evs);
    StepOfRun(evs, TickEnds(true));
    StepOfRun(evs + [TickEnds(true)], RemovalsEnd);
  }

  lemma StepOfRun(evs: seq<Event>, ev: Event)
    ensures RunAll(INITIAL, evs + [ev]) ==
            var s := RunAll(INITIAL, evs);
            if s.Some? && Enabled(s.value, ev) then Some(Next(s.value, ev)) else None
  {
    hide Next, Enabled;
    assert (evs + [ev])[..|evs|] == evs;
  }

  // ---- What starts, what ends, and what is remembered ----

  /** The stored end of the last run is so far ahead of a check that the clock was set back. */
  predicate ClockWasSetBack(s: State, ev: Event) {
    ev.CheckGoesOn? && s.lastEndAt.Some? && ev.time < s.lastEndAt.value - 3_600_000
  }

  /** A run starts if and only if none exists, and the timer of the runs asks for it or a check that goes on finds it due; it ends
      if and only if the attempt to store its end is over. */
  lemma StartsARunExactly(evs: seq<Event>, ev: Event)
    requires RunAll(INITIAL, evs + [ev]).Some?
    ensures RunAll(INITIAL, evs).Some?
    ensures var s, t := RunAll(INITIAL, evs).value, RunAll(INITIAL, evs + [ev]).value;
            && (s.runs == [] ==> t.runs == if Starts(s, ev) then [WaitObserve] else [])
            && (s.runs != [] ==> (t.runs == [] <==> ev.EndStored?))
            && (t.check == InRun && s.check != InRun <==> Starts(s, ev) && ev != RunTimer)
  {
    hide RunAll, Starts, Inv, Enabled, Next;
    StepOfRun(evs, ev);
    InvHolds(evs);
    StartsInStep(RunAll(INITIAL, evs).value, ev);
  }

  predicate Starts(s: State, ev: Event) {
    s.runs == [] && (ev == RunTimer || ev == ResetStored(true) || (ev.CheckGoesOn? && ev.due && !ClockWasSetBack(s, ev)))
  }

  lemma StartsInStep(s: State, ev: Event)
    requires Inv(s) && Enabled(s, ev)
    ensures var t := Next(s, ev);
            && (s.runs == [] ==> t.runs == if Starts(s, ev) then [WaitObserve] else [])
            && (s.runs != [] ==> (t.runs == [] <==> ev.EndStored?))
            && (t.check == InRun && s.check != InRun <==> Starts(s, ev) && ev != RunTimer)
  {
    match ev
    case EndStored(run) => assert s.runs[..run] + s.runs[run + 1..] == [];
    case _ =>
  }

  /** A run waits for the observe of a check, reads the settings, passes and stores its end; a failure before the pass ends it too. */
  lemma RunsGoOn(evs: seq<Event>, ev: Event)
    requires RunAll(INITIAL, evs + [ev]).Some? && RunAll(INITIAL, evs).Some? && RunAll(INITIAL, evs).value.runs != []
    ensures var s, t := RunAll(INITIAL, evs).value, RunAll(INITIAL, evs + [ev]).value;
            var run := s.runs[0];
            && s.runs == [run]
            && (ev.RunGoesOn? ==> (run == WaitObserve && !s.observing && t.runs == [Refreshing]) || (run == Refreshing && t.runs == [Passing]))
            && (ev.PassEnds? ==> (run == Refreshing || run == Passing) && t.runs == [Storing])
            && (ev.EndStored? ==> run == Storing && t.runs == [])
            && (!ev.RunGoesOn? && !ev.PassEnds? && !ev.EndStored? ==> t.runs == s.runs)
  {
    hide RunAll;
    StepOfRun(evs, ev);
    InvHolds(evs);
  }

  /** The end that is remembered is that of the last pass, or the stored one until then, or the time at which a check saw that the
      clock was set back. */
  lemma LastEndIs(evs: seq<Event>, ev: Event)
    requires RunAll(INITIAL, evs + [ev]).Some? && RunAll(INITIAL, evs).Some?
    ensures var s, t := RunAll(INITIAL, evs).value, RunAll(INITIAL, evs + [ev]).value;
            && t.lastEndAt == (if ev.PassEnds? || ClockWasSetBack(s, ev) then Some(ev.time)
                               else if ev.StateLoaded? then ev.lastEndAt else s.lastEndAt)
            && (ev.StateLoaded? ==> s.check == Loading)
            && (t.check == Loading && s.check != Loading <==> ev == SettingsRead && !s.loaded)
            && (t.loaded <==> s.loaded || ev == SettingsRead || ev.PassEnds?)
  {
    hide RunAll;
    StepOfRun(evs, ev);
    InvHolds(evs);
  }

  /** A check reads the settings and once the stored state, observes unless a run exists, and ends without a run when its observe
      fails, when none is due, or when one runs. */
  lemma ChecksGoOn(evs: seq<Event>, ev: Event)
    requires RunAll(INITIAL, evs + [ev]).Some? && RunAll(INITIAL, evs).Some?
    ensures var s, t := RunAll(INITIAL, evs).value, RunAll(INITIAL, evs + [ev]).value;
            && (ev == CheckTimer ==> t.check == if s.check == NoCheck then Settings else s.check)
            && (ev.StateLoaded? || (ev == SettingsRead && s.loaded) ==> t.check == if s.runs == [] then Observing else Observed)
            && (ev.ObserveEnds? ==> t.check == if ev.fails then NoCheck else Observed)
            && (ev.CheckGoesOn? ==> t.check == if ClockWasSetBack(s, ev) then Resetting
                                               else if ev.due && s.runs == [] then InRun else NoCheck)
            && (ev.ResetStored? ==> t.check == if ev.due && s.runs == [] then InRun else NoCheck)
            && (ev.EndStored? ==> t.check == if s.check == InRun then RunEnded else s.check)
            && (ev == CheckEnds ==> s.check == RunEnded && t.check == NoCheck)
            && (ev == RunTimer || ev.RunGoesOn? || ev.PassEnds? || ev.TickEnds? || ev == RemovalsEnd ==> t.check == s.check)
  {
    hide RunAll;
    StepOfRun(evs, ev);
    InvHolds(evs);
  }

  /** Between two ticks the loop of the monitor goes to its removals if and only if it is idle and no run exists; behind them it exits if
      and only if no run exists still, and goes on with the ticks otherwise. */
  lemma LoopGoesOn(evs: seq<Event>, ev: Event)
    requires RunAll(INITIAL, evs + [ev]).Some? && RunAll(INITIAL, evs).Some?
    ensures var s, t := RunAll(INITIAL, evs).value, RunAll(INITIAL, evs + [ev]).value;
            && (ev.TickEnds? ==> s.loop == Ticking && t.loop == if ev.idle && s.runs == [] then WaitRemovals else Ticking)
            && (ev == RemovalsEnd ==> s.loop == WaitRemovals && t.loop == if s.runs == [] then Exited else Ticking)
            && (!ev.TickEnds? && ev != RemovalsEnd ==> t.loop == s.loop)
  {
    hide RunAll;
    StepOfRun(evs, ev);
    InvHolds(evs);
  }
}
