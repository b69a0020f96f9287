/** The loop of the Session Monitor among the other processes of its host (src/remoteMonitor/main.ts): each await of `tick`
    ends a step, and between two steps the clock, the containers, the records and the environment locks may change. */
module MonitorLoop {
  import opened Seqs
  import opened MonitorRules
  import opened MonitorLocality
  import opened HeartbeatRecords

  datatype Holder = Operation | Monitor

  /** The monitor holds the lock of `environmentId`; `queue`: the environments to try after it. */
  datatype Session = Session(environmentId: string, queue: seq<string>)

  datatype Pc =
    | Idle
    | Trying(queue: seq<string>)
    | Locked(s: Session)
    | Listed(s: Session, listed: seq<Container>)
    | Reading(s: Session, listed: seq<Container>, names: seq<FileKey>, read: seq<Record>)
    | Stopping(s: Session, input: Input, stop: Stop, done: nat)
  {
    predicate InSession() { Locked? || Listed? || Reading? || Stopping? }
  }

  datatype System = System(
    now: int, containers: seq<Container>, store: Store, locks: map<string, Holder>, state: State, timing: Timing, pc: Pc)

  datatype Event =
    // Of the host and of other processes.
    | Clock(now: int)
    | Containers(containers: seq<Container>)
    | Heartbeats(ds: seq<Delivery>)
    | Forget(key: FileKey, at: Option<int>)
    | OperationLocks(environmentId: string)
    | OperationUnlocks(environmentId: string)
    | MonitorDies
    // Of the monitor. A tick may have read its containers and records at any earlier moments, so they are free here.
    | Tick(listed: seq<Container>, records: seq<Record>)
    | TryLock(fails: bool)
    | ListAgain(fails: bool)
    | ReadFolder(names: seq<FileKey>, fails: bool)
    | ReadFile(readable: bool)
    | DecideAgain
    | StopContainer
    | EndStops
    | EndTick

  function EnvironmentOfStop(): Stop -> string { (s: Stop) => s.environmentId }

  /** The input of the second decision: what was listed and read under the lock, with the state of the tick. */
  function InputAgain(m: System, listed: seq<Container>, read: seq<Record>, e: string): Input {
    Input(m.now, Filter(ContainerOf(e), listed), Filter(RecordOf(e), read), m.state.(lastTickAt := Some(m.now)), m.timing)
  }

  /** A listing of a folder names each of its files once. */
  predicate IsListing(names: seq<FileKey>, keys: set<FileKey>) {
    && (forall key :: key in keys ==> key in names)
    && (forall key :: key in names ==> key in keys)
    && (forall i, j :: 0 <= i < j < |names| ==> names[i] != names[j])
  }

  predicate Enabled(m: System, ev: Event) {
    match ev
    case Clock(_) => true
    case Containers(_) => true
    case Heartbeats(_) => true
    case Forget(_, _) => true
    case OperationLocks(e) => e !in m.locks
    case OperationUnlocks(e) => e in m.locks && m.locks[e] == Operation
    case MonitorDies => true
    case Tick(_, _) => m.pc.Idle?
    case TryLock(_) => m.pc.Trying? && m.pc.queue != []
    case ListAgain(_) => m.pc.Locked?
    case ReadFolder(names, _) => m.pc.Listed? && IsListing(names, m.store.Keys)
    case ReadFile(_) => m.pc.Reading? && m.pc.names != []
    case DecideAgain => m.pc.Reading? && m.pc.names == []
    case StopContainer => m.pc.Stopping? && m.pc.done < |m.pc.stop.containers|
    case EndStops => m.pc.Stopping? && m.pc.done == |m.pc.stop.containers|
    case EndTick => m.pc.Trying? && m.pc.queue == []
  }

  /** The `finally` of a session: the lock is free, and the tick goes on with the next environment. */
  function Release(m: System, s: Session): System {
    m.(locks := m.locks - {s.environmentId}, pc := Trying(s.queue))
  }

  function AfterTick(m: System, listed: seq<Container>, records: seq<Record>): System {
    var d := Decide(Input(m.now, listed, records, m.state, m.timing));
    m.(state := d.state, pc := Trying(Map(EnvironmentOfStop(), d.stop)))
  }

  function AfterTryLock(m: System, fails: bool): System
    requires m.pc.Trying? && m.pc.queue != []
  {
    var e, rest := m.pc.queue[0], m.pc.queue[1..];
    if e in m.locks || fails then m.(pc := Trying(rest))
    else m.(locks := m.locks[e := Monitor], pc := Locked(Session(e, rest)))
  }

  function AfterReadFile(m: System, readable: bool): System
    requires m.pc.Reading? && m.pc.names != []
  {
    var name, rest := m.pc.names[0], m.pc.names[1..];
    if readable && name in m.store then m.(pc := m.pc.(names := rest, read := m.pc.read + [RecordAt(name, m.store[name])]))
    else m.(pc := m.pc.(names := rest))
  }

  /** The stop that the second decision names for the environment, if any. */
  function StopsAgain(m: System): seq<Stop>
    requires m.pc.Reading?
  {
    Filter(StopFor(m.pc.s.environmentId), Decide(InputAgain(m, m.pc.listed, m.pc.read, m.pc.s.environmentId)).stop)
  }

  function AfterDecideAgain(m: System): System
    requires m.pc.Reading?
  {
    if StopsAgain(m) == [] then Release(m, m.pc.s)
    else m.(pc := Stopping(m.pc.s, InputAgain(m, m.pc.listed, m.pc.read, m.pc.s.environmentId), StopsAgain(m)[0], 0))
  }

  function Next(m: System, ev: Event): System
    requires Enabled(m, ev)
  {
    match ev
    case Clock(now) => m.(now := now)
    case Containers(cs) => m.(containers := cs)
    case Heartbeats(ds) => m.(store := WriteAll(m.store, ds))
    case Forget(key, at) =>
      if at.None? || (key in m.store && m.store[key].at == at.value) then m.(store := m.store - {key}) else m
    case OperationLocks(e) => m.(locks := m.locks[e := Operation])
    case OperationUnlocks(e) => m.(locks := m.locks - {e})
    case MonitorDies =>
      m.(state := INITIAL_STATE, pc := Idle, locks := if m.pc.InSession() then m.locks - {m.pc.s.environmentId} else m.locks)
    case Tick(listed, records) => AfterTick(m, listed, records)
    case TryLock(fails) => AfterTryLock(m, fails)
    case ListAgain(fails) =>
      if fails then Release(m, m.pc.s) else m.(pc := Listed(m.pc.s, Filter(ContainerOf(m.pc.s.environmentId), m.containers)))
    case ReadFolder(names, fails) =>
      if fails then Release(m, m.pc.s) else m.(pc := Reading(m.pc.s, m.pc.listed, names, []))
    case ReadFile(readable) => AfterReadFile(m, readable)
    case DecideAgain => AfterDecideAgain(m)
    case StopContainer => m.(pc := m.pc.(done := m.pc.done + 1))
    case EndStops => Release(m, m.pc.s)
    case EndTick => m.(pc := Idle)
  }

  // ---- What every step keeps ----

  /** The monitor holds exactly the lock of its session. */
  ghost predicate LockInv(m: System) {
    forall e :: (e in m.locks && m.locks[e] == Monitor) <==> (m.pc.InSession() && m.pc.s.environmentId == e)
  }

  /** The stop that runs is one that `decide` gives for the environment on its own containers and records. */
  ghost predicate StopInv(s: Session, input: Input, stop: Stop) {
    && stop in Decide(input).stop && stop.environmentId == s.environmentId
    && (forall c :: c in input.containers ==> c.environmentId == s.environmentId)
    && (forall r :: r in input.records ==> r.environmentId == s.environmentId)
  }

  ghost predicate Inv(m: System) {
    && LockInv(m)
    && (m.pc.Stopping? ==> StopInv(m.pc.s, m.pc.input, m.pc.stop) && m.pc.done <= |m.pc.stop.containers|)
  }

  predicate Initial(m: System) {
    m.pc == Idle && m.state == INITIAL_STATE && forall e :: e in m.locks ==> m.locks[e] == Operation
  }

  lemma DecideAgainKeepsInv(m: System)
    requires Inv(m) && Enabled(m, DecideAgain)
    ensures Inv(Next(m, DecideAgain))
  {
    hide Decide;
    var stops := StopsAgain(m);
    if stops != [] {
      assert stops[0] in stops;
    }
  }

  /** Every step of the monitor and of every other process keeps the invariant. */
  lemma StepKeepsInv(m: System, ev: Event)
    requires Inv(m) && Enabled(m, ev)
    ensures Inv(Next(m, ev))
  {
    hide Decide, WriteAll, AfterDecideAgain, AfterReadFile, StopInv;
    match ev
    case DecideAgain => DecideAgainKeepsInv(m);
    case ReadFile(readable) => ReadFileIs(m, readable);
    case _ =>
  }

  lemma ReadFileIs(m: System, readable: bool)
    requires m.pc.Reading? && m.pc.names != []
    ensures var after := AfterReadFile(m, readable);
            && after == m.(pc := after.pc) && after.pc.Reading? && after.pc.s == m.pc.s && after.pc.listed == m.pc.listed
            && after.pc.names == m.pc.names[1..]
            && after.pc.read == if readable && m.pc.names[0] in m.store
                                then m.pc.read + [RecordAt(m.pc.names[0], m.store[m.pc.names[0]])] else m.pc.read
  {
  }

  // ---- What others do ----

  /** The other processes change what they say and nothing else: a file is forgotten without a time, or with the one that it holds; an
      operation takes a free lock and frees its own. The end of the monitor frees its lock and no other, and leaves no state. */
  lemma OthersMean(m: System, ev: Event)
    requires Inv(m) && Enabled(m, ev)
    ensures var after := Next(m, ev);
            match ev
            case Forget(key, at) =>
              && after == m.(store := after.store)
              && after.store == if key in m.store && (at.None? || m.store[key].at == at.value) then m.store - {key} else m.store
            case OperationLocks(e) => e !in m.locks && after == m.(locks := m.locks[e := Operation])
            case OperationUnlocks(e) => e in m.locks && m.locks[e] == Operation && after == m.(locks := m.locks - {e})
            case MonitorDies =>
              && after == m.(pc := Idle, state := State(None, None, map[]), locks := after.locks)
              && forall e :: (e in after.locks <==> e in m.locks && m.locks[e] == Operation)
                             && (e in after.locks ==> after.locks[e] == Operation)
            case _ => true
  {
    hide Decide, WriteAll, StopInv;
    if ev.Forget? && ev.key !in m.store { assert m.store - {ev.key} == m.store; }
  }

  /** A monitor that was started again stops nothing at its first tick, whatever it lists and reads. */
  lemma RestartStopsNothing(m: System, listed: seq<Container>, records: seq<Record>)
    requires m.timing.graceMs > 0
    ensures Next(Next(m, MonitorDies), Tick(listed, records)).pc == Trying([])
  {
    var restarted := Next(m, MonitorDies);
    var i := Input(restarted.now, listed, records, restarted.state, restarted.timing);
    assert InGrace(i);
    NoStops(i, RunningEnvironments(listed));
    hide RunningEnvironments, Stops, InGrace, NextState;
    assert Map(EnvironmentOfStop(), []) == [];
  }

  lemma {:induction false} NoStops(i: Input, environments: seq<string>)
    requires InGrace(i)
    ensures Stops(i, environments) == []
  {
    hide InGrace, RecordsOf, Decisive;
    if environments != [] { NoStops(i, environments[..|environments| - 1]); }
  }

  // ---- Runs ----

  /** `events[k]` leads from `states[k]` to `states[k + 1]`. */
  datatype Trace = Trace(states: seq<System>, events: seq<Event>)

  ghost predicate IsTrace(t: Trace) {
    && |t.states| == |t.events| + 1
    && Initial(t.states[0])
    && forall k :: 0 <= k < |t.events| ==> Enabled(t.states[k], t.events[k]) && t.states[k + 1] == Next(t.states[k], t.events[k])
  }

  lemma OneStepMore(t: Trace, ev: Event)
    requires IsTrace(t) && Enabled(t.states[|t.states| - 1], ev)
    ensures IsTrace(Trace(t.states + [Next(t.states[|t.states| - 1], ev)], t.events + [ev]))
  {
    hide Next, Enabled, Initial;
  }

  lemma {:induction false} InvHolds(t: Trace, k: nat)
    requires IsTrace(t) && k < |t.states|
    ensures Inv(t.states[k])
  {
    hide Next, Enabled;
    if k > 0 {
      InvHolds(t, k - 1);
      StepKeepsInv(t.states[k - 1], t.events[k - 1]);
    }
  }

  // ---- The lock is released on every path ----

  predicate OfTheMonitor(ev: Event) {
    ev.ListAgain? || ev.ReadFolder? || ev.ReadFile? || ev.DecideAgain? || ev.StopContainer? || ev.EndStops?
  }

  function Stage(pc: Pc): nat
    requires pc.InSession()
  {
    if pc.Locked? then 3 else if pc.Listed? then 2 else if pc.Reading? then 1 else 0
  }

  function Left(pc: Pc): int
    requires pc.InSession()
  {
    if pc.Reading? then |pc.names| else if pc.Stopping? then |pc.stop.containers| - pc.done else 0
  }

  /** In a session a step of the monitor is always possible (no await waits for another process), and each such step either
      ends the session with the lock free, or leaves less to do. */
  lemma EveryPathReleases(m: System, ev: Event)
    requires Inv(m) && m.pc.InSession()
    ensures exists own :: OfTheMonitor(own) && Enabled(m, own)
    ensures OfTheMonitor(ev) && Enabled(m, ev) ==>
              var after := Next(m, ev);
              if after.pc.InSession()
              then 0 <= Left(after.pc) && (Stage(after.pc) < Stage(m.pc) || (Stage(after.pc) == Stage(m.pc) && Left(after.pc) < Left(m.pc)))
              else m.pc.s.environmentId !in after.locks
  {
    hide Decide;
    SomeStepIsPossible(m);
  }

  lemma SomeStepIsPossible(m: System)
    requires Inv(m) && m.pc.InSession()
    ensures exists own :: OfTheMonitor(own) && Enabled(m, own)
  {
    hide Decide, StopInv, LockInv;
    match m.pc
    case Locked(_) => assert Enabled(m, ListAgain(false));
    case Listed(_, _) =>
      var names := Enumerate(m.store.Keys);
      assert Enabled(m, ReadFolder(names, false));
    case Reading(_, _, names, _) =>
      if names == [] { assert Enabled(m, DecideAgain); } else { assert Enabled(m, ReadFile(true)); }
    case Stopping(_, _, stop, done) =>
      if done < |stop.containers| { assert Enabled(m, StopContainer); } else { assert Enabled(m, EndStops); }
  }

  lemma {:induction false} Enumerate(keys: set<FileKey>) returns (names: seq<FileKey>)
    ensures IsListing(names, keys)
  {
    names := [];
    if keys != {} {
      var key :| key in keys;
      names := Enumerate(keys - {key});
      names := names + [key];
    }
  }
}
