/** A run of the monitor in which a heartbeat file decides whether a container is stopped by being readable or not: a file that
    cannot be read counts as no record (src/remoteMonitor/main.ts). */
module MonitorExample {
  import opened Seqs
  import opened MonitorRules
  import opened MonitorDecision
  import opened MonitorLocality
  import opened HeartbeatRecords
  import opened MonitorLoop

  const UP := Container("c", "running", "n", "e", "")
  const EXPIRED := Record("a", "e", 0, false, 60, false)
  const LIVE := Record("b", "e", 120_000, false, 3600, false)
  const OLD_KEY := FileKey("a", "e")
  const NEW_KEY := FileKey("b", "e")
  const OLD_FILE: Store := map[OLD_KEY := Stored(0, false, 60, 0, false)]
  const BOTH_FILES: Store := OLD_FILE[NEW_KEY := Stored(120_000, false, 3600, 1, false)]
  const HEARTBEAT := Delivery(NEW_KEY, 120_000, 3600, false, Entry("e", false, 1, false))
  const TIMING := Timing(60_000, 120_000)

  /** The host of the example, at a time, with the heartbeat files `store`. */
  function Host(now: int, store: Store, locks: map<string, Holder>, state: State, pc: Pc): System {
    System(now, [UP], store, locks, state, TIMING, pc)
  }

  function Last(t: Trace): System
    requires t.states != []
  {
    t.states[|t.states| - 1]
  }

  lemma Extend(t: Trace, ev: Event) returns (u: Trace)
    requires IsTrace(t) && Enabled(Last(t), ev)
    ensures IsTrace(u) && u.states != [] && Last(u) == Next(Last(t), ev) && u.events == t.events + [ev]
  {
    OneStepMore(t, ev);
    u := Trace(t.states + [Next(Last(t), ev)], t.events + [ev]);
    hide Next, Enabled, Initial;
  }

  // ---- The decisions of the example ----

  lemma NothingToDecide(now: int, state: State)
    ensures var d := Decide(Input(now, [], [], state, TIMING));
            d.stop == [] && d.state == NextState(Input(now, [], [], state, TIMING)) && d.state.futureSeen == map[]
  {
  }

  lemma RunningIs()
    ensures RunningEnvironments([UP]) == ["e"]
  {
    FilterAll(RunningContainer(), [UP]);
    assert Map(EnvironmentOf(), [UP]) == ["e"];
    hide Filter, Map;
    assert ["e"][..0] == [];
  }

  lemma OneStop(i: Input)
    requires i.containers == [UP] && i.records == [EXPIRED] && i.now == 120_000 && !InGrace(i)
    ensures Map(EnvironmentOfStop(), Decide(i).stop) == ["e"]
  {
    RunningIs();
    hide RunningEnvironments;
    assert Clamped(i) == [Seen(EXPIRED, 0)];
    FilterAll(OfEnvironment("e"), Clamped(i));
    assert RecordsOf(i, "e") == [Seen(EXPIRED, 0)];
    hide RunningEnvironments, RecordsOf, Clamped, Superseded, Forgotten, NextState, IsActive, DevContainerFirst, RunningOf;
    assert VerdictOf(i, "e").Silent?;
    assert Stops(i, ["e"]) == [StopOf(i, "e")];
  }

  /** The second decision, on the records that were read, of which the last one is the newest. */
  lemma StopAgainWhen(m: System, newest: Record)
    requires m.pc.Reading? && m.pc.s.environmentId == "e" && m.pc.listed == [UP] && m.now == 120_000
    requires m.state == State(Some(120_000), None, map[]) && m.timing == TIMING
    requires m.pc.read == [newest] || (|m.pc.read| == 2 && m.pc.read[1] == newest && m.pc.read[0].at < newest.at)
    requires !newest.release && !newest.keepRunning && forall r :: r in m.pc.read ==> r.environmentId == "e" && r.at <= 120_000
    ensures StopsAgain(m) != [] <==> 120_000 - newest.at > newest.limitSeconds * 1000
  {
    var i := InputAgain(m, [UP], m.pc.read, "e");
    assert i.now == 120_000 && !InGrace(i);
    hide RecordsOf, Decisive, InputAgain, InGrace, StopsAgain, Filter;
    NewestReadDecides(m, i, newest);
    assert UP in i.containers;
    StoppedByVerdict(i, "e");
    StopsAgainAre(m, i);
  }

  lemma StopsAgainAre(m: System, i: Input)
    requires m.pc.Reading? && m.pc.s.environmentId == "e" && i == InputAgain(m, m.pc.listed, m.pc.read, "e")
    ensures StopsAgain(m) != [] <==> Stopped(i, "e")
  {
    hide Decide;
    var stops := StopsAgain(m);
    assert stops == Filter(StopFor("e"), Decide(i).stop);
    if Stopped(i, "e") {
      var stop :| stop in Decide(i).stop && stop.environmentId == "e";
      assert stop in stops;
    }
    if stops != [] { assert stops[0] in stops; }
  }

  lemma NewestReadDecides(m: System, i: Input, newest: Record)
    requires m.pc.Reading? && m.now == 120_000 && i == InputAgain(m, [UP], m.pc.read, "e")
    requires m.pc.read == [newest] || (|m.pc.read| == 2 && m.pc.read[1] == newest && m.pc.read[0].at < newest.at)
    requires !newest.release && forall r :: r in m.pc.read ==> r.environmentId == "e" && r.at <= 120_000
    ensures i.containers == [UP] && RecordsOf(i, "e") != [] && Decisive(i.now, RecordsOf(i, "e")) == Seen(newest, newest.at)
  {
    var read := m.pc.read;
    FilterAll(ContainerOf("e"), [UP]);
    FilterAll(RecordOf("e"), read);
    var seen := Clamped(i);
    assert forall k :: 0 <= k < |read| ==> seen[k] == Seen(read[k], read[k].at);
    FilterAll(OfEnvironment("e"), seen);
    assert RecordsOf(i, "e") == seen;
    hide Clamped, RecordsOf, Filter;
    if |read| == 2 {
      assert seen[..1] == [seen[0]];
      assert NewestOf(seen[..1]) == seen[0];
    }
    assert NewestOf(seen) == Seen(newest, newest.at);
  }

  // ---- The run ----

  /** Three ticks, until the grace of the start is over; the last one finds the environment silent and will try its lock. */
  lemma UntilTheStop() returns (t: Trace)
    ensures IsTrace(t) && Last(t) == Host(120_000, OLD_FILE, map[], State(Some(120_000), None, map[]), Trying(["e"]))
  {
    var start := Host(0, OLD_FILE, map[], INITIAL_STATE, Idle);
    t := Trace([start], []);
    t := QuietTick(t, 0, INITIAL_STATE, 60_000);
    t := QuietTick(t, 60_000, State(Some(0), Some(120_000), map[]), 120_000);
    var state := State(Some(60_000), Some(120_000), map[]);
    var i := Input(120_000, [UP], [EXPIRED], state, TIMING);
    OneStop(i);
    assert NextState(i) == State(Some(120_000), None, map[]);
    hide IsTrace, Stops, RunningEnvironments, Superseded, Forgotten, IsActive;
    t := Extend(t, Tick([UP], [EXPIRED]));
  }

  /** A tick that finds nothing, and the time until the next one. */
  lemma QuietTick(t: Trace, now: int, state: State, next: int) returns (u: Trace)
    requires IsTrace(t) && Last(t) == Host(now, OLD_FILE, map[], state, Idle)
    ensures IsTrace(u) && Last(u) == Host(next, OLD_FILE, map[], NextState(Input(now, [], [], state, TIMING)), Idle)
  {
    NothingToDecide(now, state);
    hide IsTrace, Decide, NextState;
    u := Extend(t, Tick([], []));
    var none: seq<string> := [];
    assert Last(u).pc == Trying(none);
    u := Extend(u, EndTick);
    u := Extend(u, Clock(next));
  }

  /** A heartbeat is complete; then the lock is taken. */
  lemma UntilTheLock() returns (t: Trace)
    ensures IsTrace(t) && t.states != [] && IsLockedAfterHeartbeat(t.events, 2)
    ensures Last(t) == Host(120_000, BOTH_FILES, map["e" := Monitor], AFTER_TICK, Locked(Session("e", [])))
  {
    t := UntilTheStop();
    HeartbeatIsWritten();
    hide IsTrace, WriteAll, Decide;
    t := Extend(t, Heartbeats([HEARTBEAT]));
    assert Last(t) == Host(120_000, BOTH_FILES, map[], AFTER_TICK, Trying(["e"]));
    assert ["e"][1..] == [] && map[]["e" := Monitor] == map["e" := Monitor];
    t := Extend(t, TryLock(false));
  }

  const AFTER_TICK := State(Some(120_000), None, map[])

  /** Under the lock the containers are listed, and the folder, and the older file is read. */
  lemma UntilTheFile() returns (t: Trace)
    ensures IsTrace(t) && t.states != [] && IsLockedAfterHeartbeat(t.events, 5)
    ensures Last(t) == Host(120_000, BOTH_FILES, map["e" := Monitor], AFTER_TICK, Reading(Session("e", []), [UP], [NEW_KEY], [EXPIRED]))
  {
    hide *;
    var locked := UntilTheLock();
    t := SecondListing(locked);
    t := FirstFile(t);
    EventsOfReading(locked.events);
  }

  lemma EventsOfReading(events: seq<Event>)
    requires IsLockedAfterHeartbeat(events, 2)
    ensures var more := events + [ListAgain(false)] + [ReadFolder([OLD_KEY, NEW_KEY], false), ReadFile(true)];
            IsLockedAfterHeartbeat(more, 5)
  {
  }

  lemma SecondListing(t: Trace) returns (u: Trace)
    requires IsTrace(t) && t.states != []
    requires Last(t) == Host(120_000, BOTH_FILES, map["e" := Monitor], AFTER_TICK, Locked(Session("e", [])))
    ensures IsTrace(u) && u.states != [] && u.events == t.events + [ListAgain(false)]
    ensures Last(u) == Host(120_000, BOTH_FILES, map["e" := Monitor], AFTER_TICK, Listed(Session("e", []), [UP]))
  {
    FilterAll(ContainerOf("e"), [UP]);
    hide IsTrace, IsListing, Decide;
    u := Extend(t, ListAgain(false));
  }

  lemma FirstFile(t: Trace) returns (u: Trace)
    requires IsTrace(t) && t.states != []
    requires Last(t) == Host(120_000, BOTH_FILES, map["e" := Monitor], AFTER_TICK, Listed(Session("e", []), [UP]))
    ensures IsTrace(u) && u.states != [] && u.events == t.events + [ReadFolder([OLD_KEY, NEW_KEY], false), ReadFile(true)]
    ensures Last(u) == Host(120_000, BOTH_FILES, map["e" := Monitor], AFTER_TICK, Reading(Session("e", []), [UP], [NEW_KEY], [EXPIRED]))
  {
    hide IsTrace, IsListing;
    ListingIs();
    u := Extend(t, ReadFolder([OLD_KEY, NEW_KEY], false));
    assert Last(u).pc == Reading(Session("e", []), [UP], [OLD_KEY, NEW_KEY], []);
    ReadFileIs(Last(u), true);
    assert [OLD_KEY, NEW_KEY][1..] == [NEW_KEY];
    var none: seq<Record> := [];
    assert none + [EXPIRED] == [EXPIRED];
    assert RecordAt(OLD_KEY, BOTH_FILES[OLD_KEY]) == EXPIRED;
    u := Extend(u, ReadFile(true));
    assert u.events == t.events + [ReadFolder([OLD_KEY, NEW_KEY], false), ReadFile(true)];
  }

  lemma ListingIs()
    ensures IsListing([OLD_KEY, NEW_KEY], BOTH_FILES.Keys)
  {
  }

  /** The heartbeat comes before the lock, `n` events before the end. */
  predicate IsLockedAfterHeartbeat(events: seq<Event>, n: nat) {
    2 <= n <= |events| && events[|events| - n] == Heartbeats([HEARTBEAT]) && events[|events| - n + 1] == TryLock(false)
  }

  lemma HeartbeatIsWritten()
    ensures WriteAll(OLD_FILE, [HEARTBEAT]) == BOTH_FILES
  {
    assert [HEARTBEAT][..0] == [];
  }

  /** The file of the heartbeat is read, or cannot be; then the decision. */
  lemma Decided(t: Trace, readable: bool) returns (u: Trace)
    requires IsTrace(t) && t.states != []
    requires Last(t) == Host(120_000, BOTH_FILES, map["e" := Monitor], AFTER_TICK, Reading(Session("e", []), [UP], [NEW_KEY], [EXPIRED]))
    ensures IsTrace(u) && u.states != [] && u.events == t.events + [ReadFile(readable), Event.DecideAgain] && Last(u).store == BOTH_FILES
    ensures if readable then Last(u).pc == Trying([]) && "e" !in Last(u).locks
            else Last(u).pc.Stopping? && Last(u).pc.stop.containers != [] && Last(u).pc.done == 0
  {
    hide IsTrace, WriteAll, Decide, StopsAgain, Initial;
    assert [NEW_KEY][1..] == [];
    u := Extend(t, ReadFile(readable));
    var m := Last(u);
    assert m.pc == Reading(Session("e", []), [UP], [], if readable then [EXPIRED, LIVE] else [EXPIRED]);
    StopAgainWhen(m, if readable then LIVE else EXPIRED);
    u := Extend(u, Event.DecideAgain);
    if !readable { StopHasContainers(m); }
    assert u.events == t.events + [ReadFile(readable), Event.DecideAgain];
  }

  lemma StopHasContainers(m: System)
    requires m.pc.Reading? && StopsAgain(m) != [] && m.pc.listed == [UP] && m.pc.s.environmentId == "e"
    ensures StopsAgain(m)[0].containers != []
  {
    var i := InputAgain(m, m.pc.listed, m.pc.read, "e");
    FilterAll(ContainerOf("e"), [UP]);
    assert StopsAgain(m)[0] in StopsAgain(m);
    assert UP in i.containers;
    StopContainers(i, StopsAgain(m)[0]);
    hide Decide, StopsAgain;
  }

  /** The same run twice, but for one read: a live and newest heartbeat, complete before the lock was taken, does not prevent the
      stop when its file cannot be read, and does when it can. */
  lemma AnUnreadableHeartbeatIsNotSeen() returns (until: Trace, unread: Trace, seen: Trace)
    ensures IsTrace(until) && IsTrace(unread) && IsTrace(seen)
    ensures IsLockedAfterHeartbeat(until.events, 5) && Last(unread).store == Last(seen).store == BOTH_FILES
    ensures unread.events == until.events + [ReadFile(false), Event.DecideAgain] && Enabled(Last(unread), StopContainer)
    ensures seen.events == until.events + [ReadFile(true), Event.DecideAgain] && Last(seen).pc == Trying([]) && "e" !in Last(seen).locks
  {
    until := UntilTheFile();
    unread := Decided(until, false);
    seen := Decided(until, true);
    hide IsTrace;
  }
}
