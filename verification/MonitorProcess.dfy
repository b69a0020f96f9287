/** The control flow of the stops of a tick (src/remoteMonitor/main.ts): loops, early ends and the release in `finally`, with the
    other processes of the host acting at every await. What it does is a run of the transition system of MonitorLoop. */
module MonitorProcess {
  import opened Seqs
  import opened MonitorRules
  import opened MonitorDecide
  import opened HeartbeatRecords
  import opened MonitorLocality
  import opened MonitorLoop
  import opened MonitorSessions

  predicate OfOthers(ev: Event) {
    ev.Clock? || ev.Containers? || ev.Heartbeats? || ev.Forget? || ev.OperationLocks? || ev.OperationUnlocks?
  }

  /** What the other processes do, as far as they can. */
  function AfterOthers(m: System, evs: seq<Event>): System {
    if evs == [] then m
    else
      var before, ev := AfterOthers(m, evs[..|evs| - 1]), evs[|evs| - 1];
      if OfOthers(ev) && Enabled(before, ev) then Next(before, ev) else before
  }

  // ---- What the calls answered ----

  /** Whether the call before the event failed, as the event says; of a stop the loop does not ask. */
  function AnswerOf(ev: Event): Option<Option<bool>> {
    match ev
    case TryLock(failed) => Some(Some(failed))
    case ListAgain(failed) => Some(Some(failed))
    case ReadFolder(_, failed) => Some(Some(failed))
    case ReadFile(readable) => Some(Some(!readable))
    case StopContainer => Some(None)
    case _ => None
  }

  /** The answers of the calls that the events follow, in order. */
  function Answers(evs: seq<Event>): seq<Option<bool>> {
    if evs == [] then []
    else
      var before, answer := Answers(evs[..|evs| - 1]), AnswerOf(evs[|evs| - 1]);
      if answer.Some? then before + [answer.value] else before
  }

  lemma AnswersMore(evs: seq<Event>, ev: Event)
    ensures Answers(evs + [ev]) == if AnswerOf(ev).Some? then Answers(evs) + [AnswerOf(ev).value] else Answers(evs)
  {
    assert (evs + [ev])[..|evs|] == evs;
  }

  /** The n-th of them says whether the n-th call failed. */
  ghost predicate SaysWhatFailed(fails: nat -> bool, evs: seq<Event>, awaits: nat) {
    |Answers(evs)| == awaits && forall n :: 0 <= n < awaits && Answers(evs)[n].Some? ==> Answers(evs)[n].value == fails(n)
  }

  lemma SaysMore(fails: nat -> bool, evs: seq<Event>, awaits: nat, ev: Event)
    requires SaysWhatFailed(fails, evs, awaits)
    requires var answer := AnswerOf(ev); answer.Some? && answer.value.Some? ==> answer.value.value == fails(awaits)
    ensures SaysWhatFailed(fails, evs + [ev], if AnswerOf(ev).Some? then awaits + 1 else awaits)
  {
    hide Answers, AnswerOf;
    AnswersMore(evs, ev);
  }

  lemma TraceIs(states: seq<System>, events: seq<Event>)
    requires IsTrace(Trace(states, events))
    ensures |states| == |events| + 1
  {
    hide Next, Enabled;
  }

  // ---- What is stopped when no call fails and nobody else acts ----

  /** The containers of the stop events, in order. */
  function StopsIn(states: seq<System>, events: seq<Event>): seq<Container>
    requires |states| > |events|
  {
    if events == [] then []
    else
      var n := |events| - 1;
      var before, stopped := StopsIn(states, events[..n]), ToStop(states[n]);
      if events[n].StopContainer? && stopped.Some? then before + [stopped.value] else before
  }

  lemma {:induction false} StopsMore(states: seq<System>, events: seq<Event>, m: System, ev: Event)
    requires |states| == |events| + 1
    ensures StopsIn(states + [m], events + [ev]) ==
            if ev.StopContainer? && ToStop(states[|events|]).Some?
            then StopsIn(states, events) + [ToStop(states[|events|]).value] else StopsIn(states, events)
  {
    assert (events + [ev])[..|events|] == events;
    StopsSame(states, states + [m], events);
  }

  lemma {:induction false} StopsSame(a: seq<System>, b: seq<System>, events: seq<Event>)
    requires |events| < |a| <= |b| && a == b[..|a|]
    ensures StopsIn(a, events) == StopsIn(b, events)
  {
    if events != [] { StopsSame(a, b, events[..|events| - 1]); }
  }

  /** The records of an environment in the order of a listing of the files. */
  function RecordsInOrder(store: Store, names: seq<FileKey>, e: string): seq<Record> {
    if names == [] then []
    else
      var before, key := RecordsInOrder(store, names[..|names| - 1], e), names[|names| - 1];
      if key in store && key.environmentId == e
      then before + [Record(key.source, e, store[key].at, store[key].keepRunning, store[key].limitSeconds, store[key].release)]
      else before
  }

  /** What a decision on the present containers and records of `e` is told: with the state of the tick, and no gap. */
  function InputNow(m: System, names: seq<FileKey>, e: string): Input {
    Input(m.now, Filter((c: Container) => c.environmentId == e, m.containers), RecordsInOrder(m.store, names, e),
          State(Some(m.now), m.state.graceUntil, m.state.futureSeen), m.timing)
  }

  /** The containers that this decision says to stop, in its order; none when it says no stop. */
  ghost predicate IsStopOf(m: System, names: seq<FileKey>, e: string, cs: seq<Container>) {
    var d := Decide(InputNow(m, names, e));
    if exists s :: s in d.stop && s.environmentId == e then exists s :: s in d.stop && s.environmentId == e && s.containers == cs
    else cs == []
  }

  /** What the loop stops of an environment: nothing when its lock is taken, else what the decision says. */
  ghost predicate IsStopped(m: System, e: string, cs: seq<Container>) {
    if e in m.locks then cs == [] else IsStopNow(m, e, cs)
  }

  /** What is stopped of each environment. */
  ghost predicate AreStopped(m: System, queue: seq<string>, each: seq<seq<Container>>) {
    |each| == |queue| && forall k :: 0 <= k < |queue| ==> IsStopped(m, queue[k], each[k])
  }

  /** Nothing but the place of the monitor is another one. */
  predicate SameHost(a: System, b: System) { b == a.(pc := b.pc, locks := b.locks) }

  class RemoteMonitorLoop {
    /** What other processes do at the n-th await, and whether the call that is awaited fails. */
    const others: nat -> seq<Event>
    const fails: nat -> bool
    var m: System
    var awaits: nat
    /** The other processes have acted at the await of the next call. */
    ghost var met: bool
    ghost var states: seq<System>
    ghost var events: seq<Event>

    ghost predicate Valid()
      reads `m, `awaits, `states, `events
    {
      && IsTrace(Trace(states, events)) && m == states[|states| - 1]
      && SaysWhatFailed(fails, events, awaits)
    }

    /** No call fails, and nobody else acts. */
    ghost predicate IsQuiet() { forall n :: others(n) == [] && !fails(n) }

    /** The containers that were stopped so far. */
    ghost function Stopped(): seq<Container>
      requires Valid()
      reads `m, `awaits, `states, `events
    {
      StopsIn(states, events)
    }

    constructor (m: System, others: nat -> seq<Event>, fails: nat -> bool)
      requires Initial(m)
      ensures Valid() && this.m == m && this.others == others && this.fails == fails
    {
      this.m, this.others, this.fails := m, others, fails;
      awaits, met, states, events := 0, false, [m], [];
    }

    /** One step of the host: of the monitor, which waited for the call before it and says how that went, or of another process. */
    method Do(ev: Event)
      requires Valid() && Enabled(m, ev) && (AnswerOf(ev).Some? ==> met)
      requires var answer := AnswerOf(ev); answer.Some? && answer.value.Some? ==> answer.value.value == fails(awaits)
      modifies this`m, this`states, this`events, this`awaits, this`met
      ensures Valid() && m == Next(old(m), ev) && met == (old(met) && AnswerOf(ev).None?)
      ensures awaits == old(awaits) + if AnswerOf(ev).Some? then 1 else 0
      ensures states == old(states) + [m] && events == old(events) + [ev]
      ensures Stopped() == old(Stopped()) + if ev.StopContainer? && ToStop(old(m)).Some? then [ToStop(old(m)).value] else []
    {
      hide Next, Enabled, Answers, AnswerOf, StopsIn, SaysWhatFailed, IsTrace;
      OneStepMore(Trace(states, events), ev);
      TraceIs(states, events);
      SaysMore(fails, events, awaits, ev);
      StopsMore(states, events, Next(m, ev), ev);
      m := Next(m, ev);
      states, events := states + [m], events + [ev];
      if AnswerOf(ev).Some? { awaits, met := awaits + 1, false; }
    }

    /** The other processes act; then the awaited call fails, or not. */
    method Await() returns (failed: bool)
      requires Valid()
      modifies this
      ensures Valid() && awaits == old(awaits) && failed == fails(awaits)
      ensures m.pc == old(m).pc && old(states) <= states && old(events) <= events
      ensures met && m == AfterOthers(old(m), others(awaits))
      ensures others(awaits) == [] ==> m == old(m) && Stopped() == old(Stopped())
    {
      hide *;
      var evs := others(awaits);
      NoOthers(m, evs);
      for k := 0 to |evs|
        invariant Valid() && awaits == old(awaits) && m.pc == old(m).pc && old(states) <= states && old(events) <= events
        invariant m == AfterOthers(old(m), evs[..k])
        invariant k == 0 ==> m == old(m) && Stopped() == old(Stopped())
      {
        OthersStep(old(m), evs, k);
        if OfOthers(evs[k]) && Enabled(m, evs[k]) {
          OthersKeepPlace(m, evs[k]);
          Do(evs[k]);
        }
      }
      assert evs[..|evs|] == evs;
      met, failed := true, fails(awaits);
    }

    /** The environments to stop, one after the other: each under its lock. At the end the monitor holds no lock. When no call fails and
        nobody else acts, exactly those are stopped whose lock is free and that a decision on their present containers and records
        says to stop, each with its containers in their order, and nothing else is changed. */
    method StopEnvironments()
      requires Valid() && m.pc.Trying?
      modifies this
      ensures Valid() && m.pc == Trying([])
      ensures forall e :: e in m.locks ==> m.locks[e] == Operation
      ensures old(states) <= states && old(events) <= events
      ensures IsQuiet() ==>
                && SameHost(old(m), m) && m.locks == old(m).locks
                && exists each :: AreStopped(old(m), old(m).pc.queue, each) && Stopped() == old(Stopped()) + Flatten(each)
    {
      hide *;
      ghost var done: seq<string>, each: seq<seq<Container>> := [], [];
      StartsStopping(m, m.pc.queue, done, each, Stopped());
      while m.pc.queue != []
        invariant Valid() && m.pc.Trying?
        invariant old(states) <= states && old(events) <= events
        invariant IsQuiet() ==> IsStoppedUpTo(old(m), old(Stopped()), m, done, each, Stopped())
        decreases |m.pc.queue|
      {
        ghost var before, stopped, queue := m, Stopped(), m.pc.queue;
        var failed := Await();
        QuietCall();
        TryLockIs(m, failed);
        Do(TryLock(failed));
        ghost var tried, now: seq<Container> := m, [];
        if m.pc.Locked? { now := StopUnderLock(); }
        if IsQuiet() {
          SessionIs(before, tried, m, now);
          StoppedMore(old(m), old(Stopped()), before, m, queue, done, each, now, stopped, Stopped());
        }
        done, each := done + [queue[0]], each + [now];
      }
      StoppedAll(old(m), old(Stopped()), m, done, each, Stopped());
      IsValid();
      NoLockLeft(Trace(states, events));
    }

    /** From the lock to its release: on every path the session ends, and the next environment follows. When no call fails and nobody
        else acts, the containers `cs` that the decision on the present containers and records says to stop are stopped, in order. */
    method StopUnderLock() returns (ghost cs: seq<Container>)
      requires Valid() && m.pc.Locked?
      modifies this
      ensures Valid() && m.pc == Trying(old(m).pc.s.queue) && old(states) <= states && old(events) <= events
      ensures IsQuiet() ==>
                m == Released(old(m)) && Stopped() == old(Stopped()) + cs && IsStopNow(old(m), old(m).pc.s.environmentId, cs)
    {
      hide *;
      ghost var e := m.pc.s.environmentId;
      var again, names := DecideAgain();
      cs := [];
      if IsQuiet() && !again { StopNow(old(m), names, e, cs); }
      if !again { return; }
      cs := m.pc.stop.containers;
      if IsQuiet() { StopNow(old(m), names, e, cs); }
      ghost var s, from, stopped := m.pc.s, m, Stopped();
      while m.pc.done < |m.pc.stop.containers|
        invariant Valid() && m.pc.Stopping? && m.pc.s.queue == s.queue && m.pc.done <= |m.pc.stop.containers|
        invariant old(states) <= states && old(events) <= events
        invariant IsQuiet() ==> m == from.(pc := from.pc.(done := m.pc.done)) && Stopped() == stopped + cs[..m.pc.done]
        decreases |m.pc.stop.containers| - m.pc.done
      {
        var _ := Await();
        QuietCall();
        StopIs(m);
        Do(StopContainer);
      }
      StopIs(m);
      if IsQuiet() { ReleasedAlike(from, m); }
      Do(EndStops);
      if IsQuiet() {
        ReleasedAlike(old(m), from);
        assert cs[..|cs|] == cs;
      }
    }

    /** Under the lock: the containers and the records are read again and decided again. False: the session is over. */
    method DecideAgain() returns (again: bool, ghost names: seq<FileKey>)
      requires Valid() && m.pc.Locked?
      modifies this
      ensures Valid() && old(states) <= states && old(events) <= events
      ensures if again then m.pc.Stopping? && m.pc.s.queue == old(m).pc.s.queue && m.pc.done == 0
              else m.pc == Trying(old(m).pc.s.queue)
      ensures IsQuiet() ==>
                && Stopped() == old(Stopped()) && IsListing(names, old(m).store.Keys)
                && (if again then m == old(m).(pc := m.pc) && m.pc.s == old(m).pc.s else m == Released(old(m)))
                && IsStopOf(old(m), names, old(m).pc.s.environmentId, if again then m.pc.stop.containers else [])
    {
      hide *;
      again, names := ReadAgain();
      if !again { return; }
      ghost var queue, from := m.pc.s.queue, m;
      ghost var k := 0;
      if IsQuiet() { NothingRead(from); }
      while m.pc.names != []
        invariant Valid() && m.pc.Reading? && m.pc.s.queue == queue
        invariant old(states) <= states && old(events) <= events
        invariant IsQuiet() ==> Stopped() == old(Stopped()) && 0 <= k <= |names| && IsReadUpTo(from, names, k, m)
        decreases |m.pc.names|
      {
        var failed := Await();
        QuietCall();
        FileIsRead(m, !failed);
        if IsQuiet() { ReadOneMore(from, names, k, m); }
        Do(ReadFile(!failed));
        k := k + 1;
      }
      DecideAgainIs(m);
      if IsQuiet() { DecidesOnPresent(old(m), from, names, k, m); }
      Do(Event.DecideAgain);
      again := m.pc.Stopping?;
    }

    /** The containers of the environment and the names of the records; false: one of them could not be read. */
    method ReadAgain() returns (again: bool, ghost listing: seq<FileKey>)
      requires Valid() && m.pc.Locked?
      modifies this
      ensures Valid() && old(states) <= states && old(events) <= events
      ensures if again then m.pc.Reading? && m.pc.s.queue == old(m).pc.s.queue else m.pc == Trying(old(m).pc.s.queue)
      ensures IsQuiet() ==>
                && again && Stopped() == old(Stopped()) && IsListing(listing, old(m).store.Keys)
                && m == old(m).(pc := Reading(old(m).pc.s, ContainersNow(old(m), old(m).pc.s.environmentId), listing, []))
    {
      hide *;
      listing := [];
      var failed := Await();
      QuietCall();
      ListAgainIs(m, failed);
      Do(ListAgain(failed));
      if failed { return false, listing; }
      failed := Await();
      QuietCall();
      var names := NamesOf(m.store.Keys);
      ReadFolderIs(m, names, failed);
      Do(ReadFolder(names, failed));
      again, listing := !failed, names;
    }

    lemma QuietCall()
      ensures IsQuiet() ==> forall n :: others(n) == [] && !fails(n)
    {
    }

    lemma IsValid()
      requires Valid()
      ensures IsTrace(Trace(states, events)) && m == states[|states| - 1]
    {
    }

    /** The files of the folder, in some order. */
    method NamesOf(keys: set<FileKey>) returns (names: seq<FileKey>)
      ensures IsListing(names, keys)
    {
      names := [];
      var left := keys;
      while left != {}
        invariant left <= keys && IsListing(names, keys - left)
        decreases |left|
      {
        var key :| key in left;
        names := names + [key];
        left := left - {key};
      }
    }

    /** The start of a tick: the decision on what was listed and read; the environments to stop are those of its stops, in order. */
    method DecideFirst(listed: seq<Container>, records: seq<Record>)
      requires Valid() && m.pc.Idle?
      modifies this
      ensures Valid() && m == Next(old(m), Tick(listed, records))
      ensures var d := MonitorRules.Decide(Input(old(m).now, listed, records, old(m).state, old(m).timing));
              && m.state == d.state && m.pc.Trying? && |m.pc.queue| == |d.stop|
              && forall k :: 0 <= k < |d.stop| ==> m.pc.queue[k] == d.stop[k].environmentId
    {
      var d := DecideTick(Input(m.now, listed, records, m.state, m.timing));
      ghost var before := m;
      OneStepMore(Trace(states, events), Tick(listed, records));
      AnswersMore(events, Tick(listed, records));
      m := m.(state := d.state, pc := Trying(Map(EnvironmentOfStop(), d.stop)));
      assert m == Next(before, Tick(listed, records));
      states, events := states + [m], events + [Tick(listed, records)];
    }
  }

  // ---- The steps that the code relies on ----

  lemma NoOthers(m: System, evs: seq<Event>)
    ensures AfterOthers(m, evs[..0]) == m
  {
  }

  lemma OthersStep(m: System, evs: seq<Event>, k: nat)
    requires k < |evs|
    ensures var before := AfterOthers(m, evs[..k]);
            AfterOthers(m, evs[..k + 1]) == if OfOthers(evs[k]) && Enabled(before, evs[k]) then Next(before, evs[k]) else before
  {
    hide Next, Enabled;
    assert evs[..k + 1][..k] == evs[..k];
  }

  lemma OthersKeepPlace(m: System, ev: Event)
    requires OfOthers(ev) && Enabled(m, ev)
    ensures Next(m, ev).pc == m.pc && AnswerOf(ev) == None
  {
    hide MonitorRules.Decide, WriteAll;
  }

  /** The lock is free, and the next environment follows. */
  function Released(m: System): (after: System)
    requires m.pc.InSession()
    ensures after.pc == Trying(m.pc.s.queue)
  {
    m.(locks := m.locks - {m.pc.s.environmentId}, pc := Trying(m.pc.s.queue))
  }

  lemma ReleasedAlike(a: System, b: System)
    requires a.pc.InSession() && b.pc.InSession() && b == a.(pc := b.pc) && a.pc.s == b.pc.s
    ensures Released(a) == Released(b)
  {
  }

  function ContainersNow(m: System, e: string): seq<Container> { Filter((c: Container) => c.environmentId == e, m.containers) }

  lemma TryLockIs(m: System, failed: bool)
    requires m.pc.Trying? && m.pc.queue != []
    ensures Enabled(m, TryLock(failed)) && AnswerOf(TryLock(failed)) == Some(Some(failed)) && !TryLock(failed).StopContainer?
    ensures var e, rest := m.pc.queue[0], m.pc.queue[1..];
            Next(m, TryLock(failed)) ==
              if failed || e in m.locks then m.(pc := Trying(rest))
              else m.(locks := m.locks[e := Monitor], pc := Locked(Session(e, rest)))
  {
  }

  lemma StopIs(m: System)
    requires m.pc.Stopping?
    ensures AnswerOf(StopContainer) == Some(None) && AnswerOf(EndStops) == None
    ensures m.pc.done < |m.pc.stop.containers| ==>
              && Enabled(m, StopContainer) && Next(m, StopContainer) == m.(pc := m.pc.(done := m.pc.done + 1))
              && ToStop(m) == Some(m.pc.stop.containers[m.pc.done])
    ensures m.pc.done == |m.pc.stop.containers| ==> Enabled(m, EndStops) && Next(m, EndStops) == Released(m)
  {
  }

  lemma ListAgainIs(m: System, failed: bool)
    requires m.pc.Locked?
    ensures Enabled(m, ListAgain(failed)) && AnswerOf(ListAgain(failed)) == Some(Some(failed))
    ensures Next(m, ListAgain(failed)) ==
              if failed then Released(m) else m.(pc := Listed(m.pc.s, ContainersNow(m, m.pc.s.environmentId)))
  {
    if !failed {
      FilterAgrees(ContainerOf(m.pc.s.environmentId), (c: Container) => c.environmentId == m.pc.s.environmentId, m.containers);
    }
  }

  lemma ReadFolderIs(m: System, names: seq<FileKey>, failed: bool)
    requires m.pc.Listed? && IsListing(names, m.store.Keys)
    ensures Enabled(m, ReadFolder(names, failed)) && AnswerOf(ReadFolder(names, failed)) == Some(Some(failed))
    ensures Next(m, ReadFolder(names, failed)) == if failed then Released(m) else m.(pc := Reading(m.pc.s, m.pc.listed, names, []))
  {
  }

  lemma FileIsRead(m: System, readable: bool)
    requires m.pc.Reading? && m.pc.names != []
    ensures Enabled(m, ReadFile(readable)) && AnswerOf(ReadFile(readable)) == Some(Some(!readable))
    ensures var after := Next(m, ReadFile(readable)).pc;
            after.Reading? && |after.names| < |m.pc.names| && after.s.queue == m.pc.s.queue
  {
  }

  lemma DecideAgainIs(m: System)
    requires m.pc.Reading? && m.pc.names == []
    ensures Enabled(m, Event.DecideAgain) && AnswerOf(Event.DecideAgain) == None
    ensures var after := Next(m, Event.DecideAgain).pc;
            after == Trying(m.pc.s.queue) || (after.Stopping? && after.s == m.pc.s && after.done == 0)
  {
    hide MonitorRules.Decide, StopsAgain;
  }

  lemma NoLockLeft(t: Trace)
    requires IsTrace(t) && t.states[|t.states| - 1].pc.Trying?
    ensures var m := t.states[|t.states| - 1];
            forall e :: e in m.locks ==> m.locks[e] == Operation
  {
    InvHolds(t, |t.states| - 1);
    var m := t.states[|t.states| - 1];
    assert LockInv(m);
    forall e | e in m.locks
      ensures m.locks[e] == Operation
    {
    }
  }

  // ---- When no call fails and nobody else acts ----

  /** The records of the first `k` files are read. */
  ghost predicate IsReadUpTo(from: System, names: seq<FileKey>, k: nat, m: System) {
    && k <= |names| && from.pc.Reading? && m.pc.Reading?
    && m == from.(pc := Reading(from.pc.s, from.pc.listed, names[k..], AllIn(from.store, names[..k])))
  }

  function AllIn(store: Store, names: seq<FileKey>): seq<Record> {
    if names == [] then []
    else
      var before, key := AllIn(store, names[..|names| - 1]), names[|names| - 1];
      if key in store then before + [RecordAt(key, store[key])] else before
  }

  lemma NothingRead(from: System)
    requires from.pc.Reading? && from.pc.read == []
    ensures IsReadUpTo(from, from.pc.names, 0, from)
  {
  }

  lemma ReadOneMore(from: System, names: seq<FileKey>, k: nat, m: System)
    requires IsReadUpTo(from, names, k, m) && m.pc.names != [] && Enabled(m, ReadFile(true))
    ensures k < |names| && IsReadUpTo(from, names, k + 1, Next(m, ReadFile(true)))
  {
    assert names[..k + 1][..k] == names[..k] && names[k..][1..] == names[k + 1..];
  }

  lemma {:induction false} AllOfEnvironment(store: Store, names: seq<FileKey>, e: string)
    ensures Filter(RecordOf(e), AllIn(store, names)) == RecordsInOrder(store, names, e)
  {
    if names != [] {
      var init, key := names[..|names| - 1], names[|names| - 1];
      AllOfEnvironment(store, init, e);
      if key in store { FilterSnoc(RecordOf(e), AllIn(store, init), RecordAt(key, store[key])); }
    }
  }

  lemma InputAgainIs(start: System, from: System, names: seq<FileKey>, m: System)
    requires start.pc.Locked? && IsReadUpTo(from, names, |names|, m)
    requires var e := start.pc.s.environmentId; from == start.(pc := Reading(start.pc.s, ContainersNow(start, e), names, []))
    ensures var e := start.pc.s.environmentId; InputAgain(m, m.pc.listed, m.pc.read, e) == InputNow(start, names, e)
  {
    hide AllIn, RecordsInOrder;
    var e := start.pc.s.environmentId;
    assert names[..|names|] == names;
    AllOfEnvironment(start.store, names, e);
    FilterAll(ContainerOf(e), ContainersNow(start, e));
  }

  /** The second decision is the one on the present containers and records. */
  lemma DecidesOnPresent(start: System, from: System, names: seq<FileKey>, k: nat, m: System)
    requires start.pc.Locked? && IsReadUpTo(from, names, k, m) && m.pc.names == [] && Enabled(m, Event.DecideAgain)
    requires var e := start.pc.s.environmentId; from == start.(pc := Reading(start.pc.s, ContainersNow(start, e), names, []))
    ensures var e, after := start.pc.s.environmentId, Next(m, Event.DecideAgain);
            && (if after.pc.Stopping? then after == start.(pc := after.pc) && after.pc.s == start.pc.s else after == Released(start))
            && IsStopOf(start, names, e, if after.pc.Stopping? then after.pc.stop.containers else [])
  {
    hide MonitorRules.Decide, InputAgain, InputNow, RecordsInOrder, AllIn, ContainersNow, IsStopOf, IsListing, StopsAgain;
    var e := start.pc.s.environmentId;
    InputAgainIs(start, from, names, m);
    StopOfInput(m, start, names, e);
  }

  lemma StopOfInput(m: System, start: System, names: seq<FileKey>, e: string)
    requires m.pc.Reading? && m.pc.s.environmentId == e && InputAgain(m, m.pc.listed, m.pc.read, e) == InputNow(start, names, e)
    ensures IsStopOf(start, names, e, if StopsAgain(m) == [] then [] else StopsAgain(m)[0].containers)
  {
    hide MonitorRules.Decide, InputAgain, InputNow, RecordsInOrder, AllIn, ContainersNow, IsListing;
    var stops := StopsAgain(m);
    if stops != [] { assert stops[0] in stops; }
  }

  ghost predicate IsStopNow(m: System, e: string, cs: seq<Container>) {
    exists names :: IsListing(names, m.store.Keys) && IsStopOf(m, names, e, cs)
  }

  lemma StopNow(m: System, names: seq<FileKey>, e: string, cs: seq<Container>)
    requires IsListing(names, m.store.Keys) && IsStopOf(m, names, e, cs)
    ensures IsStopNow(m, e, cs)
  {
  }

  /** The environments `done` are stopped, and the rest of the queue is not. */
  ghost predicate IsStoppedUpTo(m0: System, stopped0: seq<Container>, m: System, done: seq<string>, each: seq<seq<Container>>,
                                stopped: seq<Container>) {
    && m0.pc.Trying? && m.pc.Trying? && m0.pc.queue == done + m.pc.queue
    && SameHost(m0, m) && m.locks == m0.locks && AreStopped(m0, done, each) && stopped == stopped0 + Flatten(each)
  }

  lemma StartsStopping(m: System, queue: seq<string>, done: seq<string>, each: seq<seq<Container>>, stopped: seq<Container>)
    requires m.pc == Trying(queue) && done == [] && each == []
    ensures IsStoppedUpTo(m, stopped, m, done, each, stopped)
  {
    assert done + queue == queue;
    assert stopped + Flatten(each) == stopped;
  }

  lemma StoppedMore(m0: System, stopped0: seq<Container>, before: System, m: System, queue: seq<string>, done: seq<string>,
                    each: seq<seq<Container>>, now: seq<Container>, stopped: seq<Container>, after: seq<Container>)
    requires IsStoppedUpTo(m0, stopped0, before, done, each, stopped) && before.pc.queue == queue != []
    requires IsSessionOf(before, queue[0], queue[1..], m, now) && after == stopped + now
    ensures IsStoppedUpTo(m0, stopped0, m, done + [queue[0]], each + [now], after)
  {
    hide IsStopped, IsSessionOf, AreStopped, Flatten;
    var e := queue[0];
    SessionLeaves(m0, before, e, queue[1..], m, now);
    OneMoreStopped(m0, done, each, e, now);
    Associates(stopped0, Flatten(each), now);
    assert done + [e] + queue[1..] == done + queue;
  }

  /** What the loop does with one environment, when its lock is taken and when it is free. */
  ghost predicate IsSessionOf(before: System, e: string, rest: seq<string>, m: System, now: seq<Container>) {
    if e in before.locks then m == before.(pc := Trying(rest)) && now == []
    else
      var locked := before.(locks := before.locks[e := Monitor], pc := Locked(Session(e, rest)));
      m == Released(locked) && IsStopNow(locked, e, now)
  }

  lemma OneMoreStopped(m: System, done: seq<string>, each: seq<seq<Container>>, e: string, now: seq<Container>)
    requires AreStopped(m, done, each) && IsStopped(m, e, now)
    ensures AreStopped(m, done + [e], each + [now]) && Flatten(each + [now]) == Flatten(each) + now
  {
    hide IsStopped;
    assert (each + [now])[..|each|] == each;
  }

  lemma SessionIs(before: System, tried: System, m: System, now: seq<Container>)
    requires before.pc.Trying? && before.pc.queue != [] && tried == Next(before, TryLock(false))
    requires if tried.pc.Locked? then m == Released(tried) && IsStopNow(tried, tried.pc.s.environmentId, now) else m == tried && now == []
    ensures IsSessionOf(before, before.pc.queue[0], before.pc.queue[1..], m, now)
  {
    hide IsStopNow;
    TryLockIs(before, false);
  }

  lemma SessionLeaves(m0: System, before: System, e: string, rest: seq<string>, m: System, now: seq<Container>)
    requires IsSessionOf(before, e, rest, m, now) && SameHost(m0, before) && before.locks == m0.locks
    ensures m == before.(pc := Trying(rest)) && IsStopped(m0, e, now)
  {
    hide IsStopNow;
    if e !in before.locks {
      var locked := before.(locks := before.locks[e := Monitor], pc := Locked(Session(e, rest)));
      SameStop(locked, m0, e, now);
      assert before.locks[e := Monitor] - {e} == before.locks;
    }
  }

  lemma SameStop(a: System, b: System, e: string, cs: seq<Container>)
    requires IsStopNow(a, e, cs) && SameHost(a, b)
    ensures IsStopNow(b, e, cs)
  {
    var names :| IsListing(names, a.store.Keys) && IsStopOf(a, names, e, cs);
    assert InputNow(a, names, e) == InputNow(b, names, e);
    hide MonitorRules.Decide, InputNow, IsListing;
    assert IsStopOf(b, names, e, cs);
  }

  lemma StoppedAll(m0: System, stopped0: seq<Container>, m: System, done: seq<string>, each: seq<seq<Container>>, stopped: seq<Container>)
    ensures IsStoppedUpTo(m0, stopped0, m, done, each, stopped) && m.pc == Trying([]) ==>
              && SameHost(m0, m) && m.locks == m0.locks && m0.pc.Trying?
              && AreStopped(m0, m0.pc.queue, each) && stopped == stopped0 + Flatten(each)
  {
    hide AreStopped;
    if IsStoppedUpTo(m0, stopped0, m, done, each, stopped) && m.pc == Trying([]) { assert done + [] == done; }
  }
}
