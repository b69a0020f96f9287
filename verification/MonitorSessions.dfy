/** What the monitor does between taking the lock of an environment and its release, in every run of `MonitorLoop`
    (src/remoteMonitor/main.ts): what it decides on, and when it stops. */
module MonitorSessions {
  import opened Seqs
  import opened MonitorRules
  import opened MonitorDecision
  import opened MonitorLocality
  import opened HeartbeatRecords
  import opened MonitorLoop

  /** The monitor is in a session of `e`. */
  predicate At(m: System, e: string) { m.pc.InSession() && m.pc.s.environmentId == e }

  /** A session of `e` began with the step `l` and lasts to the state `k`. */
  ghost predicate SessionFrom(t: Trace, l: nat, k: nat, e: string)
    requires IsTrace(t)
  {
    l < k < |t.states| && !t.states[l].pc.InSession() && t.events[l].TryLock? && forall j :: l < j <= k ==> At(t.states[j], e)
  }

  lemma {:induction false} SessionHasStart(t: Trace, k: nat, e: string) returns (l: nat)
    requires IsTrace(t) && k < |t.states| && At(t.states[k], e)
    ensures SessionFrom(t, l, k, e)
  {
    var before, ev := t.states[k - 1], t.events[k - 1];
    SessionStep(before, ev, e);
    hide Next, Enabled;
    if At(before, e) {
      l := SessionHasStart(t, k - 1, e);
    } else {
      l := k - 1;
    }
  }

  lemma SessionStep(m: System, ev: Event, e: string)
    requires Enabled(m, ev) && At(Next(m, ev), e)
    ensures At(m, e) || (!m.pc.InSession() && ev.TryLock? && Next(m, ev).pc.Locked?)
  {
    hide Decide, WriteAll;
  }

  // ---- The steps of a session ----

  /** What a step does to the place of a session that goes on. */
  lemma PlaceStep(m: System, ev: Event, e: string)
    requires Enabled(m, ev) && At(m, e) && At(Next(m, ev), e)
    ensures var pc, next := m.pc, Next(m, ev).pc;
            || next == pc
            || (pc.Locked? && ev == ListAgain(false) && next == Listed(pc.s, Filter(ContainerOf(e), m.containers)))
            || (pc.Listed? && ev.ReadFolder? && !ev.fails && IsListing(ev.names, m.store.Keys)
                && next == Reading(pc.s, pc.listed, ev.names, []))
            || (pc.Reading? && ev.ReadFile? && pc.names != [] && next == AfterReadFile(m, ev.readable).pc)
            || (pc.Reading? && ev.DecideAgain? && pc.names == [] && StopsAgain(m) != []
                && next == Stopping(pc.s, InputAgain(m, pc.listed, pc.read, e), StopsAgain(m)[0], 0))
            || (pc.Stopping? && ev.StopContainer? && next == pc.(done := pc.done + 1))
  {
    hide Decide, WriteAll, StopsAgain, InputAgain, AfterReadFile;
    if ev.ReadFile? { ReadFileIs(m, ev.readable); }
  }

  /** The containers and the files that a session has, at the state `q`, read. */
  lemma {:induction false} ListedAt(t: Trace, l: nat, q: nat, e: string) returns (j: nat)
    requires IsTrace(t) && SessionFrom(t, l, q, e) && (t.states[q].pc.Listed? || t.states[q].pc.Reading?)
    ensures l < j < q && t.states[j].pc.Locked? && t.events[j] == ListAgain(false)
    ensures t.states[q].pc.listed == Filter(ContainerOf(e), t.states[j].containers)
  {
    hide *;
    BothAt(t, l, q, e);
    InSessionBefore(t, l, q, e);
    ListedStep(t.states[q - 1], t.events[q - 1], e);
    if t.states[q - 1].pc.Locked? {
      j := q - 1;
    } else {
      j := ListedAt(t, l, q - 1, e);
    }
  }

  lemma ListedStep(m: System, ev: Event, e: string)
    requires Enabled(m, ev) && At(m, e) && At(Next(m, ev), e) && (Next(m, ev).pc.Listed? || Next(m, ev).pc.Reading?)
    ensures var pc, next := m.pc, Next(m, ev).pc;
            if pc.Locked? then ev == ListAgain(false) && next.listed == Filter(ContainerOf(e), m.containers)
            else (pc.Listed? || pc.Reading?) && next.listed == pc.listed
  {
    PlaceStep(m, ev, e);
    if m.pc.Reading? && ev.ReadFile? && m.pc.names != [] { ReadFileIs(m, ev.readable); }
    hide Next, Enabled, AfterReadFile, StopsAgain, InputAgain, IsListing;
  }

  /** The first state of a session is the one with the lock and nothing read. */
  lemma InSessionBefore(t: Trace, l: nat, q: nat, e: string)
    requires IsTrace(t) && SessionFrom(t, l, q, e) && !t.states[q].pc.Locked?
    ensures l < q - 1 && SessionFrom(t, l, q - 1, e) && Enabled(t.states[q - 1], t.events[q - 1])
    ensures t.states[q] == Next(t.states[q - 1], t.events[q - 1])
  {
    SessionStep(t.states[q - 1], t.events[q - 1], e);
    hide Next, Enabled, Initial;
  }

  lemma BothAt(t: Trace, l: nat, q: nat, e: string)
    requires IsTrace(t) && SessionFrom(t, l, q, e) && !t.states[q].pc.Locked?
    ensures |t.states| == |t.events| + 1 && l < q - 1 && q < |t.states| && At(t.states[q - 1], e) && At(t.states[q], e)
  {
    InSessionBefore(t, l, q, e);
  }

  lemma StoppingStep(m: System, ev: Event, e: string)
    requires Enabled(m, ev) && At(m, e) && At(Next(m, ev), e) && Next(m, ev).pc.Stopping?
    ensures var pc, next := m.pc, Next(m, ev).pc;
            || (pc.Stopping? && next.input == pc.input && next.stop == pc.stop)
            || (pc.Reading? && ev.DecideAgain? && pc.names == [] && StopsAgain(m) != []
                && next.input == InputAgain(m, pc.listed, pc.read, e) && next.stop == StopsAgain(m)[0])
  {
    PlaceStep(m, ev, e);
    if m.pc.Reading? && ev.ReadFile? && m.pc.names != [] { ReadFileIs(m, ev.readable); }
    hide Next, Enabled, AfterReadFile, StopsAgain, InputAgain;
  }

  /** The step `d` decides on what was listed and read, and `stop` is what it says. */
  ghost predicate DecidedBy(t: Trace, d: nat, input: Input, stop: Stop, e: string) {
    && d < |t.events| && d < |t.states| && t.events[d].DecideAgain? && t.states[d].pc.Reading? && t.states[d].pc.names == []
    && input == InputAgain(t.states[d], t.states[d].pc.listed, t.states[d].pc.read, e)
    && StopsAgain(t.states[d]) != [] && stop == StopsAgain(t.states[d])[0]
  }

  lemma {:induction false} DecidedAt(t: Trace, l: nat, k: nat, e: string) returns (d: nat)
    requires IsTrace(t) && SessionFrom(t, l, k, e) && t.states[k].pc.Stopping?
    ensures l < d < k && SessionFrom(t, l, d, e) && DecidedBy(t, d, t.states[k].pc.input, t.states[k].pc.stop, e)
  {
    hide *;
    BothAt(t, l, k, e);
    InSessionBefore(t, l, k, e);
    LastOfStopping(t, k, e);
    if t.states[k - 1].pc.Stopping? {
      d := DecidedAt(t, l, k - 1, e);
    } else {
      d := k - 1;
    }
  }

  lemma LastOfStopping(t: Trace, k: nat, e: string)
    requires 1 <= k <= |t.events| && |t.states| == |t.events| + 1 && At(t.states[k - 1], e) && At(t.states[k], e)
    requires Enabled(t.states[k - 1], t.events[k - 1]) && t.states[k] == Next(t.states[k - 1], t.events[k - 1]) && t.states[k].pc.Stopping?
    ensures var pc, next := t.states[k - 1].pc, t.states[k].pc;
            (pc.Stopping? && next.input == pc.input && next.stop == pc.stop) || (!pc.Stopping? && DecidedBy(t, k - 1, next.input, next.stop, e))
  {
    StoppingStep(t.states[k - 1], t.events[k - 1], e);
    hide Next, Enabled, StopsAgain, InputAgain;
  }

  // ---- Stops ----

  /** The monitor holds the lock of `e` in every state of the session. */
  ghost predicate HoldsLock(t: Trace, l: nat, k: nat, e: string) {
    forall i :: l < i <= k && i < |t.states| ==> e in t.states[i].locks && t.states[i].locks[e] == Monitor
  }

  /** The step `d` decides on the containers of `e` as the step `j` listed them and on the records read by then. */
  ghost predicate DecidesOn(t: Trace, j: nat, d: nat, e: string, input: Input) {
    && j < d < |t.states| && d < |t.events| && t.events[j] == ListAgain(false) && t.events[d].DecideAgain? && t.states[d].pc.Reading?
    && input == InputAgain(t.states[d], Filter(ContainerOf(e), t.states[j].containers), t.states[d].pc.read, e)
  }

  /** The next container that is stopped. */
  function ToStop(m: System): Option<Container> {
    if m.pc.Stopping? && m.pc.done < |m.pc.stop.containers| then Some(m.pc.stop.containers[m.pc.done]) else None
  }

  /** In every run, whatever the other processes do: the monitor stops a container only while it holds the lock of its
      environment, without a break since it took it, and only when `decide` says stop on the containers as they were listed
      (step `j`) and the records as they were read (up to step `d`, the decision) after it took the lock; the container was
      running at that listing. */
  lemma StopsOnlyUnderTheLock(t: Trace, k: nat) returns (l: nat, j: nat, d: nat, e: string)
    requires IsTrace(t) && k < |t.events| < |t.states| && t.events[k].StopContainer?
    ensures SessionFrom(t, l, k, e) && l < j < d < k && SessionFrom(t, l, d, e) && HoldsLock(t, l, k, e)
    ensures t.states[k].pc.Stopping? && DecidesOn(t, j, d, e, t.states[k].pc.input)
    ensures Stopped(t.states[k].pc.input, e) && !InGrace(t.states[k].pc.input)
    ensures var c := ToStop(t.states[k]);
            c.Some? && c.value.environmentId == e && c.value in t.states[j].containers && IsRunning(c.value.state)
  {
    hide Next, Decide, Initial, StopsAgain;
    InvHolds(t, k);
    assert Enabled(t.states[k], t.events[k]);
    hide Enabled;
    var pc := t.states[k].pc;
    e := pc.s.environmentId;
    l := SessionHasStart(t, k, e);
    LockHeld(t, l, k, e);
    d := DecidedAt(t, l, k, e);
    hide IsTrace, SessionFrom, Inv;
    j := ListedAt(t, l, d, e);
    StopIsOfInput(t.states[k], e);
    FilterTwiceIn(ContainerOf(e), t.states[j].containers, pc.stop.containers[pc.done]);
  }

  lemma LockHeld(t: Trace, l: nat, k: nat, e: string)
    requires IsTrace(t) && SessionFrom(t, l, k, e)
    ensures HoldsLock(t, l, k, e)
  {
    forall i | l < i <= k
      ensures e in t.states[i].locks && t.states[i].locks[e] == Monitor
    {
      InvHolds(t, i);
      assert LockInv(t.states[i]);
    }
  }

  lemma StopIsOfInput(m: System, e: string)
    requires Inv(m) && m.pc.Stopping? && m.pc.s.environmentId == e && m.pc.done < |m.pc.stop.containers|
    ensures Stopped(m.pc.input, e) && !InGrace(m.pc.input)
    ensures var c := m.pc.stop.containers[m.pc.done];
            c in m.pc.input.containers && c.environmentId == e && IsRunning(c.state)
  {
    var pc := m.pc;
    StopContainers(pc.input, pc.stop);
    assert pc.stop.containers[pc.done] in pc.stop.containers;
    StoppedByVerdict(pc.input, e);
    hide Decide;
  }

  lemma FilterTwiceIn(p: Container -> bool, s: seq<Container>, c: Container)
    requires c in Filter(p, Filter(p, s))
    ensures c in s
  {
  }

  // ---- What is read ----

  /** The step `f` reads the file of `key`; `readable`: it could be read. */
  ghost predicate IsRead(t: Trace, f: nat, key: FileKey, readable: bool) {
    && f < |t.events| && f < |t.states| && t.events[f] == ReadFile(readable)
    && t.states[f].pc.Reading? && t.states[f].pc.names != [] && t.states[f].pc.names[0] == key
  }

  /** The step `f` reads the record `r`: its file could be read and held it then. */
  ghost predicate Gives(t: Trace, f: nat, r: Record) {
    var key := FileKey(r.source, r.environmentId);
    IsRead(t, f, key, true) && key in t.states[f].store && r == RecordAt(key, t.states[f].store[key])
  }

  /** The step `p` lists the folder, and from then on to the state `q` the monitor reads its files. */
  ghost predicate IsListedAt(t: Trace, p: nat, q: nat, e: string)
    requires IsTrace(t)
  {
    && p < q < |t.states| && t.events[p].ReadFolder? && !t.events[p].fails
    && IsListing(t.events[p].names, t.states[p].store.Keys)
    && t.states[p + 1].pc == Reading(t.states[p].pc.s, t.states[p].pc.listed, t.events[p].names, [])
    && forall f :: p < f <= q ==> At(t.states[f], e) && t.states[f].pc.Reading?
  }

  lemma {:induction false} FolderAt(t: Trace, l: nat, q: nat, e: string) returns (p: nat)
    requires IsTrace(t) && SessionFrom(t, l, q, e) && t.states[q].pc.Reading?
    ensures l < p < q && IsListedAt(t, p, q, e)
  {
    hide Next, Enabled, IsListing, AfterReadFile, Initial;
    BothAt(t, l, q, e);
    InSessionBefore(t, l, q, e);
    ReadingStep(t.states[q - 1], t.events[q - 1], e);
    hide IsTrace, SessionFrom;
    if t.states[q - 1].pc.Listed? {
      p := q - 1;
    } else {
      p := FolderAt(t, l, q - 1, e);
    }
  }

  lemma ReadingStep(m: System, ev: Event, e: string)
    requires Enabled(m, ev) && At(m, e) && At(Next(m, ev), e) && Next(m, ev).pc.Reading?
    ensures var pc, next := m.pc, Next(m, ev).pc;
            || (pc.Listed? && ev.ReadFolder? && !ev.fails && IsListing(ev.names, m.store.Keys)
                && next == Reading(pc.s, pc.listed, ev.names, []))
            || (pc.Reading? && !ev.ReadFile? && next == pc)
            || (pc.Reading? && ev.ReadFile? && pc.names != [] && next.names == pc.names[1..]
                && next.read == if ev.readable && pc.names[0] in m.store then pc.read + [RecordAt(pc.names[0], m.store[pc.names[0]])]
                                else pc.read)
  {
    PlaceStep(m, ev, e);
    if m.pc.Reading? && ev.ReadFile? { ReadFileIs(m, ev.readable); }
    hide Decide, WriteAll, AfterReadFile, StopsAgain, InputAgain;
  }

  /** One step of the reading: a file is read, or nothing is. */
  lemma StepOfReading(t: Trace, p: nat, q: nat, e: string)
    requires IsTrace(t) && IsListedAt(t, p, q, e) && p + 1 < q
    ensures IsListedAt(t, p, q - 1, e)
    ensures var m, ev, pc, next := t.states[q - 1], t.events[q - 1], t.states[q - 1].pc, t.states[q].pc;
            if ev.ReadFile? then
              && pc.names != [] && next.names == pc.names[1..]
              && next.read == if ev.readable && pc.names[0] in m.store then pc.read + [RecordAt(pc.names[0], m.store[pc.names[0]])]
                              else pc.read
            else next == pc
  {
    hide Next, Enabled, Initial, IsListing;
    assert At(t.states[q - 1], e) && At(t.states[q], e);
    ReadingStep(t.states[q - 1], t.events[q - 1], e);
  }

  /** What is left to read is the end of the listing. */
  lemma {:induction false} NamesLeft(t: Trace, p: nat, q: nat, e: string) returns (n: nat)
    requires IsTrace(t) && IsListedAt(t, p, q, e)
    ensures n <= |t.events[p].names| && t.states[q].pc.names == t.events[p].names[n..]
    decreases q
  {
    hide Next, Enabled, Initial, IsListing;
    if q == p + 1 {
      n := 0;
    } else {
      StepOfReading(t, p, q, e);
      n := NamesLeft(t, p, q - 1, e);
      hide IsTrace, IsListedAt;
      if t.events[q - 1].ReadFile? {
        assert t.events[p].names[n..][1..] == t.events[p].names[n + 1..];
        n := n + 1;
      }
    }
  }

  /** Each read of a file leaves less. */
  lemma {:induction false} NamesFall(t: Trace, p: nat, f: nat, q: nat, e: string)
    requires IsTrace(t) && IsListedAt(t, p, q, e) && p < f < q
    ensures |t.states[f].pc.names| >= |t.states[q].pc.names| + if t.events[f].ReadFile? then 1 else 0
    decreases q
  {
    hide Next, Enabled, Initial, IsListing;
    StepOfReading(t, p, q, e);
    if f < q - 1 {
      NamesFall(t, p, f, q - 1, e);
    }
    hide IsTrace, IsListedAt;
  }

  /** The records read are exactly those that the files held when they were read. */
  lemma {:induction false} ReadExactly(t: Trace, p: nat, q: nat, e: string)
    requires IsTrace(t) && IsListedAt(t, p, q, e)
    ensures forall r :: r in t.states[q].pc.read <==> exists f :: p < f < q && Gives(t, f, r)
    decreases q
  {
    hide Next, Enabled, Initial, IsListing;
    if q > p + 1 {
      StepOfReading(t, p, q, e);
      ReadExactly(t, p, q - 1, e);
      hide IsTrace, IsListedAt;
      forall r
        ensures r in t.states[q].pc.read <==> r in t.states[q - 1].pc.read || Gives(t, q - 1, r)
      {
      }
      hide Gives;
    }
  }

  /** A file of the listing that is not left to read was read at exactly one step. */
  lemma {:induction false} ReadAtOneStep(t: Trace, p: nat, q: nat, e: string, i: nat) returns (f: nat)
    requires IsTrace(t) && IsListedAt(t, p, q, e) && i < |t.events[p].names| - |t.states[q].pc.names|
    ensures p < f < q && t.events[f].ReadFile? && IsRead(t, f, t.events[p].names[i], t.events[f].readable)
    decreases q
  {
    hide Next, Enabled, Initial, IsListing;
    var n := NamesLeft(t, p, q, e);
    if q == p + 1 { assert false; }
    StepOfReading(t, p, q, e);
    var n' := NamesLeft(t, p, q - 1, e);
    if i < n' {
      f := ReadAtOneStep(t, p, q - 1, e, i);
    } else {
      f := q - 1;
    }
  }

  lemma ReadOnce(t: Trace, p: nat, q: nat, e: string, f: nat, g: nat, key: FileKey)
    requires IsTrace(t) && IsListedAt(t, p, q, e) && p < f < q && p < g < q
    requires t.events[f].ReadFile? && IsRead(t, f, key, t.events[f].readable)
    requires t.events[g].ReadFile? && IsRead(t, g, key, t.events[g].readable)
    ensures f == g
  {
    hide Next, Enabled, Initial;
    assert IsListedAt(t, p, f, e) && IsListedAt(t, p, g, e);
    var a := NamesLeft(t, p, f, e);
    var b := NamesLeft(t, p, g, e);
    var names := t.events[p].names;
    assert names[a] == names[a..][0] == key && names[b] == names[b..][0] == key;
    assert a == b;
    if f < g { NamesFall(t, p, f, g, e); }
    if g < f { NamesFall(t, p, g, f, e); }
  }

  // ---- Heartbeats ----

  /** Every decision under the lock (step `d`) is made on exactly the records that the files of its environment held when they
      were read, each after the lock was taken and after the folder was listed (step `p`). */
  lemma DecidesOnWhatWasRead(t: Trace, l: nat, d: nat, e: string) returns (p: nat)
    requires IsTrace(t) && SessionFrom(t, l, d, e) && d < |t.events| && t.events[d].DecideAgain?
    ensures l < p < d && IsListedAt(t, p, d, e) && t.states[d].pc.names == []
    ensures var input := InputAgain(t.states[d], t.states[d].pc.listed, t.states[d].pc.read, e);
            forall r :: r in input.records <==> r.environmentId == e && exists f :: p < f < d && Gives(t, f, r)
  {
    assert Enabled(t.states[d], t.events[d]);
    p := FolderAt(t, l, d, e);
    ReadExactly(t, p, d, e);
    hide Gives, IsTrace, IsListedAt, SessionFrom;
  }

  /** A file of the environment that the folder had when it was listed is read at exactly one step `f`, and what it holds then
      is among the records decided on if and only if it could be read. */
  lemma AFileIsDecidedOnIffRead(t: Trace, l: nat, p: nat, d: nat, e: string, key: FileKey) returns (f: nat)
    requires IsTrace(t) && SessionFrom(t, l, d, e) && l < p < d < |t.events| && t.events[d].DecideAgain? && IsListedAt(t, p, d, e)
    requires key in t.states[p].store && key.environmentId == e
    ensures p < f < d && t.events[f].ReadFile? && IsRead(t, f, key, t.events[f].readable)
    ensures forall g :: p < g < d && IsRead(t, g, key, true) ==> g == f
    ensures var input := InputAgain(t.states[d], t.states[d].pc.listed, t.states[d].pc.read, e);
            forall stored :: HasFile(t.states[f], key, stored) ==> (RecordAt(key, stored) in input.records <==> t.events[f].readable)
  {
    assert Enabled(t.states[d], t.events[d]);
    var i :| 0 <= i < |t.events[p].names| && t.events[p].names[i] == key;
    f := ReadAtOneStep(t, p, d, e, i);
    forall g | p < g < d && IsRead(t, g, key, true)
      ensures g == f
    {
      ReadOnce(t, p, d, e, f, g, key);
    }
    ReadExactly(t, p, d, e);
    hide IsTrace, IsListedAt, SessionFrom;
    forall stored | HasFile(t.states[f], key, stored)
      ensures RecordAt(key, stored) in t.states[d].pc.read <==> t.events[f].readable
    {
      if t.events[f].readable { assert Gives(t, f, RecordAt(key, stored)); }
      if RecordAt(key, stored) in t.states[d].pc.read {
        var g :| p < g < d && Gives(t, g, RecordAt(key, stored));
        assert g == f;
      }
    }
  }

  /** A heartbeat that was complete when the monitor took the lock, and is still the record of its file when the folder is
      listed (step `p`) and when its file is read (step `f`), decides with the others when it can be read: if it protects the
      environment by the rules, nothing is stopped under this lock. What the file holds afterwards does not matter. */
  lemma AHeartbeatBeforeTheLockIsSeen(t: Trace, l: nat, d: nat, e: string, key: FileKey, stored: Stored) returns (p: nat, f: nat)
    requires IsTrace(t) && SessionFrom(t, l, d, e) && d < |t.events| && t.events[d].DecideAgain? && key.environmentId == e
    ensures l < p < d && IsListedAt(t, p, d, e)
    ensures (forall i :: l < i <= p ==> HasFile(t.states[i], key, stored)) ==>
              && p < f < d && t.events[f].ReadFile? && IsRead(t, f, key, t.events[f].readable)
              && ((forall i :: l < i <= f ==> HasFile(t.states[i], key, stored)) && t.events[f].readable ==>
                    var input := InputAgain(t.states[d], t.states[d].pc.listed, t.states[d].pc.read, e);
                    && RecordAt(key, stored) in input.records
                    && ((exists k :: 0 <= k < |RecordsOf(input, e)| && RecordsOf(input, e)[k].written == RecordAt(key, stored)
                                     && Protects(input.now, RecordsOf(input, e), k)) ==>
                          StopsAgain(t.states[d]) == [] && !t.states[d + 1].pc.InSession()))
  {
    p := DecidesOnWhatWasRead(t, l, d, e);
    f := p;
    if forall i :: l < i <= p ==> HasFile(t.states[i], key, stored) {
      assert HasFile(t.states[p], key, stored);
      f := AFileIsDecidedOnIffRead(t, l, p, d, e, key);
      NoStopWhileProtected(t, l, d, e);
    }
    hide IsTrace, SessionFrom, IsListedAt, Protects, RecordsOf, InputAgain, StopsAgain, IsRead;
  }

  lemma NoStopWhileProtected(t: Trace, l: nat, d: nat, e: string)
    requires IsTrace(t) && SessionFrom(t, l, d, e) && d < |t.events| && t.events[d].DecideAgain?
    ensures var input := InputAgain(t.states[d], t.states[d].pc.listed, t.states[d].pc.read, e);
            (exists k :: Protects(input.now, RecordsOf(input, e), k)) ==>
              StopsAgain(t.states[d]) == [] && !t.states[d + 1].pc.InSession()
  {
    assert Enabled(t.states[d], t.events[d]) && t.states[d + 1] == Next(t.states[d], t.events[d]);
    var m := t.states[d];
    var input := InputAgain(m, m.pc.listed, m.pc.read, e);
    assert StopsAgain(m) == Filter(StopFor(e), Decide(input).stop);
    if StopsAgain(m) != [] {
      assert StopsAgain(m)[0] in StopsAgain(m);
      assert Stopped(input, e);
      StoppedByVerdict(input, e);
      GoesOnExactlyWhileProtected(input, e);
    }
    hide Decide, StopsAgain, InputAgain, Protects, RecordsOf, IsTrace;
  }

  /** What is read of a file that was overwritten meanwhile is what it held then: some record of the same computer that was
      stored since the lock was taken is among those decided on, unless the file was gone or could not be read. */
  lemma AnOverwrittenFileIsRead(t: Trace, l: nat, p: nat, d: nat, e: string, key: FileKey) returns (f: nat)
    requires IsTrace(t) && SessionFrom(t, l, d, e) && l < p < d < |t.events| && t.events[d].DecideAgain? && IsListedAt(t, p, d, e)
    requires key in t.states[p].store && key.environmentId == e
    ensures p < f < d && t.events[f].ReadFile? && IsRead(t, f, key, t.events[f].readable)
    ensures var input := InputAgain(t.states[d], t.states[d].pc.listed, t.states[d].pc.read, e);
            (exists stored :: RecordAt(key, stored) in input.records) <==> key in t.states[f].store && t.events[f].readable
  {
    f := AFileIsDecidedOnIffRead(t, l, p, d, e, key);
    ReadExactly(t, p, d, e);
    hide IsTrace, IsListedAt, SessionFrom;
    if key in t.states[f].store {
      assert HasFile(t.states[f], key, t.states[f].store[key]);
    }
    var input := InputAgain(t.states[d], t.states[d].pc.listed, t.states[d].pc.read, e);
    if stored :| RecordAt(key, stored) in input.records {
      var g :| p < g < d && Gives(t, g, RecordAt(key, stored));
      assert IsRead(t, g, key, true);
    }
  }

  predicate HasFile(m: System, key: FileKey, stored: Stored) { key in m.store && m.store[key] == stored }
}
