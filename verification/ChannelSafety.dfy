/** What every run of the helper channel's script keeps (src/helperChannel/server.ts). */
module ChannelSafety {
  import opened ChannelServer
  import opened Seqs

  // ---- One operation ----

  ghost predicate AsksOk(r: Run) {
    && r.asks <= r.settled.Keys
    && |r.asks| <= MAX_OPEN_ASKS
    && forall n :: n in r.settled ==> n < r.nextAsk && |r.settled[n]| == if n in r.asks then 0 else 1
  }

  ghost predicate SecretsOk(r: Run) {
    && |r.secrets| <= MAX_SECRETS && |r.masked| <= MAX_MASKED_SECRETS
    && forall name :: name in r.secrets ==> r.secrets[name] in r.masked
  }

  ghost predicate RunOk(r: Run) {
    && !(r.cancelled && r.timedOut)
    && (IsAborted(r) || r.ended ==> r.asksClosed && !r.timer)
    && (r.asksClosed ==> r.asks == {})
    && (r.ended ==> r.pausables == {})
    && AsksOk(r)
    && SecretsOk(r)
  }

  /** What an operation keeps from one moment to any later one. */
  ghost predicate RunKeeps(r: Run, t: Run) {
    && t.id == r.id && t.late == r.late
    && r.masked <= t.masked
    && (r.ended ==> t.ended)
    && (r.asksClosed ==> t.asksClosed && t.settled.Keys == r.settled.Keys)
    && (t.timer ==> r.timer)
    && (IsAborted(r) || r.ended ==> t.cancelled == r.cancelled && t.timedOut == r.timedOut)
    && (forall n :: n in r.settled ==> n in t.settled && r.settled[n] <= t.settled[n])
  }

  lemma EndAsksOk(r: Run)
    requires AsksOk(r)
    ensures AsksOk(EndAsks(r)) && EndAsks(r).settled.Keys == r.settled.Keys
  {
  }

  lemma CancelRunOk(r: Run, timedOut: bool)
    requires RunOk(r) && !r.ended
    ensures RunOk(CancelRun(r, timedOut)) && RunKeeps(r, CancelRun(r, timedOut)) && IsAborted(CancelRun(r, timedOut))
  {
    EndAsksOk(r);
  }

  lemma {:induction false} MergeSize(secrets: map<string, string>, entries: seq<Secret>)
    ensures |Merge(secrets, entries)| <= |secrets| + |entries|
  {
    if entries != [] {
      MergeSize(secrets, entries[..|entries| - 1]);
    }
  }

  lemma {:induction false} MergedAreMasked(secrets: map<string, string>, entries: seq<Secret>, masked: seq<string>)
    requires forall name :: name in secrets ==> secrets[name] in masked
    ensures forall name :: name in Merge(secrets, entries) ==> Merge(secrets, entries)[name] in masked + Added(entries, masked)
  {
    if entries != [] {
      MergedAreMasked(secrets, entries[..|entries| - 1], masked);
    }
  }

  lemma {:induction false} FirstAreMasked(entries: seq<Secret>)
    ensures forall name :: name in Merge(map[], entries) ==> Merge(map[], entries)[name] in Values(entries)
  {
    if entries != [] {
      var init := entries[..|entries| - 1];
      FirstAreMasked(init);
      assert Values(entries) == Values(init) + [entries[|entries| - 1].value];
    }
  }

  lemma NewRunOk(id: int, timed: bool, late: bool, secrets: Secrets)
    ensures RunOk(NewRun(id, timed, late, secrets))
  {
    MergeSize(map[], secrets);
    FirstAreMasked(secrets);
  }

  lemma AnswerRunOk(r: Run, n: nat, reply: Reply)
    requires RunOk(r) && n in r.asks
    ensures RunOk(AnswerRun(r, n, reply)) && RunKeeps(r, AnswerRun(r, n, reply))
    ensures AnswerRun(r, n, reply).ended == r.ended && AnswerRun(r, n, reply).pausables == r.pausables
  {
    AnswerAsksOk(r, n, reply);
    var t := AnswerRun(r, n, reply);
    if reply.Value? {
      hide AsksOk, Merge, Added;
      MergedAreMasked(r.secrets, reply.secrets, r.masked);
    }
  }

  lemma AnswerAsksOk(r: Run, n: nat, reply: Reply)
    requires AsksOk(r) && n in r.asks
    ensures var t := AnswerRun(r, n, reply);
            AsksOk(t) && t.settled.Keys == r.settled.Keys && forall m :: m in r.settled ==> r.settled[m] <= t.settled[m]
  {
    assert n in r.settled;
    hide AsksOk, Merge, Added, IsAborted;
    var how := SettledWith(r, n, reply);
    SettleAsksOk(r, n, how);
    hide AnswerRun;
    SameAsks(AnswerRun(r, n, reply), Settle(r.(asks := r.asks - {n}), n, how));
  }

  lemma SettledWith(r: Run, n: nat, reply: Reply) returns (how: Settlement)
    requires AsksOk(r) && n in r.asks
    ensures var t, u := AnswerRun(r, n, reply), Settle(r.(asks := r.asks - {n}), n, how);
            t.asks == u.asks && t.nextAsk == u.nextAsk && t.settled == u.settled
  {
    assert n in r.settled;
    hide AsksOk, Merge, Added, IsAborted;
    match reply
    case Failure => how := Refused;
    case Value(secrets) =>
      how := if |Merge(r.secrets, secrets)| > MAX_SECRETS || |r.masked| + |Added(secrets, r.masked)| > MAX_MASKED_SECRETS
             then Refused else Resolved;
  }

  lemma SameAsks(t: Run, u: Run)
    requires t.asks == u.asks && t.nextAsk == u.nextAsk && t.settled == u.settled
    ensures AsksOk(t) == AsksOk(u)
  {
  }

  lemma SettleAsksOk(r: Run, n: nat, how: Settlement)
    requires AsksOk(r) && n in r.asks
    ensures var t := Settle(r.(asks := r.asks - {n}), n, how);
            AsksOk(t) && t.settled.Keys == r.settled.Keys && forall m :: m in r.settled ==> r.settled[m] <= t.settled[m]
  {
  }

  // ---- The log ----

  /** The results that were sent for the operation `k`. */
  function ResultsOf(log: seq<Sent>, k: nat): seq<Sent> {
    if log == [] then []
    else
      var before, last := ResultsOf(log[..|log| - 1], k), log[|log| - 1];
      if last.Result? && last.run == k then before + [last] else before
  }

  /** The requests that were sent for the operation `k`. */
  function AsksSent(log: seq<Sent>, k: nat): (r: seq<nat>)
    ensures forall n :: n in r <==> Asked(k, n) in log
  {
    if log == [] then []
    else
      var before, last := AsksSent(log[..|log| - 1], k), log[|log| - 1];
      if last.Asked? && last.run == k then before + [last.ask] else before
  }

  lemma LogStep(log: seq<Sent>, m: Sent, k: nat)
    ensures ResultsOf(log + [m], k) == if m.Result? && m.run == k then ResultsOf(log, k) + [m] else ResultsOf(log, k)
    ensures AsksSent(log + [m], k) == if m.Asked? && m.run == k then AsksSent(log, k) + [m.ask] else AsksSent(log, k)
  {
    assert (log + [m])[..|log|] == log;
  }

  // ---- The server ----

  ghost predicate RunningOk(s: Server) {
    && (forall id :: id in s.running ==> s.running[id] < |s.runs| && s.runs[s.running[id]].id == id)
    && (forall k: nat :: k < |s.runs| ==> (s.runs[k].ended <==> !IsRunning(s, k)))
  }

  ghost predicate RunsOk(s: Server) { forall k: nat :: k < |s.runs| ==> RunOk(s.runs[k]) }

  /** Exactly the output of the operations that run is paused, and only while the connection is congested. */
  ghost predicate PausedOk(s: Server) { s.paused == if s.outputPaused then Registered(s) else {} }

  /** The shutdown cancelled every operation that ran; what was accepted afterwards is `late`. */
  ghost predicate StoppingOk(s: Server) {
    && (s.stopping ==> forall k: nat :: k < |s.runs| && !s.runs[k].ended && !s.runs[k].late ==> IsAborted(s.runs[k]))
    && (!s.stopping ==> forall k: nat :: k < |s.runs| ==> !s.runs[k].late)
    && (s.stopping ==> forall k: nat :: k < |s.runs| && !s.runs[k].ended && !s.runs[k].late ==> k in s.awaited)
    && (forall k :: k in s.awaited ==> k < |s.runs| && !s.runs[k].late)
  }

  /** One result for each operation that ended, with its flags, and none for the others. */
  ghost predicate ResultsOk(s: Server) {
    forall k: nat :: ResultsOf(s.log, k) == if k < |s.runs| && s.runs[k].ended then [ResultOf(k, s.runs[k])] else []
  }

  ghost predicate AskLogOk(s: Server) {
    forall k: nat ::
      && NoDuplicates(AsksSent(s.log, k))
      && forall n :: n in AsksSent(s.log, k) ==> k < |s.runs| && n in s.runs[k].settled
  }

  ghost predicate ServerOk(s: Server) {
    RunningOk(s) && RunsOk(s) && PausedOk(s) && StoppingOk(s) && ResultsOk(s) && AskLogOk(s)
  }

  ghost predicate Keeps(s: Server, t: Server) {
    && |s.runs| <= |t.runs|
    && (s.stopping ==> t.stopping && t.awaited == s.awaited)
    && s.log <= t.log
    && (forall k: nat :: k < |s.runs| ==> RunKeeps(s.runs[k], t.runs[k]))
    && (forall k: nat :: k < |s.runs| && s.runs[k].asksClosed ==> AsksSent(t.log, k) == AsksSent(s.log, k))
  }

  lemma KeepsOn(s: Server, t: Server, u: Server)
    requires Keeps(s, t) && Keeps(t, u)
    ensures Keeps(s, u)
  {
    forall k: nat | k < |s.runs|
      ensures RunKeeps(s.runs[k], u.runs[k])
      ensures s.runs[k].asksClosed ==> AsksSent(u.log, k) == AsksSent(s.log, k)
    {
      assert RunKeeps(s.runs[k], t.runs[k]) && RunKeeps(t.runs[k], u.runs[k]);
    }
  }

  lemma RegisteredAlike(s: Server, t: Server)
    requires |t.runs| == |s.runs| && t.running == s.running
    requires forall k: nat :: k < |s.runs| ==> t.runs[k].id == s.runs[k].id && t.runs[k].pausables == s.runs[k].pausables
    ensures Registered(t) == Registered(s) && forall k: nat :: IsRunning(t, k) == IsRunning(s, k)
  {
    assert forall k: nat :: IsRunning(t, k) == IsRunning(s, k);
  }

  lemma OneRunStops(s: Server, t: Server, k: nat)
    requires StoppingOk(s) && k < |s.runs| && k < |t.runs| && t.runs == s.runs[k := t.runs[k]]
    requires t.stopping == s.stopping && t.awaited == s.awaited && RunKeeps(s.runs[k], t.runs[k])
    requires s.stopping && !t.runs[k].ended && !t.runs[k].late && IsAborted(s.runs[k]) ==> IsAborted(t.runs[k])
    ensures StoppingOk(t)
  {
    forall j: nat | j < |t.runs|
      ensures t.runs[j].late == s.runs[j].late
      ensures s.stopping && !t.runs[j].ended && !t.runs[j].late ==> IsAborted(t.runs[j]) && j in t.awaited
    {
      assert j != k ==> t.runs[j] == s.runs[j];
    }
  }

  lemma OneRunLogs(s: Server, t: Server, k: nat)
    requires ResultsOk(s) && AskLogOk(s) && k < |s.runs| && k < |t.runs| && t.runs == s.runs[k := t.runs[k]]
    requires t.log == s.log && RunKeeps(s.runs[k], t.runs[k]) && t.runs[k].ended == s.runs[k].ended
    ensures ResultsOk(t) && AskLogOk(t)
  {
    hide ResultsOf, AsksSent;
  }

  lemma OneRunKeeps(s: Server, t: Server, k: nat)
    requires k < |s.runs| && k < |t.runs| && t.runs == s.runs[k := t.runs[k]] && RunKeeps(s.runs[k], t.runs[k])
    requires t.stopping == s.stopping && t.awaited == s.awaited && t.log == s.log
    ensures Keeps(s, t)
  {
    forall j: nat | j < |s.runs|
      ensures RunKeeps(s.runs[j], t.runs[j])
    {
      assert j != k ==> t.runs[j] == s.runs[j];
    }
    hide RunKeeps, AsksSent;
  }

  lemma OneRunRuns(s: Server, t: Server, k: nat)
    requires RunningOk(s) && RunsOk(s) && k < |s.runs| && k < |t.runs| && t.runs == s.runs[k := t.runs[k]]
    requires RunOk(t.runs[k]) && t.runs[k].id == s.runs[k].id && t.runs[k].ended == s.runs[k].ended && t.running == s.running
    ensures RunningOk(t) && RunsOk(t) && forall j: nat :: IsRunning(t, j) == IsRunning(s, j)
  {
    hide RunOk;
  }

  /** An operation changes, with the output that it registered and what is paused. */
  lemma RegisterOk(s: Server, k: nat, r: Run, paused: set<(nat, nat)>)
    requires ServerOk(s) && k < |s.runs| && RunOk(r) && RunKeeps(s.runs[k], r) && r.ended == s.runs[k].ended
    requires PausedOk(SetRun(s, k, r).(paused := paused))
    ensures ServerOk(SetRun(s, k, r).(paused := paused)) && Keeps(s, SetRun(s, k, r).(paused := paused))
  {
    var t := SetRun(s, k, r).(paused := paused);
    hide PausedOk, RunOk, RunningOk, RunsOk, StoppingOk, ResultsOk, AskLogOk, Keeps;
    OneRunRuns(s, t, k);
    OneRunStops(s, t, k);
    OneRunLogs(s, t, k);
    OneRunKeeps(s, t, k);
  }

  lemma SetRunOk(s: Server, k: nat, r: Run)
    requires ServerOk(s) && k < |s.runs| && RunOk(r) && RunKeeps(s.runs[k], r)
    requires r.ended == s.runs[k].ended && r.pausables == s.runs[k].pausables
    ensures ServerOk(SetRun(s, k, r)) && Keeps(s, SetRun(s, k, r))
  {
    RegisteredAlike(s, SetRun(s, k, r));
    assert SetRun(s, k, r) == SetRun(s, k, r).(paused := s.paused);
    hide RunOk, RunKeeps, Registered, RunningOk, RunsOk, StoppingOk, ResultsOk, AskLogOk, Keeps;
    RegisterOk(s, k, r, s.paused);
  }

  /** A message that is no result and no request. */
  lemma AppendOk(s: Server, m: Sent)
    requires ServerOk(s) && !m.Result?
    requires m.Asked? ==> m.run < |s.runs| && m.ask in s.runs[m.run].settled && !s.runs[m.run].asksClosed
    requires m.Asked? ==> m.ask !in AsksSent(s.log, m.run)
    ensures ServerOk(s.(log := s.log + [m])) && Keeps(s, s.(log := s.log + [m]))
  {
    var t := s.(log := s.log + [m]);
    RegisteredAlike(s, t);
    AppendLogs(s, m);
    assert forall k: nat :: k < |s.runs| ==> RunKeeps(s.runs[k], s.runs[k]);
    hide ResultsOf, AsksSent, RunOk, RunKeeps, Registered, ResultsOk, AskLogOk;
  }

  lemma AppendLogs(s: Server, m: Sent)
    requires ResultsOk(s) && AskLogOk(s) && !m.Result?
    requires m.Asked? ==> m.run < |s.runs| && m.ask in s.runs[m.run].settled && m.ask !in AsksSent(s.log, m.run)
    ensures ResultsOk(s.(log := s.log + [m])) && AskLogOk(s.(log := s.log + [m]))
    ensures forall k: nat :: !m.Asked? || m.run != k ==> AsksSent(s.log + [m], k) == AsksSent(s.log, k)
  {
    var t := s.(log := s.log + [m]);
    forall k: nat
      ensures ResultsOf(t.log, k) == ResultsOf(s.log, k)
      ensures AsksSent(t.log, k) == if m.Asked? && m.run == k then AsksSent(s.log, k) + [m.ask] else AsksSent(s.log, k)
    {
      LogStep(s.log, m, k);
    }
    hide ResultsOf, AsksSent;
  }

  lemma ShutdownOk(s: Server)
    requires ServerOk(s)
    ensures ServerOk(Shutdown(s)) && Keeps(s, Shutdown(s)) && SameShape(s, Shutdown(s))
  {
    if !s.stopping {
      var t := Shutdown(s);
      forall k: nat | k < |s.runs|
        ensures RunOk(t.runs[k]) && RunKeeps(s.runs[k], t.runs[k]) && t.runs[k].ended == s.runs[k].ended
        ensures t.runs[k].pausables == s.runs[k].pausables
        ensures !s.runs[k].ended ==> IsAborted(t.runs[k])
      {
        if !s.runs[k].ended {
          CancelRunOk(s.runs[k], false);
        }
      }
      RegisteredAlike(s, t);
      hide ResultsOf, AsksSent, RunOk, Registered, CancelRun;
    }
  }

  /** No operation was accepted or ended, and none registered output. */
  ghost predicate SameShape(s: Server, t: Server) {
    && |t.runs| == |s.runs| && t.running == s.running
    && forall k: nat :: k < |s.runs| ==> t.runs[k].ended == s.runs[k].ended && t.runs[k].pausables == s.runs[k].pausables
  }

  lemma AfterWriteOk(s: Server, w: Wire)
    requires ServerOk(s)
    ensures ServerOk(AfterWrite(s, w)) && Keeps(s, AfterWrite(s, w)) && SameShape(s, AfterWrite(s, w))
  {
    ShutdownOk(s);
    PauseOk(s);
    KeepsItself(s);
    hide ServerOk, Keeps, Shutdown, PauseOutput;
  }

  lemma PauseOk(s: Server)
    requires ServerOk(s)
    ensures !s.outputPaused ==> ServerOk(PauseOutput(s))
    ensures Keeps(s, PauseOutput(s)) && SameShape(s, PauseOutput(s))
  {
    RegisteredAlike(s, PauseOutput(s));
    hide ResultsOf, AsksSent, RunOk, Registered;
  }

  lemma SendOk(s: Server, wire: nat -> Wire, m: Sent)
    requires ServerOk(s) && !m.Result?
    requires m.Asked? ==> m.run < |s.runs| && m.ask in s.runs[m.run].settled && !s.runs[m.run].asksClosed
    requires m.Asked? ==> m.ask !in AsksSent(s.log, m.run)
    ensures ServerOk(Send(s, wire, m)) && Keeps(s, Send(s, wire, m)) && SameShape(s, Send(s, wire, m))
  {
    hide ServerOk, AfterWrite;
    KeepsItself(s);
    if !s.stopping || IsResult(m) {
      var t := s.(log := s.log + [m]);
      AppendOk(s, m);
      AfterWriteOk(t, wire(|s.log|));
      KeepsOn(s, t, AfterWrite(t, wire(|s.log|)));
    }
  }

  lemma KeepsItself(s: Server)
    ensures Keeps(s, s)
  {
  }

  lemma DrainOk(s: Server)
    requires ServerOk(s) && s.outputPaused
    ensures ServerOk(Drain(s)) && Keeps(s, Drain(s))
  {
    RegisteredAlike(s, Drain(s));
    hide ResultsOf, AsksSent, RunOk, Registered;
  }

  // ---- What a handler does ----

  lemma AskOk(s: Server, wire: nat -> Wire, k: nat, isKind: bool, fits: bool)
    requires ServerOk(s) && k < |s.runs|
    ensures ServerOk(AskOf(s, wire, k, isKind, fits)) && Keeps(s, AskOf(s, wire, k, isKind, fits))
  {
    KeepsItself(s);
    var r := s.runs[k];
    if !r.asksClosed && |r.asks| < MAX_OPEN_ASKS {
      AskedOk(s, k);
      hide ServerOk, Keeps, Send, Numbered, Asking;
      SendOk(SetRun(s, k, Asking(r)), wire, Asked(k, r.nextAsk));
      KeepsOn(s, SetRun(s, k, Asking(r)), Send(SetRun(s, k, Asking(r)), wire, Asked(k, r.nextAsk)));
    }
  }

  lemma AskedOk(s: Server, k: nat)
    requires ServerOk(s) && k < |s.runs| && !s.runs[k].asksClosed && |s.runs[k].asks| < MAX_OPEN_ASKS
    ensures var r := s.runs[k];
            && ServerOk(SetRun(s, k, Numbered(r))) && Keeps(s, SetRun(s, k, Numbered(r)))
            && ServerOk(SetRun(s, k, Asking(r))) && Keeps(s, SetRun(s, k, Asking(r)))
            && r.nextAsk in Asking(r).settled && !Asking(r).asksClosed && r.nextAsk !in AsksSent(s.log, k)
  {
    var r := s.runs[k];
    assert RunOk(r);
    NumberedOk(r);
    assert r.nextAsk !in AsksSent(s.log, k);
    hide RunOk, RunKeeps, PausedOk, RunningOk, RunsOk, StoppingOk, ResultsOk, Keeps, AskLogOk, AsksSent;
    SetRunOk(s, k, Numbered(r));
    SetRunOk(s, k, Asking(r));
  }

  lemma NumberedOk(r: Run)
    requires RunOk(r) && !r.asksClosed && |r.asks| < MAX_OPEN_ASKS
    ensures RunOk(Numbered(r)) && RunKeeps(r, Numbered(r)) && RunOk(Asking(r)) && RunKeeps(r, Asking(r)) && r.nextAsk !in r.settled
  {
  }

  lemma RegisteredIs(s: Server, t: Server, k: nat, n: nat)
    requires IsRunning(s, k) && |t.runs| == |s.runs| && forall j: nat :: IsRunning(t, j) == IsRunning(s, j)
    requires t.runs == s.runs[k := s.runs[k].(pausables := s.runs[k].pausables + {n})]
    ensures Registered(t) == Registered(s) + {(k, n)}
  {
    forall e
      ensures e in Registered(t) <==> e in Registered(s) + {(k, n)}
    {
    }
  }

  lemma OtherPausables(r: Run, pausables: set<nat>)
    requires RunOk(r) && (r.ended ==> pausables == {})
    ensures RunOk(r.(pausables := pausables)) && RunKeeps(r, r.(pausables := pausables))
  {
  }

  lemma WatchOk(s: Server, wire: nat -> Wire, k: nat, n: nat)
    requires ServerOk(s) && k < |s.runs|
    ensures ServerOk(ActOf(s, wire, k, Watch(n))) && Keeps(s, ActOf(s, wire, k, Watch(n)))
  {
    hide ResultsOk, AskLogOk, StoppingOk, AsksOk, SecretsOk, Keeps;
    KeepsItself(s);
    if IsRunning(s, k) {
      var t := ActOf(s, wire, k, Watch(n));
      var r := s.runs[k].(pausables := s.runs[k].pausables + {n});
      assert RunOk(s.runs[k]);
      OtherPausables(s.runs[k], r.pausables);
      assert forall j: nat :: IsRunning(t, j) == IsRunning(s, j);
      RegisteredIs(s, t, k, n);
      hide Registered, ActOf, IsRunning;
      RegisterOk(s, k, r, t.paused);
    }
  }

  lemma UnregisteredIs(s: Server, t: Server, k: nat, n: nat)
    requires k < |s.runs| && |t.runs| == |s.runs| && forall j: nat :: IsRunning(t, j) == IsRunning(s, j)
    requires t.runs == s.runs[k := s.runs[k].(pausables := s.runs[k].pausables - {n})]
    ensures Registered(t) == Registered(s) - {(k, n)}
  {
    forall e
      ensures e in Registered(t) <==> e in Registered(s) - {(k, n)}
    {
    }
  }

  lemma UnwatchOk(s: Server, wire: nat -> Wire, k: nat, n: nat)
    requires ServerOk(s) && k < |s.runs|
    ensures ServerOk(ActOf(s, wire, k, Unwatch(n))) && Keeps(s, ActOf(s, wire, k, Unwatch(n)))
  {
    hide ResultsOk, AskLogOk, StoppingOk, AsksOk, SecretsOk, Keeps;
    KeepsItself(s);
    if n in s.runs[k].pausables {
      var t := ActOf(s, wire, k, Unwatch(n));
      var r := s.runs[k].(pausables := s.runs[k].pausables - {n});
      assert RunOk(s.runs[k]);
      OtherPausables(s.runs[k], r.pausables);
      assert forall j: nat :: IsRunning(t, j) == IsRunning(s, j);
      UnregisteredIs(s, t, k, n);
      hide Registered, ActOf, IsRunning;
      RegisterOk(s, k, r, t.paused);
    }
  }

  lemma ForgetOk(s: Server, k: nat, name: string)
    requires ServerOk(s) && k < |s.runs|
    ensures var r := s.runs[k].(secrets := s.runs[k].secrets - {name});
            ServerOk(SetRun(s, k, r)) && Keeps(s, SetRun(s, k, r))
  {
    var r := s.runs[k];
    assert RunOk(r);
    var kept := r.secrets - {name};
    assert kept.Keys <= r.secrets.Keys;
    FewerKeys(kept, r.secrets);
    SetRunOk(s, k, r.(secrets := kept));
  }

  lemma FewerKeys(a: map<string, string>, b: map<string, string>)
    requires a.Keys <= b.Keys
    ensures |a| <= |b|
  {
    var rest := b.Keys - a.Keys;
    assert b.Keys == a.Keys + rest;
    assert |a| == |a.Keys| && |b| == |b.Keys|;
  }

  lemma ActOk(s: Server, wire: nat -> Wire, k: nat, act: Act)
    requires ServerOk(s) && k < |s.runs|
    ensures ServerOk(ActOf(s, wire, k, act)) && Keeps(s, ActOf(s, wire, k, act))
  {
    hide ServerOk, Keeps, AskOf, Send, RunOk;
    match act
    case Ask(isKind, fits) => AskOk(s, wire, k, isKind, fits);
    case Write => SendOk(s, wire, Text(k));
    case Forget(name) => ForgetOk(s, k, name);
    case Watch(n) => WatchOk(s, wire, k, n);
    case Unwatch(n) => UnwatchOk(s, wire, k, n);
  }

  lemma {:induction false} ActsOk(s: Server, wire: nat -> Wire, k: nat, acts: seq<Act>)
    requires ServerOk(s)
    ensures ServerOk(ActsOf(s, wire, k, acts)) && Keeps(s, ActsOf(s, wire, k, acts))
  {
    hide ServerOk, Keeps, ActOf;
    KeepsItself(s);
    if acts != [] {
      var before := ActsOf(s, wire, k, acts[..|acts| - 1]);
      ActsOk(s, wire, k, acts[..|acts| - 1]);
      if k < |before.runs| {
        ActOk(before, wire, k, acts[|acts| - 1]);
        KeepsOn(s, before, ActsOf(s, wire, k, acts));
      }
    }
  }

  // ---- What the extension says ----

  lemma AcceptOk(s: Server, id: int, timed: bool, secrets: Secrets)
    requires ServerOk(s) && id !in s.running
    ensures ServerOk(Accept(s, id, timed, secrets)) && Keeps(s, Accept(s, id, timed, secrets))
  {
    var t := Accept(s, id, timed, secrets);
    NewRunOk(id, timed, s.stopping, secrets);
    AcceptRunning(s, id, timed, secrets);
    assert forall k: nat :: k < |s.runs| ==> t.runs[k] == s.runs[k] && RunKeeps(s.runs[k], s.runs[k]);
    assert t.runs[..|s.runs|] == s.runs;
    AcceptStops(s, t);
    hide ResultsOf, AsksSent, RunOk, RunKeeps, Registered, NewRun, RunningOk, StoppingOk;
  }

  lemma AcceptStops(s: Server, t: Server)
    requires StoppingOk(s) && |t.runs| == |s.runs| + 1 && t.runs[..|s.runs|] == s.runs && t.runs[|s.runs|].late == s.stopping
    requires t.stopping == s.stopping && t.awaited == s.awaited
    ensures StoppingOk(t)
  {
    assert forall k: nat :: k < |s.runs| ==> t.runs[k] == t.runs[..|s.runs|][k];
  }

  lemma AcceptRunning(s: Server, id: int, timed: bool, secrets: Secrets)
    requires RunningOk(s) && id !in s.running
    ensures RunningOk(Accept(s, id, timed, secrets)) && Registered(Accept(s, id, timed, secrets)) == Registered(s)
  {
    var t := Accept(s, id, timed, secrets);
    var r := NewRun(id, timed, s.stopping, secrets);
    assert r.id == id && !r.ended && r.pausables == {};
    hide NewRun;
    assert forall k: nat :: k < |s.runs| ==> IsRunning(t, k) == IsRunning(s, k) && t.runs[k] == s.runs[k];
    assert Registered(t) == Registered(s);
  }

  lemma CancelOk(s: Server, k: nat, timedOut: bool)
    requires ServerOk(s) && k < |s.runs| && !s.runs[k].ended
    ensures var t := SetRun(s, k, CancelRun(s.runs[k], timedOut));
            ServerOk(t) && Keeps(s, t)
  {
    assert RunOk(s.runs[k]);
    CancelRunOk(s.runs[k], timedOut);
    var r := CancelRun(s.runs[k], timedOut);
    assert r.ended == s.runs[k].ended && r.pausables == s.runs[k].pausables;
    hide ServerOk, RunOk, RunKeeps, Keeps, CancelRun;
    SetRunOk(s, k, r);
  }

  lemma AnswerOk(s: Server, k: nat, ask: nat, reply: Reply)
    requires ServerOk(s) && k < |s.runs| && ask in s.runs[k].asks && ask in s.runs[k].settled
    ensures var t := SetRun(s, k, AnswerRun(s.runs[k], ask, reply));
            ServerOk(t) && Keeps(s, t)
  {
    assert RunOk(s.runs[k]);
    AnswerRunOk(s.runs[k], ask, reply);
    hide ServerOk, RunOk, RunKeeps, Keeps, AnswerRun;
    SetRunOk(s, k, AnswerRun(s.runs[k], ask, reply));
  }

  lemma IsRunningRun(s: Server, id: int)
    requires ServerOk(s) && id in s.running
    ensures s.running[id] < |s.runs| && !s.runs[s.running[id]].ended
  {
    var k := s.running[id];
    assert IsRunning(s, k);
  }

  lemma OnLineOk(s: Server, wire: nat -> Wire, m: Message)
    requires ServerOk(s)
    ensures ServerOk(OnLine(s, wire, m)) && Keeps(s, OnLine(s, wire, m))
  {
    KeepsItself(s);
    hide ServerOk, Keeps, Send, ActsOf, SetRun, CancelRun, AnswerRun;
    match m
    case Bad(refused, id) => SendOk(s, wire, Refusal(id));
    case Greeting => SendOk(s, wire, Hello);
    case Ping => SendOk(s, wire, Pong);
    case Cancel(id) =>
      SendOk(s, wire, CancelConfirmed(id));
      if id in s.running {
        IsRunningRun(s, id);
        CancelOk(s, s.running[id], false);
      }
    case Op(id, known, timed, secrets, first) =>
      SendOk(s, wire, Refusal(id));
      if id !in s.running && known {
        var t := Accept(s, id, timed, secrets);
        AcceptOk(s, id, timed, secrets);
        ActsOk(t, wire, |s.runs|, first);
        KeepsOn(s, t, ActsOf(t, wire, |s.runs|, first));
      }
    case Answer(id, ask, reply) =>
      if id in s.running {
        IsRunningRun(s, id);
        var k := s.running[id];
        if ask in s.runs[k].asks && ask in s.runs[k].settled { AnswerOk(s, k, ask, reply); }
      }
  }

  lemma {:induction false} OnLinesOk(s: Server, wire: nat -> Wire, lines: seq<Message>)
    requires ServerOk(s)
    ensures ServerOk(OnLines(s, wire, lines)) && Keeps(s, OnLines(s, wire, lines))
  {
    hide ServerOk, Keeps, OnLine;
    KeepsItself(s);
    if lines != [] {
      var before := OnLines(s, wire, lines[..|lines| - 1]);
      OnLinesOk(s, wire, lines[..|lines| - 1]);
      OnLineOk(before, wire, lines[|lines| - 1]);
      KeepsOn(s, before, OnLines(s, wire, lines));
    }
  }

  // ---- The end of an operation ----

  /** The operation takes part in nothing anymore, but its result is not sent. */
  ghost predicate Closed(s: Server, k: nat) {
    k < |s.runs| && !s.runs[k].ended && s.runs[k].asksClosed && !s.runs[k].timer && s.runs[k].pausables == {}
  }

  lemma CloseOk(s: Server, k: nat)
    requires ServerOk(s) && k < |s.runs| && !s.runs[k].ended
    ensures ServerOk(Close(s, k)) && Keeps(s, Close(s, k)) && Closed(Close(s, k), k)
  {
    var t := Close(s, k);
    EndAsksOk(s.runs[k]);
    assert RunOk(s.runs[k]);
    assert RunOk(t.runs[k]) && RunKeeps(s.runs[k], t.runs[k]);
    assert PausedOk(t) by {
      assert forall j: nat :: IsRunning(t, j) == IsRunning(s, j);
    }
    RegisterOk(s, k, t.runs[k], t.paused);
  }

  lemma {:induction false} FlushOk(s: Server, wire: nat -> Wire, k: nat, n: nat)
    requires ServerOk(s) && Closed(s, k)
    ensures ServerOk(Flush(s, wire, k, n)) && Keeps(s, Flush(s, wire, k, n)) && Closed(Flush(s, wire, k, n), k)
  {
    hide ServerOk, Send;
    KeepsItself(s);
    if n > 0 {
      var before := Flush(s, wire, k, n - 1);
      FlushOk(s, wire, k, n - 1);
      SendOk(before, wire, Text(k));
      KeepsOn(s, before, Flush(s, wire, k, n));
    }
  }

  lemma FinishLog(s: Server, k: nat, t: Server)
    requires ServerOk(s) && Closed(s, k) && t == Finish(s, k).(log := s.log + [ResultOf(k, s.runs[k])])
    ensures ResultsOk(t) && AskLogOk(t)
    ensures forall j: nat :: AsksSent(t.log, j) == AsksSent(s.log, j)
  {
    var m := ResultOf(k, s.runs[k]);
    forall j: nat
      ensures ResultsOf(t.log, j) == if j == k then ResultsOf(s.log, j) + [m] else ResultsOf(s.log, j)
      ensures AsksSent(t.log, j) == AsksSent(s.log, j)
    {
      LogStep(s.log, m, j);
    }
    hide ResultsOf, AsksSent, RunOk, Registered;
  }

  lemma FinishOk(s: Server, k: nat)
    requires ServerOk(s) && Closed(s, k)
    ensures var t := Finish(s, k).(log := s.log + [ResultOf(k, s.runs[k])]);
            ServerOk(t) && Keeps(s, t)
  {
    var t := Finish(s, k).(log := s.log + [ResultOf(k, s.runs[k])]);
    FinishLog(s, k, t);
    assert RunOk(s.runs[k]);
    assert RunOk(t.runs[k]) && RunKeeps(s.runs[k], t.runs[k]);
    OneRunStops(s, t, k);
    FinishRuns(s, k, t);
    hide RunKeeps, RunningOk, RunsOk, StoppingOk, ResultsOk, AskLogOk, PausedOk, AsksSent, RunOk;
    OneRunKeeps(s, t.(log := s.log), k);
    assert Keeps(t.(log := s.log), t) by { SameRunKeeps(t.(log := s.log), t); }
    hide Keeps;
    KeepsOn(s, t.(log := s.log), t);
  }

  lemma SameRunKeeps(s: Server, t: Server)
    requires t.runs == s.runs && t.stopping == s.stopping && t.awaited == s.awaited && s.log <= t.log
    requires forall k: nat :: AsksSent(t.log, k) == AsksSent(s.log, k)
    ensures Keeps(s, t)
  {
    forall k: nat | k < |s.runs|
      ensures RunKeeps(s.runs[k], t.runs[k])
    {
    }
    hide RunKeeps, AsksSent;
  }

  lemma FinishRuns(s: Server, k: nat, t: Server)
    requires ServerOk(s) && Closed(s, k) && t == Finish(s, k).(log := s.log + [ResultOf(k, s.runs[k])]) && RunOk(t.runs[k])
    ensures RunningOk(t) && RunsOk(t) && PausedOk(t)
  {
    hide RunOk, StoppingOk, ResultsOk, AskLogOk;
    assert forall j: nat :: IsRunning(t, j) <==> IsRunning(s, j) && j != k;
    assert Registered(t) == Registered(s);
  }

  lemma HandlerEndOk(s: Server, wire: nat -> Wire, k: nat, flushed: nat)
    requires ServerOk(s) && k < |s.runs| && !s.runs[k].ended
    ensures ServerOk(HandlerEnd(s, wire, k, flushed)) && Keeps(s, HandlerEnd(s, wire, k, flushed))
  {
    hide ServerOk, Keeps, Flush, AfterWrite, Close;
    var t := Close(s, k);
    CloseOk(s, k);
    var u := Flush(t, wire, k, flushed);
    FlushOk(t, wire, k, flushed);
    KeepsOn(s, t, u);
    var v := Finish(u, k).(log := u.log + [ResultOf(k, u.runs[k])]);
    FinishOk(u, k);
    KeepsOn(s, u, v);
    AfterWriteOk(v, wire(|u.log|));
    KeepsOn(s, v, AfterWrite(v, wire(|u.log|)));
  }

  lemma TimerRuns(s: Server, k: nat)
    requires ServerOk(s) && k < |s.runs| && s.runs[k].timer
    ensures !s.runs[k].ended
  {
    assert RunOk(s.runs[k]);
  }

  lemma NextOk(s: Server, wire: nat -> Wire, ev: Event)
    requires ServerOk(s)
    ensures ServerOk(Next(s, wire, ev)) && Keeps(s, Next(s, wire, ev))
  {
    KeepsItself(s);
    hide ServerOk, Keeps, Shutdown, SetRun, CancelRun, ActOf, HandlerEnd, Drain, OnLines;
    match ev
    case Input(lines) => OnLinesOk(s, wire, lines);
    case InputEnded => ShutdownOk(s);
    case Idle => ShutdownOk(s);
    case Timeout(k) =>
      if k < |s.runs| && s.runs[k].timer {
        TimerRuns(s, k);
        CancelOk(s, k, true);
      }
    case Acts(k, act) => if k < |s.runs| { ActOk(s, wire, k, act); }
    case HandlerEnds(k, flushed) => if k < |s.runs| && !s.runs[k].ended { HandlerEndOk(s, wire, k, flushed); }
    case Drained => if s.outputPaused { DrainOk(s); }
  }

  lemma {:induction false} RunKeepsOk(s: Server, wire: nat -> Wire, evs: seq<Event>)
    requires ServerOk(s)
    ensures ServerOk(RunAll(s, wire, evs)) && Keeps(s, RunAll(s, wire, evs))
  {
    hide ServerOk, Keeps, Next;
    KeepsItself(s);
    if evs != [] {
      var before := RunAll(s, wire, evs[..|evs| - 1]);
      RunKeepsOk(s, wire, evs[..|evs| - 1]);
      NextOk(before, wire, evs[|evs| - 1]);
      KeepsOn(s, before, RunAll(s, wire, evs));
    }
  }

  // ---- The results, over every sequence of events ----

  lemma StartOk()
    ensures ServerOk(START)
  {
  }

  lemma {:induction false} RunMore(s: Server, wire: nat -> Wire, evs: seq<Event>, more: seq<Event>)
    ensures RunAll(s, wire, evs + more) == RunAll(RunAll(s, wire, evs), wire, more)
  {
    hide Next;
    if more == [] {
      assert evs + more == evs;
    } else {
      var all := evs + more;
      assert all[..|all| - 1] == evs + more[..|more| - 1];
      RunMore(s, wire, evs, more[..|more| - 1]);
    }
  }

  lemma AnyRunOk(wire: nat -> Wire, evs: seq<Event>)
    ensures ServerOk(RunAll(START, wire, evs))
  {
    StartOk();
    RunKeepsOk(START, wire, evs);
  }

  /** An operation that ended has exactly one result in all that was handed to the output, and it names how the operation
      ended, which is cancelled or timed out or neither; an operation whose handler did not end has none. */
  lemma OneResultEach(wire: nat -> Wire, evs: seq<Event>, k: nat)
    ensures var s := RunAll(START, wire, evs);
            k < |s.runs| ==>
              && !(s.runs[k].cancelled && s.runs[k].timedOut)
              && ResultsOf(s.log, k) ==
                   if s.runs[k].ended then [Result(k, s.runs[k].id, s.runs[k].cancelled, s.runs[k].timedOut)] else []
  {
    AnyRunOk(wire, evs);
    var s := RunAll(START, wire, evs);
    if k < |s.runs| {
      assert RunOk(s.runs[k]);
    }
  }

  /** The end of the handler is the end of the operation: its one result goes out, with the cancel or the time limit that
      came before it; and no open request is left. */
  lemma HandlerEndAnswers(s: Server, wire: nat -> Wire, k: nat, flushed: nat)
    requires ServerOk(s) && k < |s.runs| && !s.runs[k].ended
    ensures var t := Next(s, wire, HandlerEnds(k, flushed));
            && k < |t.runs| && t.runs[k].ended && t.runs[k].asks == {}
            && ResultsOf(t.log, k) == [Result(k, t.runs[k].id, t.runs[k].cancelled, t.runs[k].timedOut)]
            && (IsAborted(s.runs[k]) ==> t.runs[k].cancelled == s.runs[k].cancelled && t.runs[k].timedOut == s.runs[k].timedOut)
  {
    hide ServerOk, Keeps, HandlerEnd, ResultsOf;
    var t := HandlerEnd(s, wire, k, flushed);
    HandlerEndOk(s, wire, k, flushed);
    HandlerEndEnds(s, wire, k, flushed);
    EndedHas(t, k);
    if IsAborted(s.runs[k]) { KeepsFlags(s, t, k); }
  }

  lemma KeepsFlags(s: Server, t: Server, k: nat)
    requires Keeps(s, t) && k < |s.runs| && IsAborted(s.runs[k])
    ensures t.runs[k].cancelled == s.runs[k].cancelled && t.runs[k].timedOut == s.runs[k].timedOut
  {
    assert RunKeeps(s.runs[k], t.runs[k]);
  }

  lemma EndedHas(t: Server, k: nat)
    requires ServerOk(t) && k < |t.runs| && t.runs[k].ended
    ensures t.runs[k].asks == {} && ResultsOf(t.log, k) == [ResultOf(k, t.runs[k])]
  {
    assert RunOk(t.runs[k]);
    hide ResultsOf, RunningOk, PausedOk, StoppingOk, AskLogOk;
  }

  lemma HandlerEndEnds(s: Server, wire: nat -> Wire, k: nat, flushed: nat)
    requires ServerOk(s) && k < |s.runs| && !s.runs[k].ended
    ensures k < |HandlerEnd(s, wire, k, flushed).runs| && HandlerEnd(s, wire, k, flushed).runs[k].ended
  {
    hide ServerOk, Keeps, Flush, AfterWrite, Close;
    CloseOk(s, k);
    var u := Flush(Close(s, k), wire, k, flushed);
    FlushOk(Close(s, k), wire, k, flushed);
    var v := Finish(u, k).(log := u.log + [ResultOf(k, u.runs[k])]);
    FinishOk(u, k);
    AfterWriteOk(v, wire(|u.log|));
  }

  /** No request is sent, and none is opened, for an operation that was cancelled, timed out or ended. */
  lemma NoAskAfterTheEnd(wire: nat -> Wire, evs: seq<Event>, more: seq<Event>, k: nat)
    requires var s := RunAll(START, wire, evs);
             k < |s.runs| && (IsAborted(s.runs[k]) || s.runs[k].ended)
    ensures var s := RunAll(START, wire, evs);
            var t := RunAll(s, wire, more);
            && k < |t.runs| && AsksSent(t.log, k) == AsksSent(s.log, k)
            && t.runs[k].settled.Keys == s.runs[k].settled.Keys && t.runs[k].asks == {}
  {
    AnyRunOk(wire, evs);
    var s := RunAll(START, wire, evs);
    RunKeepsOk(s, wire, more);
    var t := RunAll(s, wire, more);
    assert RunOk(s.runs[k]) && RunOk(t.runs[k]) && RunKeeps(s.runs[k], t.runs[k]);
    hide AsksSent;
  }

  /** Every request is settled once: it is open and not settled, or settled with one call that no later event repeats. When
      its operation ends it is not open. Each is sent at most once. */
  lemma AsksSettleOnce(wire: nat -> Wire, evs: seq<Event>, more: seq<Event>, k: nat, n: nat)
    requires var s := RunAll(START, wire, evs);
             k < |s.runs| && n in s.runs[k].settled
    ensures var s := RunAll(START, wire, evs);
            var t := RunAll(s, wire, more);
            && k < |t.runs| && n in t.runs[k].settled
            && |s.runs[k].settled[n]| == (if n in s.runs[k].asks then 0 else 1)
            && (n !in s.runs[k].asks ==> t.runs[k].settled[n] == s.runs[k].settled[n])
            && (t.runs[k].ended || IsAborted(t.runs[k]) ==> |t.runs[k].settled[n]| == 1)
            && NoDuplicates(AsksSent(s.log, k))
  {
    AnyRunOk(wire, evs);
    var s := RunAll(START, wire, evs);
    RunKeepsOk(s, wire, more);
    var t := RunAll(s, wire, more);
    assert RunOk(s.runs[k]) && RunOk(t.runs[k]) && RunKeeps(s.runs[k], t.runs[k]);
    hide AsksSent;
  }

  /** All that an operation holds is masked in what it sends, and what was masked once stays masked. */
  lemma SecretsStayMasked(wire: nat -> Wire, evs: seq<Event>, more: seq<Event>, k: nat, name: string)
    requires k < |RunAll(START, wire, evs).runs| && name in RunAll(START, wire, evs).runs[k].secrets
    ensures var s := RunAll(START, wire, evs);
            var t := RunAll(s, wire, more);
            && k < |t.runs| && s.runs[k].secrets[name] in t.runs[k].masked
            && s.runs[k].masked <= t.runs[k].masked && |t.runs[k].masked| <= MAX_MASKED_SECRETS
  {
    AnyRunOk(wire, evs);
    var s := RunAll(START, wire, evs);
    RunKeepsOk(s, wire, more);
    var t := RunAll(s, wire, more);
    assert RunOk(s.runs[k]) && RunOk(t.runs[k]) && RunKeeps(s.runs[k], t.runs[k]);
  }

  /** Exactly the output of the running operations is paused, and only while the connection is congested. */
  lemma PausedExactly(wire: nat -> Wire, evs: seq<Event>, k: nat, n: nat)
    ensures var s := RunAll(START, wire, evs);
            (k, n) in s.paused <==> s.outputPaused && k < |s.runs| && !s.runs[k].ended && n in s.runs[k].pausables
  {
    AnyRunOk(wire, evs);
    hide RunAll;
  }

  /** A line that asks for an operation is answered with a refusal at once, or starts the operation, which is late when the script
      exits already; without first acts of its handler nothing else happens. */
  lemma AcceptedOrRefused(s: Server, wire: nat -> Wire, m: Message)
    requires ServerOk(s) && m.Op?
    ensures var t := OnLine(s, wire, m);
            if m.id in s.running || !m.known then t.log == s.log + [Refusal(m.id)] && |t.runs| == |s.runs|
            else
              && |s.runs| < |t.runs| && t.runs[|s.runs|].id == m.id && t.runs[|s.runs|].late == s.stopping
              && (m.first == [] ==> t.log == s.log && IsRunning(t, |s.runs|) && t.running.Keys == s.running.Keys + {m.id})
  {
    hide ServerOk, ActsOf, Accept, Send, IsRunning;
    if m.id !in s.running && m.known {
      AcceptsOne(s, wire, m);
    } else {
      RefusalGoesOut(s, wire, m.id);
    }
  }

  lemma RefusalGoesOut(s: Server, wire: nat -> Wire, id: int)
    ensures Send(s, wire, Refusal(id)).log == s.log + [Refusal(id)] && |Send(s, wire, Refusal(id)).runs| == |s.runs|
  {
  }

  lemma AcceptsOne(s: Server, wire: nat -> Wire, m: Message)
    requires ServerOk(s) && m.Op? && m.id !in s.running
    ensures var t := ActsOf(Accept(s, m.id, m.timed, m.secrets), wire, |s.runs|, m.first);
            && |s.runs| < |t.runs| && t.runs[|s.runs|].id == m.id && t.runs[|s.runs|].late == s.stopping
            && (m.first == [] ==> t.log == s.log && IsRunning(t, |s.runs|) && t.running.Keys == s.running.Keys + {m.id})
  {
    hide ServerOk, ActsOf, Accept;
    var before := Accept(s, m.id, m.timed, m.secrets);
    AcceptOk(s, m.id, m.timed, m.secrets);
    AcceptIs(s, m);
    ActsOk(before, wire, |s.runs|, m.first);
    KeepsRun(before, ActsOf(before, wire, |s.runs|, m.first), |s.runs|);
    NoActs(before, wire, |s.runs|);
    hide Keeps;
  }

  lemma AcceptIs(s: Server, m: Message)
    requires m.Op? && m.id !in s.running
    ensures var t := Accept(s, m.id, m.timed, m.secrets);
            && |t.runs| == |s.runs| + 1 && t.runs[|s.runs|].id == m.id && t.runs[|s.runs|].late == s.stopping
            && t.log == s.log && IsRunning(t, |s.runs|) && t.running.Keys == s.running.Keys + {m.id}
  {
  }

  lemma KeepsRun(s: Server, t: Server, k: nat)
    requires Keeps(s, t) && k < |s.runs|
    ensures k < |t.runs| && t.runs[k].id == s.runs[k].id && t.runs[k].late == s.runs[k].late
  {
  }

  lemma NoActs(s: Server, wire: nat -> Wire, k: nat)
    ensures ActsOf(s, wire, k, []) == s
  {
  }

  /** The script exits by itself only when every operation that was accepted before the shutdown had its result; the others
      are exactly those that were accepted afterwards and did not end. */
  lemma ExitWaitsForResults(wire: nat -> Wire, evs: seq<Event>, k: nat)
    requires MayExit(RunAll(START, wire, evs)) && k < |RunAll(START, wire, evs).runs|
    ensures var s := RunAll(START, wire, evs);
            ResultsOf(s.log, k) == [] <==> s.runs[k].late && !s.runs[k].ended
  {
    AnyRunOk(wire, evs);
    hide ResultsOf, RunAll;
  }

  /** The lines behind a failed write in the same text still start operations: this one is accepted after the shutdown, so
      the shutdown does not cancel it, and the script may exit without a result for it. */
  lemma LateOperationIsLeft()
    ensures var s := RunAll(START, NobodyReads, [Input([Ping, Op(7, true, false, [], [])])]);
            && MayExit(s) && |s.runs| == 1 && s.runs[0].late && !IsAborted(s.runs[0]) && !s.runs[0].ended
            && ResultsOf(s.log, 0) == []
  {
    var op := Op(7, true, false, [], []);
    var lines := [Ping, op];
    assert lines[..1] == [Ping] && [Input(lines)][..0] == [];
    assert OnLines(START, NobodyReads, [Ping]) == OnLine(START, NobodyReads, Ping) by { assert [Ping][..0] == []; }
    var s := OnLine(OnLine(START, NobodyReads, Ping), NobodyReads, op);
    assert OnLines(START, NobodyReads, lines) == s;
    assert RunAll(START, NobodyReads, [Input(lines)]) == s;
    hide RunAll, OnLines;
    AfterPing();
    assert s == ActsOf(Accept(OnLine(START, NobodyReads, Ping), 7, false, []), NobodyReads, 0, []);
  }

  function NobodyReads(n: nat): Wire { Gone }

  lemma AfterPing()
    ensures var s := OnLine(START, NobodyReads, Ping);
            s.stopping && s.awaited == {} && s.runs == [] && s.running == map[] && s.log == [Pong] && ResultsOf(s.log, 0) == []
  {
    assert [] + [Pong] == [Pong];
    assert [Pong][..0] == [];
  }
}
