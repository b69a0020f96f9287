/** What each event does to the fields of the whole script (src/helperChannel/server.ts). */
module ChannelEvents {
  import opened ChannelServer
  import opened ChannelSafety
  import opened ChannelReactions

  // ---- An operation ----

  /** It asks no more, and the promises of its open requests are rejected. */
  ghost predicate HasAsksEnded(r: Run, t: Run) {
    && t.asksClosed && t.asks == {} && t.settled.Keys == r.settled.Keys
    && forall n :: n in r.settled ==> t.settled[n] == if n in r.asks then r.settled[n] + [Aborted] else r.settled[n]
  }

  /** It has its first reason to end, and nothing else of it changes but its timer and its requests. */
  ghost predicate IsEndedBy(r: Run, t: Run, timedOut: bool) {
    if r.cancelled || r.timedOut then t == r
    else
      && HasAsksEnded(r, t)
      && t == r.(cancelled := !timedOut, timedOut := timedOut, timer := false, asksClosed := true, asks := {}, settled := t.settled)
  }

  lemma CancelMeans(r: Run, timedOut: bool)
    ensures IsEndedBy(r, CancelRun(r, timedOut), timedOut)
  {
  }

  /** Every operation that runs is cancelled, and nothing else changes. */
  ghost predicate IsShutDown(s: Server, t: Server) {
    if s.stopping then t == s
    else
      && t == s.(stopping := true, runs := t.runs, awaited := t.awaited) && |t.runs| == |s.runs|
      && (forall k: nat :: k in t.awaited <==> k < |s.runs| && !s.runs[k].ended)
      && forall k: nat :: k < |s.runs| ==> if s.runs[k].ended then t.runs[k] == s.runs[k] else IsEndedBy(s.runs[k], t.runs[k], false)
  }

  lemma ShutdownMeans(s: Server)
    requires RunningOk(s)
    ensures IsShutDown(s, Shutdown(s))
  {
    forall k: nat | k < |s.runs|
      ensures IsEndedBy(s.runs[k], CancelRun(s.runs[k], false), false)
    {
      CancelMeans(s.runs[k], false);
    }
    hide IsEndedBy, CancelRun;
  }

  // ---- A message ----

  /** A message goes out unless the script exits and it is no result; a write that fails ends the script, a slow one pauses all that
      the running operations read. */
  ghost predicate IsSent(s: Server, wire: nat -> Wire, m: Sent, t: Server) {
    if s.stopping && !m.Refusal? && !m.Result? then t == s
    else
      var u := s.(log := s.log + [m]);
      if wire(|s.log|) == Gone then IsShutDown(u, t)
      else if wire(|s.log|) == Written(true) && !s.outputPaused then
        && t == u.(outputPaused := true, paused := t.paused)
        && forall k: nat, n: nat :: (k, n) in t.paused <==> k < |s.runs| && !s.runs[k].ended && n in s.runs[k].pausables
      else t == u
  }

  lemma SendMeans(s: Server, wire: nat -> Wire, m: Sent)
    requires RunningOk(s) && PausedOk(s)
    ensures IsSent(s, wire, m, Send(s, wire, m))
  {
    ShutdownMeans(s.(log := s.log + [m]));
    hide IsShutDown, Shutdown;
    if !s.outputPaused {
      assert s.paused == {};
      assert forall k: nat, n: nat :: (k, n) in Registered(s) <==> k < |s.runs| && IsRunning(s, k) && n in s.runs[k].pausables;
    }
  }

  // ---- The lines ----

  /** The running operation with this ID. */
  predicate Runs(s: Server, k: nat, id: int) { k < |s.runs| && !s.runs[k].ended && s.runs[k].id == id }

  lemma RunsMeans(s: Server, id: int)
    requires RunningOk(s)
    ensures id in s.running ==> Runs(s, s.running[id], id)
    ensures forall k: nat :: Runs(s, k, id) ==> id in s.running && s.running[id] == k
  {
    if id in s.running { assert IsRunning(s, s.running[id]); }
    forall k: nat | Runs(s, k, id)
      ensures id in s.running && s.running[id] == k
    {
      assert IsRunning(s, k);
    }
  }

  /** Another operation is as it was, and so is the rest of the script. */
  ghost predicate OnlyRun(s: Server, k: nat, t: Server) {
    k < |s.runs| && |t.runs| == |s.runs| && t == s.(runs := s.runs[k := t.runs[k]])
  }

  /** The lines without an answer or an accepted operation: what goes out, and what a cancel does. */
  lemma LineMeans(s: Server, wire: nat -> Wire, m: Message, k: nat)
    requires ServerOk(s)
    ensures var t := OnLine(s, wire, m);
            && (m.Greeting? ==> IsSent(s, wire, Hello, t))
            && (m.Ping? ==> IsSent(s, wire, Pong, t))
            && (m.Bad? && m.refused && m.id !in s.running ==> IsSent(s, wire, Refusal(m.id), t))
            && (m.Bad? && (!m.refused || Runs(s, k, m.id)) ==> t == s)
            && (m.Cancel? && Runs(s, k, m.id) ==> OnlyRun(s, k, t) && IsEndedBy(s.runs[k], t.runs[k], false))
            && (m.Cancel? && m.id !in s.running ==> IsSent(s, wire, CancelConfirmed(m.id), t))
            && (m.Op? && (!m.known || Runs(s, k, m.id)) ==> IsSent(s, wire, Refusal(m.id), t))
            && (m.Answer? && (m.id !in s.running || (Runs(s, k, m.id) && m.ask !in s.runs[k].asks)) ==> t == s)
  {
    match m {
      case Greeting => SendMeans(s, wire, Hello);
      case Ping => SendMeans(s, wire, Pong);
      case Bad(_, id) => SendMeans(s, wire, Refusal(id));
      case Op(id, _, _, _, _) => SendMeans(s, wire, Refusal(id));
      case Cancel(id) =>
        SendMeans(s, wire, CancelConfirmed(id));
        if id in s.running { CancelMeans(s.runs[s.running[id]], false); }
      case Answer(id, _, _) =>
    }
    if !m.Greeting? && !m.Ping? { RunsMeans(s, m.id); }
    hide IsSent, IsEndedBy, Send, CancelRun, ServerOk, ActsOf, Accept, AnswerRun;
  }

  lemma RunningMeans(s: Server, id: int)
    requires ServerOk(s)
    ensures id in s.running <==> exists k: nat :: Runs(s, k, id)
  {
    RunsMeans(s, id);
    hide ServerOk, Runs;
  }

  /** An accepted operation: its secrets are masked from the start, and it has neither requests nor output that it reads. */
  ghost predicate IsNewRun(r: Run, m: Message, late: bool)
    requires m.Op?
  {
    && r == Run(m.id, m.timed, false, false, false, late, false, {}, 1, map[], r.secrets, r.masked, {})
    && |r.masked| == |m.secrets| && forall i :: 0 <= i < |m.secrets| ==>
         r.masked[i] == m.secrets[i].value && m.secrets[i].name in r.secrets && r.secrets[m.secrets[i].name] == m.secrets[i].value
  }

  /** A known operation whose ID does not run is accepted, and what its handler does first follows at once. */
  lemma OperationStarts(s: Server, wire: nat -> Wire, m: Message)
    requires m.Op? && m.known && m.id !in s.running && DistinctNames(m.secrets)
    ensures var t, k := OnLine(s, wire, m), |s.runs|;
            exists r :: IsNewRun(r, m, s.stopping)
              && t == RunAll(s.(runs := s.runs + [r], running := s.running[m.id := k]), wire, Each(k, m.first))
  {
    var r := NewRun(m.id, m.timed, s.stopping, m.secrets);
    MergedAre(map[], m.secrets);
    assert IsNewRun(r, m, s.stopping);
    hide NewRun, IsNewRun;
    FirstActs(Accept(s, m.id, m.timed, m.secrets), wire, |s.runs|, m.first);
    hide ActsOf, RunAll;
  }

  /** The acts, as events. */
  function Each(k: nat, acts: seq<Act>): seq<Event> { seq(|acts|, i requires 0 <= i < |acts| => Acts(k, acts[i])) }

  lemma {:induction false} FirstActs(s: Server, wire: nat -> Wire, k: nat, acts: seq<Act>)
    ensures ActsOf(s, wire, k, acts) == RunAll(s, wire, Each(k, acts))
  {
    hide ActOf;
    if acts != [] {
      FirstActs(s, wire, k, acts[..|acts| - 1]);
      assert Each(k, acts)[..|acts| - 1] == Each(k, acts[..|acts| - 1]);
    }
  }

  /** A text of lines is its lines, one after the other, unless the script exits when it comes. */
  lemma LinesMean(s: Server, wire: nat -> Wire, lines: seq<Message>, last: Message)
    ensures s.stopping ==> Next(s, wire, Input(lines)) == s
    ensures !s.stopping ==> Next(s, wire, Input([])) == s
    ensures !s.stopping ==> Next(s, wire, Input(lines + [last])) == OnLine(Next(s, wire, Input(lines)), wire, last)
  {
    hide OnLine;
    assert (lines + [last])[..|lines|] == lines;
  }

  // ---- What a handler does ----

  /** What a handler does but its requests: a message, a secret that it forgets, and output of which it begins and ends the reading,
      which is paused from the begin on while the output is. */
  lemma ActMeans(s: Server, wire: nat -> Wire, k: nat, act: Act)
    requires ServerOk(s) && k < |s.runs| && !act.Ask?
    ensures var r, t := s.runs[k], Next(s, wire, Acts(k, act));
            match act
            case Write => IsSent(s, wire, Text(k), t)
            case Forget(name) =>
              && OnlyRun(s, k, t) && t.runs[k] == r.(secrets := t.runs[k].secrets) && name !in t.runs[k].secrets
              && forall other :: other != name ==>
                   (other in t.runs[k].secrets <==> other in r.secrets) && (other in r.secrets ==> t.runs[k].secrets[other] == r.secrets[other])
            case Watch(n) =>
              if r.ended then t == s
              else t == s.(runs := s.runs[k := r.(pausables := r.pausables + {n})], paused := if s.outputPaused then s.paused + {(k, n)} else {})
            case Unwatch(n) =>
              && t == s.(runs := s.runs[k := r.(pausables := r.pausables - {n})], paused := t.paused)
              && t.paused == (if s.outputPaused then s.paused - {(k, n)} else {})
            case Ask(_, _) => true
  {
    hide IsSent, Send, AskOf, ServerOk, RunningOk, PausedOk, Registered, IsRunning;
    match act {
      case Write =>
        ServerMeans(s);
        SendMeans(s, wire, Text(k));
      case Watch(n) => WatchMeans(s, wire, k, n);
      case Unwatch(n) => UnwatchMeans(s, wire, k, n);
      case _ =>
    }
  }

  lemma WatchMeans(s: Server, wire: nat -> Wire, k: nat, n: nat)
    requires ServerOk(s) && k < |s.runs|
    ensures var r, t := s.runs[k], ActOf(s, wire, k, Watch(n));
            if r.ended then t == s
            else t == s.(runs := s.runs[k := r.(pausables := r.pausables + {n})], paused := if s.outputPaused then s.paused + {(k, n)} else {})
  {
    hide RunsOk, StoppingOk, ResultsOk, AskLogOk, Registered, IsRunning, Send, AskOf;
    assert s.runs[k].ended <==> !IsRunning(s, k);
  }

  lemma UnwatchMeans(s: Server, wire: nat -> Wire, k: nat, n: nat)
    requires ServerOk(s) && k < |s.runs|
    ensures var r, t := s.runs[k], ActOf(s, wire, k, Unwatch(n));
            && t == s.(runs := s.runs[k := r.(pausables := r.pausables - {n})], paused := t.paused)
            && t.paused == (if s.outputPaused then s.paused - {(k, n)} else {})
  {
    hide *;
    UnwatchIs(s, wire, k, n);
    PausedIs(s, k, n);
    if n !in s.runs[k].pausables {
      assert s.runs[k].pausables - {n} == s.runs[k].pausables;
      assert s.runs[k := s.runs[k]] == s.runs;
      assert s.paused - {(k, n)} == s.paused;
    }
  }

  lemma UnwatchIs(s: Server, wire: nat -> Wire, k: nat, n: nat)
    requires k < |s.runs|
    ensures var r := s.runs[k];
            ActOf(s, wire, k, Unwatch(n)) ==
              if n !in r.pausables then s
              else s.(runs := s.runs[k := r.(pausables := r.pausables - {n})], paused := if s.outputPaused then s.paused - {(k, n)} else s.paused)
  {
    hide Send, AskOf, IsRunning;
  }

  lemma PausedIs(s: Server, k: nat, n: nat)
    requires ServerOk(s) && k < |s.runs|
    ensures !s.outputPaused ==> s.paused == {}
    ensures n !in s.runs[k].pausables ==> (k, n) !in s.paused
  {
    hide RunsOk, StoppingOk, ResultsOk, AskLogOk, RunningOk, IsRunning;
  }

  /** Its next request is open, under its next number. */
  function Opened(r: Run): Run {
    r.(nextAsk := r.nextAsk + 1, asks := r.asks + {r.nextAsk}, settled := r.settled[r.nextAsk := []])
  }

  /** A request: refused without a trace when the operation ends or ended, the kind does not exist or sixteen are open; it takes a
      number when it does not fit, and is open under its number and sent otherwise. */
  lemma AskMeans(s: Server, wire: nat -> Wire, k: nat, isKind: bool, fits: bool)
    requires ServerOk(s) && k < |s.runs|
    ensures var r, t := s.runs[k], Next(s, wire, Acts(k, Ask(isKind, fits)));
            if r.ended || r.cancelled || r.timedOut || r.asksClosed || !isKind || |r.asks| >= 16 then t == s
            else if !fits then t == s.(runs := s.runs[k := r.(nextAsk := r.nextAsk + 1)])
            else IsSent(s.(runs := s.runs[k := Opened(r)]), wire, Asked(k, r.nextAsk), t)
  {
    hide *;
    AskIs(s, wire, k, isKind, fits);
    OpenedRuns(s, k);
    SendMeans(s.(runs := s.runs[k := Opened(s.runs[k])]), wire, Asked(k, s.runs[k].nextAsk));
  }

  lemma AskIs(s: Server, wire: nat -> Wire, k: nat, isKind: bool, fits: bool)
    requires ServerOk(s) && k < |s.runs|
    ensures var r, t := s.runs[k], Next(s, wire, Acts(k, Ask(isKind, fits)));
            if r.ended || r.cancelled || r.timedOut || r.asksClosed || !isKind || |r.asks| >= 16 then t == s
            else if !fits then t == s.(runs := s.runs[k := r.(nextAsk := r.nextAsk + 1)])
            else t == Send(s.(runs := s.runs[k := Opened(r)]), wire, Asked(k, r.nextAsk))
  {
    hide Send, ServerOk;
    AsksAndRuns(s, k);
  }

  lemma OpenedRuns(s: Server, k: nat)
    requires ServerOk(s) && k < |s.runs|
    ensures RunningOk(s.(runs := s.runs[k := Opened(s.runs[k])])) && PausedOk(s.(runs := s.runs[k := Opened(s.runs[k])]))
  {
    hide ServerOk, RunningOk, PausedOk;
    StillRuns(s, k, Opened(s.runs[k]));
  }

  lemma StillRuns(s: Server, k: nat, r: Run)
    requires ServerOk(s) && k < |s.runs|
    requires r.id == s.runs[k].id && r.ended == s.runs[k].ended && r.pausables == s.runs[k].pausables
    ensures RunningOk(SetRun(s, k, r)) && PausedOk(SetRun(s, k, r))
  {
    RegisteredAlike(s, SetRun(s, k, r));
    hide RunsOk, StoppingOk, ResultsOk, AskLogOk, Registered, IsRunning;
  }

  /** An answer to an open request settles it and closes it, and with its secrets it adds those values to the masked ones that are not
      there yet; at most eight secrets and thirty-two masked values are held. */
  lemma AnswerMeans(s: Server, wire: nat -> Wire, k: nat, ask: nat, reply: Reply)
    requires ServerOk(s) && k < |s.runs| && !s.runs[k].ended && ask in s.runs[k].asks && (reply.Value? ==> DistinctNames(reply.secrets))
    ensures var t := OnLine(s, wire, Answer(s.runs[k].id, ask, reply));
            OnlyRun(s, k, t) && IsAnswered(s.runs[k], ask, reply, t.runs[k])
  {
    var r := s.runs[k];
    assert RunOk(r) && IsRunning(s, k);
    AnswerRunMeans(r, ask, reply);
    hide RunOk, AnswerRun, IsAnswered, PausedOk, StoppingOk, ResultsOk, AskLogOk;
  }

  ghost predicate IsAnswered(r: Run, n: nat, reply: Reply, t: Run)
    requires n in r.settled
  {
    && t == r.(asks := r.asks - {n}, settled := t.settled, secrets := t.secrets, masked := t.masked)
    && (t.settled == r.settled[n := [Resolved]] || t.settled == r.settled[n := [Refused]])
    && if t.settled == r.settled[n := [Refused]] then t.secrets == r.secrets && t.masked == r.masked
       else
         && reply.Value? && |t.secrets| <= 8 && |t.masked| <= 32
         && t.secrets.Keys == r.secrets.Keys + (set i | 0 <= i < |reply.secrets| :: reply.secrets[i].name)
         && (forall i :: 0 <= i < |reply.secrets| ==> t.secrets[reply.secrets[i].name] == reply.secrets[i].value)
         && r.masked <= t.masked && IsNew(r.masked, reply.secrets, t.masked[|r.masked|..])
  }

  predicate HasValue(entries: seq<Secret>, v: string) { exists i :: 0 <= i < |entries| && entries[i].value == v }

  /** The values of the entries that are not there yet, each once. */
  ghost predicate IsNew(masked: seq<string>, entries: seq<Secret>, added: seq<string>) {
    && (forall v :: v in added <==> v !in masked && HasValue(entries, v))
    && forall i, j :: 0 <= i < j < |added| ==> added[i] != added[j]
  }

  lemma {:induction false} AddedMeans(entries: seq<Secret>, masked: seq<string>)
    ensures IsNew(masked, entries, Added(entries, masked))
  {
    if entries != [] {
      var init, last := entries[..|entries| - 1], entries[|entries| - 1];
      AddedMeans(init, masked);
      forall v
        ensures HasValue(entries, v) <==> v == last.value || HasValue(init, v)
      {
        if i :| 0 <= i < |entries| && entries[i].value == v { assert i < |init| ==> init[i].value == v; }
        if i :| 0 <= i < |init| && init[i].value == v { assert entries[i].value == v; }
        assert entries[|entries| - 1].value == last.value;
      }
    }
  }

  lemma AnswerRunMeans(r: Run, n: nat, reply: Reply)
    requires RunOk(r) && n in r.asks && (reply.Value? ==> DistinctNames(reply.secrets))
    ensures n in r.settled && IsAnswered(r, n, reply, AnswerRun(r, n, reply))
  {
    assert r.settled[n] == [] && [] + [Resolved] == [Resolved] && [] + [Refused] == [Refused];
    assert r.settled[n := [Resolved]][n] != r.settled[n := [Refused]][n];
    if AnswerRun(r, n, reply).settled != r.settled[n := [Refused]] { AnswerTakes(r, n, reply); }
    hide Merge, Added, IsNew, RunOk, DistinctNames;
  }

  lemma AnswerTakes(r: Run, n: nat, reply: Reply)
    requires n in r.settled && n in r.asks && r.settled[n] == [] && reply.Value? && DistinctNames(reply.secrets)
    requires AnswerRun(r, n, reply).settled != r.settled[n := [Refused]]
    ensures IsAnswered(r, n, reply, AnswerRun(r, n, reply))
  {
    hide *;
    TakenIs(r, n, reply);
    AddedMeans(reply.secrets, r.masked);
    NamesOfMerged(r.secrets, reply.secrets);
    ValuesOfMerged(r.secrets, reply.secrets);
    AnsweredIs(r, n, reply, AnswerRun(r, n, reply), Merge(r.secrets, reply.secrets), Added(reply.secrets, r.masked));
  }

  lemma TakenIs(r: Run, n: nat, reply: Reply)
    requires n in r.settled && n in r.asks && r.settled[n] == [] && reply.Value?
    requires AnswerRun(r, n, reply).settled != r.settled[n := [Refused]]
    ensures var secrets, added := Merge(r.secrets, reply.secrets), Added(reply.secrets, r.masked);
            && |secrets| <= 8 && |r.masked| + |added| <= 32
            && AnswerRun(r, n, reply) ==
                 r.(asks := r.asks - {n}, settled := r.settled[n := [Resolved]], secrets := secrets, masked := r.masked + added)
  {
    hide Merge, Added, Settle;
    var taken := r.(asks := r.asks - {n});
    var secrets, added := Merge(r.secrets, reply.secrets), Added(reply.secrets, r.masked);
    SettleIs(taken, n, Refused);
    SettleIs(taken.(secrets := secrets, masked := r.masked + added), n, Resolved);
  }

  lemma SettleIs(r: Run, n: nat, how: Settlement)
    requires n in r.settled && r.settled[n] == []
    ensures Settle(r, n, how) == r.(settled := r.settled[n := [how]])
  {
    assert [] + [how] == [how];
  }

  lemma AnsweredIs(r: Run, n: nat, reply: Reply, t: Run, secrets: map<string, string>, added: seq<string>)
    requires n in r.settled && reply.Value? && |secrets| <= 8 && |r.masked| + |added| <= 32 && IsNew(r.masked, reply.secrets, added)
    requires secrets.Keys == r.secrets.Keys + (set i | 0 <= i < |reply.secrets| :: reply.secrets[i].name)
    requires forall i :: 0 <= i < |reply.secrets| ==>
               reply.secrets[i].name in secrets && secrets[reply.secrets[i].name] == reply.secrets[i].value
    requires t == r.(asks := r.asks - {n}, settled := r.settled[n := [Resolved]], secrets := secrets, masked := r.masked + added)
    ensures IsAnswered(r, n, reply, t)
  {
    hide IsNew;
    assert r.settled[n := [Resolved]][n] != r.settled[n := [Refused]][n];
    assert (r.masked + added)[|r.masked|..] == added;
  }

  lemma ValuesOfMerged(secrets: map<string, string>, entries: seq<Secret>)
    requires DistinctNames(entries)
    ensures forall i :: 0 <= i < |entries| ==>
              entries[i].name in Merge(secrets, entries) && Merge(secrets, entries)[entries[i].name] == entries[i].value
  {
    MergedAre(secrets, entries);
  }

  lemma NamesOfMerged(secrets: map<string, string>, entries: seq<Secret>)
    requires DistinctNames(entries)
    ensures Merge(secrets, entries).Keys == secrets.Keys + (set i | 0 <= i < |entries| :: entries[i].name)
  {
    MergedAre(secrets, entries);
    hide Merge, DistinctNames;
    var names := set i | 0 <= i < |entries| :: entries[i].name;
    forall name
      ensures name in Merge(secrets, entries).Keys <==> name in secrets.Keys + names
    {
      if name !in names { assert forall k :: 0 <= k < |entries| ==> entries[k].name in names; }
    }
  }

  // ---- The end of an operation ----

  /** Its timer is off, its requests have ended, and none of its output is paused anymore. */
  ghost predicate IsClosed(s: Server, k: nat, t: Server) {
    && k < |s.runs| && |t.runs| == |s.runs| && t == s.(runs := s.runs[k := t.runs[k]], paused := t.paused)
    && HasAsksEnded(s.runs[k], t.runs[k])
    && t.runs[k] == s.runs[k].(timer := false, asksClosed := true, asks := {}, settled := t.runs[k].settled, pausables := {})
    && forall j: nat, n: nat :: (j, n) in t.paused <==> (j, n) in s.paused && j != k
  }

  /** The handler of an operation ended: it is closed, the rest of its output is written, and then its result with how it ended. The
      states are those before each text of the rest and before the result. */
  lemma EndMeans(s: Server, wire: nat -> Wire, k: nat, flushed: nat) returns (states: seq<Server>)
    requires ServerOk(s) && k < |s.runs| && !s.runs[k].ended
    ensures |states| == flushed + 1 && IsClosed(s, k, states[0])
    ensures forall j :: 0 <= j < flushed ==> IsSent(states[j], wire, Text(k), states[j + 1])
    ensures var u, t := states[flushed], Next(s, wire, HandlerEnds(k, flushed));
            && k < |u.runs|
            && var r := u.runs[k];
               IsSent(u.(runs := u.runs[k := r.(ended := true)], running := u.running - {r.id}), wire,
                      Result(k, r.id, r.cancelled, r.timedOut), t)
  {
    hide *;
    var closed := Close(s, k);
    CloseOk(s, k);
    CloseMeans(s, k);
    states := Flushing(closed, wire, k, flushed);
    FlushOk(closed, wire, k, flushed);
    ClosedIs(states[flushed], k);
    ResultMeans(states[flushed], wire, k);
    EndIs(s, wire, k, flushed, states[flushed]);
  }

  lemma ClosedIs(u: Server, k: nat)
    requires Closed(u, k)
    ensures k < |u.runs|
  {
  }

  lemma EndIs(s: Server, wire: nat -> Wire, k: nat, flushed: nat, u: Server)
    requires k < |s.runs| && !s.runs[k].ended && u == Flush(Close(s, k), wire, k, flushed) && k < |u.runs|
    ensures Next(s, wire, HandlerEnds(k, flushed)) == Send(Finish(u, k), wire, ResultOf(k, u.runs[k]))
  {
    hide Close, Flush, Send, Finish, ResultOf;
  }

  lemma ResultMeans(u: Server, wire: nat -> Wire, k: nat)
    requires ServerOk(u) && Closed(u, k)
    ensures var r := u.runs[k];
            IsSent(u.(runs := u.runs[k := r.(ended := true)], running := u.running - {r.id}), wire,
                   Result(k, r.id, r.cancelled, r.timedOut), Send(Finish(u, k), wire, ResultOf(k, r)))
  {
    var v := Finish(u, k);
    FinishOk(u, k);
    SameRunning(v, v.(log := u.log + [ResultOf(k, u.runs[k])]));
    hide ServerOk, Keeps, IsSent, Send, RunningOk, PausedOk;
    SendMeans(v, wire, ResultOf(k, u.runs[k]));
  }

  lemma SameRunning(s: Server, t: Server)
    requires ServerOk(t) && s == t.(log := s.log)
    ensures RunningOk(s) && PausedOk(s)
  {
    assert forall k: nat :: IsRunning(s, k) == IsRunning(t, k);
    assert Registered(s) == Registered(t);
    hide RunsOk, StoppingOk, ResultsOk, AskLogOk, Registered;
  }

  lemma CloseMeans(s: Server, k: nat)
    requires ServerOk(s) && k < |s.runs|
    ensures IsClosed(s, k, Close(s, k))
  {
    if s.outputPaused {
      forall j: nat, n: nat
        ensures (j, n) in Close(s, k).paused <==> (j, n) in s.paused && j != k
      {
      }
    }
    hide RunsOk, StoppingOk, ResultsOk, AskLogOk, RunningOk;
  }

  lemma {:induction false} Flushing(s: Server, wire: nat -> Wire, k: nat, n: nat) returns (states: seq<Server>)
    requires ServerOk(s) && Closed(s, k)
    ensures |states| == n + 1 && states[0] == s && states[n] == Flush(s, wire, k, n)
    ensures forall j :: 0 <= j < n ==> IsSent(states[j], wire, Text(k), states[j + 1])
  {
    hide IsSent, Send, ServerOk;
    if n == 0 {
      states := [s];
    } else {
      var before := Flushing(s, wire, k, n - 1);
      FlushOk(s, wire, k, n - 1);
      ServerMeans(before[n - 1]);
      SendMeans(before[n - 1], wire, Text(k));
      states := before + [Flush(s, wire, k, n)];
    }
  }

  lemma ServerMeans(s: Server)
    requires ServerOk(s)
    ensures RunningOk(s) && PausedOk(s)
  {
  }

  // ---- The other events ----

  /** The end of the input ends the script, so does a long time without an operation; a time limit ends the operation that still has
      it. Whatever comes for an operation that ended changes nothing. */
  lemma EventMeans(s: Server, wire: nat -> Wire, ev: Event)
    requires ServerOk(s)
    ensures var t := Next(s, wire, ev);
            && (ev.InputEnded? ==> IsShutDown(s, t))
            && (ev.Idle? ==> if forall k :: 0 <= k < |s.runs| ==> s.runs[k].ended then IsShutDown(s, t) else t == s)
            && (ev.Timeout? ==> if ev.run < |s.runs| && s.runs[ev.run].timer
                                then OnlyRun(s, ev.run, t) && IsEndedBy(s.runs[ev.run], t.runs[ev.run], true) else t == s)
            && (ev.HandlerEnds? && (ev.run >= |s.runs| || s.runs[ev.run].ended) ==> t == s)
            && (ev.Drained? ==> t == s.(outputPaused := false, paused := {}))
  {
    ShutdownMeans(s);
    if ev.Timeout? && ev.run < |s.runs| { CancelMeans(s.runs[ev.run], true); }
    if ev.Idle? { NothingRunning(s); }
    assert s.paused - s.paused == {};
    hide IsShutDown, Shutdown, IsEndedBy, CancelRun, Registered, RunsOk, StoppingOk, ResultsOk, AskLogOk, RunningOk;
  }

  lemma NothingRunning(s: Server)
    requires RunningOk(s)
    ensures s.running == map[] <==> forall k :: 0 <= k < |s.runs| ==> s.runs[k].ended
  {
    assert (forall id :: id !in s.running) ==> s.running == map[];
    if id :| id in s.running { assert IsRunning(s, s.running[id]); }
    forall k | 0 <= k < |s.runs|
      ensures s.running == map[] ==> s.runs[k].ended
    {
      assert s.runs[k].ended <==> !IsRunning(s, k);
    }
  }
}
