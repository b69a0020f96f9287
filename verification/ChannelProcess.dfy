/** The class of the helper channel's script as it is written (src/helperChannel/server.ts), against the event machine. */
module ChannelProcess {
  import opened ChannelServer

  class Channel {
    /** What the n-th write of the process meets. */
    const wire: nat -> Wire
    var runs: seq<Run>
    var running: map<int, nat>
    var stopping: bool
    var awaited: set<nat>
    var outputPaused: bool
    var paused: set<(nat, nat)>
    var log: seq<Sent>

    function View(): Server
      reads this
    {
      Server(runs, running, stopping, awaited, outputPaused, paused, log)
    }

    constructor (wire: nat -> Wire)
      ensures View() == START && this.wire == wire
    {
      this.wire := wire;
      runs, running, stopping, awaited, outputPaused, paused, log := [], map[], false, {}, false, {}, [];
    }

    method Send(m: Sent)
      modifies this
      ensures View() == ChannelServer.Send(old(View()), wire, m)
    {
      if stopping && !IsResult(m) { return; }
      var answer := wire(|log|);
      log := log + [m];
      match answer {
        case Gone => Shutdown();
        case Written(congested) => if !outputPaused && congested { PauseOutput(); }
      }
    }

    method PauseOutput()
      modifies this`outputPaused, this`paused
      ensures View() == ChannelServer.PauseOutput(old(View()))
    {
      outputPaused := true;
      ghost var before := old(View());
      for k := 0 to |runs|
        invariant outputPaused
        invariant paused == before.paused + RegisteredBelow(before, k)
      {
        if runs[k].id in running && running[runs[k].id] == k {
          paused := paused + (set n | n in runs[k].pausables :: (k, n));
        }
      }
      assert RegisteredBelow(before, |runs|) == Registered(before);
    }

    /** The connection is fast again. */
    method Drain()
      modifies this`outputPaused, this`paused
      ensures View() == ChannelServer.Drain(old(View()))
    {
      outputPaused := false;
      ghost var before := old(View());
      for k := 0 to |runs|
        invariant !outputPaused
        invariant paused == before.paused - RegisteredBelow(before, k)
      {
        if runs[k].id in running && running[runs[k].id] == k {
          paused := paused - (set n | n in runs[k].pausables :: (k, n));
        }
      }
      assert RegisteredBelow(before, |runs|) == Registered(before);
    }

    /** The requests of an operation end: each promise is rejected. */
    method EndAsks(k: nat)
      requires k < |runs|
      modifies this`runs
      ensures runs == old(runs)[k := ChannelServer.EndAsks(old(runs)[k])]
    {
      var r := runs[k].(asksClosed := true);
      var open, settled := r.asks, r.settled;
      while open != {}
        invariant runs == old(runs) && open <= r.asks
        invariant settled == AbortAll(r.settled, r.asks - open)
        decreases |open|
      {
        var n :| n in open;
        AbortOne(r.settled, r.asks, open, n);
        if n in settled { settled := settled[n := settled[n] + [Aborted]]; }
        open := open - {n};
      }
      assert r.asks - open == r.asks;
      runs := runs[k := r.(asks := {}, settled := settled)];
    }

    method Cancel(k: nat, timedOut: bool)
      requires k < |runs|
      modifies this`runs
      ensures runs == old(runs)[k := CancelRun(old(runs)[k], timedOut)]
    {
      if IsAborted(runs[k]) { return; }
      var r := runs[k];
      r := if timedOut then r.(timedOut := true) else r.(cancelled := true);
      runs := runs[k := r.(timer := false)];
      EndAsks(k);
    }

    method Shutdown()
      modifies this`stopping, this`awaited, this`runs
      ensures View() == ChannelServer.Shutdown(old(View()))
    {
      if stopping { return; }
      stopping := true;
      ghost var before := old(View());
      awaited := set k | 0 <= k < |runs| && IsRunning(View(), k);
      assert forall k: nat :: IsRunning(View(), k) == IsRunning(before, k);
      assert awaited == ChannelServer.Shutdown(before).awaited;
      hide IsRunning, CancelRun;
      for k := 0 to |runs|
        invariant |runs| == |before.runs|
        invariant stopping && awaited == ChannelServer.Shutdown(before).awaited
        invariant forall j: nat :: j in awaited <==> j < |runs| && IsRunning(before, j)
        invariant forall j :: 0 <= j < k ==>
                    runs[j] == if IsRunning(before, j) then CancelRun(before.runs[j], false) else before.runs[j]
        invariant forall j :: k <= j < |runs| ==> runs[j] == before.runs[j]
      {
        if k in awaited { Cancel(k, false); }
      }
      assert runs == ChannelServer.Shutdown(before).runs;
    }

    /** A request of an operation to the extension. */
    method Ask(k: nat, isKind: bool, fits: bool)
      requires k < |runs|
      modifies this
      ensures View() == AskOf(old(View()), wire, k, isKind, fits)
    {
      hide ChannelServer.Send, IsAborted;
      var r := runs[k];
      if r.asksClosed || IsAborted(r) || r.id !in running { return; }
      if !isKind { return; }
      if |r.asks| >= MAX_OPEN_ASKS { return; }
      var ask := r.nextAsk;
      r := r.(nextAsk := ask + 1);
      runs := runs[k := r];
      if !fits { return; }
      runs := runs[k := r.(asks := r.asks + {ask}, settled := r.settled[ask := []])];
      assert View() == SetRun(old(View()), k, runs[k]);
      Send(Asked(k, ask));
    }

    method Act(k: nat, act: Act)
      requires k < |runs|
      modifies this
      ensures View() == ActOf(old(View()), wire, k, act)
    {
      var r := runs[k];
      match act
      case Ask(isKind, fits) => Ask(k, isKind, fits);
      case Write => Send(Text(k));
      case Forget(name) => runs := runs[k := r.(secrets := r.secrets - {name})];
      case Watch(n) =>
        if r.id !in running || running[r.id] != k { return; }
        runs := runs[k := r.(pausables := r.pausables + {n})];
        if outputPaused { paused := paused + {(k, n)}; }
      case Unwatch(n) =>
        if n !in r.pausables { return; }
        runs := runs[k := r.(pausables := r.pausables - {n})];
        if outputPaused { paused := paused - {(k, n)}; }
    }

    /** The answer of the extension to a request of a running operation; others are ignored. */
    method Answer(id: int, ask: nat, reply: Reply)
      modifies this`runs
      ensures View() == ChannelServer.OnLine(old(View()), wire, Message.Answer(id, ask, reply))
    {
      if id !in running || running[id] >= |runs| { return; }
      var k := running[id];
      var r := runs[k];
      if ask !in r.asks || ask !in r.settled { return; }
      r := r.(asks := r.asks - {ask});
      match reply {
        case Failure =>
          runs := runs[k := Settle(r, ask, Refused)];
          return;
        case Value(secrets) =>
          var merged := Merge(r.secrets, secrets);
          if |merged| > MAX_SECRETS {
            runs := runs[k := Settle(r, ask, Refused)];
            return;
          }
          var added := NewValues(secrets, r.masked);
          if |r.masked| + |added| > MAX_MASKED_SECRETS {
            runs := runs[k := Settle(r, ask, Refused)];
            return;
          }
          r := r.(secrets := merged, masked := r.masked + added);
      }
      runs := runs[k := Settle(r, ask, Resolved)];
    }

    method StartOperation(id: int, known: bool, timed: bool, secrets: Secrets, first: seq<Act>)
      modifies this
      ensures View() == ChannelServer.OnLine(old(View()), wire, Op(id, known, timed, secrets, first))
    {
      if id in running || !known {
        Send(Refusal(id));
        return;
      }
      var k := |runs|;
      ghost var before := View();
      runs := runs + [NewRun(id, timed, stopping, secrets)];
      running := running[id := k];
      ghost var accepted := Accept(before, id, timed, secrets);
      assert View() == accepted;
      assert first[..0] == [];
      for i := 0 to |first|
        invariant View() == ActsOf(accepted, wire, k, first[..i])
      {
        assert first[..i + 1][..i] == first[..i];
        if k < |runs| { Act(k, first[i]); }
      }
      assert first[..|first|] == first;
    }

    method OnLine(m: Message)
      modifies this
      ensures View() == ChannelServer.OnLine(old(View()), wire, m)
    {
      match m
      case Bad(refused, id) => if refused && id !in running { Send(Refusal(id)); }
      case Greeting => Send(Hello);
      case Ping => Send(Pong);
      case Cancel(id) =>
        if id in running && running[id] < |runs| {
          Cancel(running[id], false);
          return;
        }
        Send(CancelConfirmed(id));
      case Op(id, known, timed, secrets, first) => StartOperation(id, known, timed, secrets, first);
      case Answer(id, ask, reply) => Answer(id, ask, reply);
    }

    /** Text of the extension: the lines that it ends. */
    method Input(lines: seq<Message>)
      modifies this
      ensures View() == Next(old(View()), wire, Event.Input(lines))
    {
      if stopping { return; }
      ghost var before := View();
      assert lines[..0] == [];
      for i := 0 to |lines|
        invariant View() == OnLines(before, wire, lines[..i])
      {
        assert lines[..i + 1][..i] == lines[..i];
        OnLine(lines[i]);
      }
      assert lines[..|lines|] == lines;
    }

    /** The handler of an operation ended: what the function that started it does then. */
    method HandlerEnd(k: nat, flushed: nat)
      requires k < |runs|
      modifies this
      ensures View() == ChannelServer.HandlerEnd(old(View()), wire, k, flushed)
    {
      ghost var before := View();
      runs := runs[k := runs[k].(timer := false)];
      EndAsks(k);
      var r := runs[k];
      if outputPaused { paused := paused - (set n | n in r.pausables :: (k, n)); }
      runs := runs[k := r.(pausables := {})];
      ghost var closed := Close(before, k);
      assert View() == closed;
      for i := 0 to flushed
        invariant View() == Flush(closed, wire, k, i)
      {
        Send(Text(k));
      }
      if k < |runs| {
        r := runs[k];
        running := running - {r.id};
        runs := runs[k := r.(ended := true)];
        assert View() == Finish(Flush(closed, wire, k, flushed), k);
        Send(Result(k, r.id, r.cancelled, r.timedOut));
      }
    }
  }

  lemma AbortOne(settled: map<nat, seq<Settlement>>, asks: set<nat>, open: set<nat>, n: nat)
    requires n in open && open <= asks
    ensures var now := AbortAll(settled, asks - open);
            AbortAll(settled, asks - (open - {n})) == if n in now then now[n := now[n] + [Aborted]] else now
  {
    assert asks - (open - {n}) == (asks - open) + {n};
  }

  function RegisteredBelow(s: Server, end: nat): set<(nat, nat)>
    requires end <= |s.runs|
  {
    set k, n | 0 <= k < end && IsRunning(s, k) && n in s.runs[k].pausables :: (k, n)
  }

  /** `[...new Set(values)].filter((value) => !masked.includes(value))`. */
  method NewValues(entries: seq<Secret>, masked: seq<string>) returns (added: seq<string>)
    ensures added == Added(entries, masked)
  {
    added := [];
    assert entries[..0] == [];
    for i := 0 to |entries|
      invariant added == Added(entries[..i], masked)
    {
      assert entries[..i + 1][..i] == entries[..i];
      var value := entries[i].value;
      if value !in masked && value !in added { added := added + [value]; }
    }
    assert entries[..|entries|] == entries;
  }
}
