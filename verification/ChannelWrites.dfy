/** What the writes do to the script (src/helperChannel/server.ts): the output that the operations read is paused from a write that
    finds the connection slow until the waiting answers are written, and a write that fails ends the script. */
module ChannelWrites {
  import opened ChannelServer
  import opened ChannelSafety

  /** One of the writes from `start` on, before `end`, met `w`. */
  predicate Met(wire: nat -> Wire, start: nat, end: nat, w: Wire) { exists n :: start <= n < end && wire(n) == w }

  /** From `s` to `t` the output is paused and the script is ended by the writes between them, and by nothing else. */
  ghost predicate MovedByWrites(s: Server, wire: nat -> Wire, t: Server) {
    && |s.log| <= |t.log|
    && (t.outputPaused <==> s.outputPaused || Met(wire, |s.log|, |t.log|, Written(true)))
    && (t.stopping <==> s.stopping || Met(wire, |s.log|, |t.log|, Gone))
  }

  lemma MovedOn(s: Server, wire: nat -> Wire, t: Server, u: Server)
    requires MovedByWrites(s, wire, t) && MovedByWrites(t, wire, u)
    ensures MovedByWrites(s, wire, u)
  {
  }

  lemma SendMoves(s: Server, wire: nat -> Wire, m: Sent)
    ensures MovedByWrites(s, wire, Send(s, wire, m))
  {
    hide CancelRun, Registered, IsRunning;
    assert wire(|s.log|) == wire(|s.log|);
  }

  lemma ActMoves(s: Server, wire: nat -> Wire, k: nat, act: Act)
    requires k < |s.runs|
    ensures MovedByWrites(s, wire, ActOf(s, wire, k, act))
  {
    hide Send, MovedByWrites;
    match act
    case Ask(isKind, fits) =>
      var r := s.runs[k];
      SendMoves(SetRun(s, k, Asking(r)), wire, Asked(k, r.nextAsk));
      SameMoves(s, wire, SetRun(s, k, Asking(r)));
      SameMoves(s, wire, SetRun(s, k, Numbered(r)));
      SameMoves(s, wire, s);
      MovedOn(s, wire, SetRun(s, k, Asking(r)), Send(SetRun(s, k, Asking(r)), wire, Asked(k, r.nextAsk)));
    case Write => SendMoves(s, wire, Text(k));
    case _ => SameMoves(s, wire, ActOf(s, wire, k, act));
  }

  lemma SameMoves(s: Server, wire: nat -> Wire, t: Server)
    requires t.log == s.log && t.outputPaused == s.outputPaused && t.stopping == s.stopping
    ensures MovedByWrites(s, wire, t)
  {
  }

  lemma {:induction false} ActsMove(s: Server, wire: nat -> Wire, k: nat, acts: seq<Act>)
    ensures MovedByWrites(s, wire, ActsOf(s, wire, k, acts))
  {
    hide MovedByWrites, ActOf;
    if acts == [] {
      SameMoves(s, wire, s);
    } else {
      var init := acts[..|acts| - 1];
      var before := ActsOf(s, wire, k, init);
      ActsMove(s, wire, k, init);
      if k < |before.runs| {
        ActMoves(before, wire, k, acts[|acts| - 1]);
        MovedOn(s, wire, before, ActsOf(s, wire, k, acts));
      }
    }
  }

  lemma LineMoves(s: Server, wire: nat -> Wire, m: Message)
    ensures MovedByWrites(s, wire, OnLine(s, wire, m))
  {
    hide MovedByWrites, Send, ActsOf, CancelRun, AnswerRun, NewRun;
    SameMoves(s, wire, s);
    match m
    case Bad(_, id) => SendMoves(s, wire, Refusal(id));
    case Greeting => SendMoves(s, wire, Hello);
    case Ping => SendMoves(s, wire, Pong);
    case Cancel(id) =>
      SendMoves(s, wire, CancelConfirmed(id));
      if id in s.running && s.running[id] < |s.runs| { SameMoves(s, wire, OnLine(s, wire, m)); }
    case Op(id, known, timed, secrets, first) =>
      SendMoves(s, wire, Refusal(id));
      var accepted := Accept(s, id, timed, secrets);
      SameMoves(s, wire, accepted);
      ActsMove(accepted, wire, |s.runs|, first);
      MovedOn(s, wire, accepted, ActsOf(accepted, wire, |s.runs|, first));
    case Answer(_, _, _) => SameMoves(s, wire, OnLine(s, wire, m));
  }

  lemma {:induction false} LinesMove(s: Server, wire: nat -> Wire, lines: seq<Message>)
    ensures MovedByWrites(s, wire, OnLines(s, wire, lines))
  {
    hide MovedByWrites, OnLine;
    if lines == [] {
      SameMoves(s, wire, s);
    } else {
      var before := OnLines(s, wire, lines[..|lines| - 1]);
      LinesMove(s, wire, lines[..|lines| - 1]);
      LineMoves(before, wire, lines[|lines| - 1]);
      MovedOn(s, wire, before, OnLines(s, wire, lines));
    }
  }

  lemma {:induction false} FlushMoves(s: Server, wire: nat -> Wire, k: nat, n: nat)
    ensures MovedByWrites(s, wire, Flush(s, wire, k, n))
  {
    hide MovedByWrites, Send;
    if n == 0 {
      SameMoves(s, wire, s);
    } else {
      var before := Flush(s, wire, k, n - 1);
      FlushMoves(s, wire, k, n - 1);
      SendMoves(before, wire, Text(k));
      MovedOn(s, wire, before, Flush(s, wire, k, n));
    }
  }

  lemma EndMoves(s: Server, wire: nat -> Wire, k: nat, flushed: nat)
    requires k < |s.runs|
    ensures MovedByWrites(s, wire, HandlerEnd(s, wire, k, flushed))
  {
    hide MovedByWrites, Send, Flush, EndAsks;
    var closed := Close(s, k);
    var t := Flush(closed, wire, k, flushed);
    SameMoves(s, wire, closed);
    FlushMoves(closed, wire, k, flushed);
    MovedOn(s, wire, closed, t);
    if k < |t.runs| {
      SameMoves(t, wire, Finish(t, k));
      SendMoves(Finish(t, k), wire, ResultOf(k, t.runs[k]));
      MovedOn(t, wire, Finish(t, k), HandlerEnd(s, wire, k, flushed));
      MovedOn(s, wire, t, HandlerEnd(s, wire, k, flushed));
    }
  }

  lemma NextMoves(s: Server, wire: nat -> Wire, ev: Event)
    requires !ev.Drained? && !ev.InputEnded? && !ev.Idle?
    ensures MovedByWrites(s, wire, Next(s, wire, ev))
  {
    hide MovedByWrites, OnLines, ActOf, HandlerEnd, CancelRun, IsRunning;
    SameMoves(s, wire, s);
    match ev
    case Input(lines) => LinesMove(s, wire, lines);
    case Timeout(k) => if k < |s.runs| { SameMoves(s, wire, SetRun(s, k, CancelRun(s.runs[k], true))); }
    case Acts(k, act) => if k < |s.runs| { ActMoves(s, wire, k, act); }
    case HandlerEnds(k, flushed) => if k < |s.runs| { EndMoves(s, wire, k, flushed); }
    case _ =>
  }

  /** Once the waiting answers are written nothing is paused anymore, and all the rest is as it was. */
  lemma DrainedResumes(wire: nat -> Wire, evs: seq<Event>)
    ensures RunAll(START, wire, evs + [Drained]) == RunAll(START, wire, evs).(outputPaused := false, paused := {})
  {
    AnyRunOk(wire, evs);
    assert (evs + [Drained])[..|evs|] == evs;
    var s := RunAll(START, wire, evs);
    assert s.paused - s.paused == {};
    hide RunAll, Registered, RunningOk, RunsOk, StoppingOk, ResultsOk, AskLogOk;
  }

  lemma EndsByItself(s: Server, wire: nat -> Wire, ev: Event)
    requires ServerOk(s) && (ev.InputEnded? || ev.Idle?)
    ensures var t := Next(s, wire, ev);
            t.log == s.log && t.outputPaused == s.outputPaused && t.stopping == (s.stopping || ev.InputEnded? || NothingRuns(s))
  {
    assert (forall id :: id !in s.running) ==> s.running == map[];
    if id :| id in s.running {
      assert IsRunning(s, s.running[id]);
    }
    if !NothingRuns(s) {
      var k: nat :| k < |s.runs| && !s.runs[k].ended;
      assert IsRunning(s, k);
    }
    hide CancelRun, RunsOk, PausedOk, StoppingOk, ResultsOk, AskLogOk;
  }

  predicate NothingRuns(s: Server) { forall k :: 0 <= k < |s.runs| ==> s.runs[k].ended }

  /** The event `i` ends the script: the input ends (or is silent), or nothing runs when it was idle for long. */
  predicate EndsAt(wire: nat -> Wire, evs: seq<Event>, i: nat) {
    i < |evs| && (evs[i].InputEnded? || (evs[i].Idle? && NothingRuns(RunAll(START, wire, evs[..i]))))
  }

  lemma EndsMore(wire: nat -> Wire, before: seq<Event>, last: Event)
    ensures (exists i: nat :: EndsAt(wire, before + [last], i)) <==>
              (exists i: nat :: EndsAt(wire, before, i)) || last.InputEnded? || (last.Idle? && NothingRuns(RunAll(START, wire, before)))
  {
    hide RunAll, NothingRuns;
    var evs := before + [last];
    assert evs[..|before|] == before;
    assert forall i :: 0 <= i < |before| ==> evs[..i] == before[..i];
    if exists i: nat :: EndsAt(wire, before, i) {
      var i: nat :| EndsAt(wire, before, i);
      assert EndsAt(wire, evs, i);
    }
    if exists i: nat :: EndsAt(wire, evs, i) {
      var i: nat :| EndsAt(wire, evs, i);
      assert i < |before| ==> EndsAt(wire, before, i);
    }
    assert EndsAt(wire, evs, |before|) <==> last.InputEnded? || (last.Idle? && NothingRuns(RunAll(START, wire, before)));
  }

  /** The script exits if and only if a write failed, its input ended, or it was idle with nothing to run. */
  lemma {:induction false} ExitsExactly(wire: nat -> Wire, evs: seq<Event>)
    ensures var s := RunAll(START, wire, evs);
            s.stopping <==> Met(wire, 0, |s.log|, Gone) || exists i: nat :: EndsAt(wire, evs, i)
  {
    if evs == [] {
      NoWrites(wire, 0);
    } else {
      var before, last := evs[..|evs| - 1], evs[|evs| - 1];
      var s, t := RunAll(START, wire, before), RunAll(START, wire, evs);
      ExitsExactly(wire, before);
      AnyRunOk(wire, before);
      EndsMore(wire, before, last);
      assert evs == before + [last];
      hide EndsAt, Met, Next, ServerOk;
      if last.InputEnded? || last.Idle? {
        EndsByItself(s, wire, last);
      } else if last.Drained? {
        assert evs == before + [Drained];
        DrainedResumes(wire, before);
      } else {
        NextMoves(s, wire, last);
        MetJoins(wire, 0, |s.log|, |t.log|, Gone);
      }
    }
  }

  /** How many writes there were before the last drain. */
  function WritesAtDrain(wire: nat -> Wire, evs: seq<Event>): nat {
    if evs == [] then 0
    else
      var before := evs[..|evs| - 1];
      if evs[|evs| - 1].Drained? then |RunAll(START, wire, before).log| else WritesAtDrain(wire, before)
  }

  lemma {:induction false} OutputPaused(wire: nat -> Wire, evs: seq<Event>)
    ensures var s := RunAll(START, wire, evs);
            WritesAtDrain(wire, evs) <= |s.log| && (s.outputPaused <==> Met(wire, WritesAtDrain(wire, evs), |s.log|, Written(true)))
  {
    hide Next, Met;
    if evs == [] {
      NoWrites(wire, 0);
    } else {
      var before, last := evs[..|evs| - 1], evs[|evs| - 1];
      var s := RunAll(START, wire, before);
      OutputPaused(wire, before);
      if last.Drained? {
        assert evs == before + [Drained];
        DrainedResumes(wire, before);
        NoWrites(wire, |s.log|);
      } else if last.InputEnded? || last.Idle? {
        AnyRunOk(wire, before);
        EndsByItself(s, wire, last);
      } else {
        NextMoves(s, wire, last);
        MetJoins(wire, WritesAtDrain(wire, before), |s.log|, |RunAll(START, wire, evs).log|, Written(true));
      }
    }
  }

  lemma NoWrites(wire: nat -> Wire, n: nat)
    ensures forall w :: !Met(wire, n, n, w)
  {
  }

  lemma MetJoins(wire: nat -> Wire, a: nat, b: nat, c: nat, w: Wire)
    requires a <= b <= c
    ensures Met(wire, a, c, w) <==> Met(wire, a, b, w) || Met(wire, b, c, w)
  {
    if Met(wire, a, c, w) {
      var n :| a <= n < c && wire(n) == w;
      assert n < b ==> Met(wire, a, b, w);
    }
  }

  /** An output of an operation is paused if and only if the operation runs, it is one that it still reads, and a write since the last
      drain found the connection slow. */
  lemma PausedSinceTheDrain(wire: nat -> Wire, evs: seq<Event>, k: nat, n: nat)
    ensures var s := RunAll(START, wire, evs);
            && (s.outputPaused <==> Met(wire, WritesAtDrain(wire, evs), |s.log|, Written(true)))
            && ((k, n) in s.paused <==>
                  && Met(wire, WritesAtDrain(wire, evs), |s.log|, Written(true))
                  && k < |s.runs| && !s.runs[k].ended && n in s.runs[k].pausables)
  {
    OutputPaused(wire, evs);
    PausedExactly(wire, evs, k, n);
    hide RunAll, Met;
  }
}
