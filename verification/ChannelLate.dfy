/** Which operations the helper channel's script accepts while it exits, and that these, and only these, may be left without a
    result (src/helperChannel/server.ts). */
module ChannelLate {
  import opened ChannelServer
  import opened ChannelSafety
  import opened ChannelReactions

  // ---- The exit begins with a write that fails ----

  /** One of the writes from the a-th to the b-th met a reader that is gone. */
  ghost predicate MetGone(wire: nat -> Wire, a: nat, b: nat) { exists n :: a <= n < b && wire(n).Gone? }

  /** What is done between two moments only ends the script by a failed write. */
  ghost predicate EndsByWire(s: Server, wire: nat -> Wire, t: Server) {
    |s.log| <= |t.log| && (t.stopping <==> s.stopping || MetGone(wire, |s.log|, |t.log|))
  }

  lemma EndsOn(s: Server, wire: nat -> Wire, t: Server, u: Server)
    requires EndsByWire(s, wire, t) && EndsByWire(t, wire, u)
    ensures EndsByWire(s, wire, u)
  {
  }

  lemma SendEnds(s: Server, wire: nat -> Wire, m: Sent)
    ensures EndsByWire(s, wire, Send(s, wire, m))
  {
    SentIs(s, wire, m);
    hide Send;
  }

  lemma ActEnds(s: Server, wire: nat -> Wire, k: nat, act: Act)
    requires k < |s.runs|
    ensures EndsByWire(s, wire, ActOf(s, wire, k, act))
  {
    match act
    case Ask(isKind, fits) =>
      SendEnds(SetRun(s, k, Asking(s.runs[k])), wire, Asked(k, s.runs[k].nextAsk));
      hide Send;
    case Write => SendEnds(s, wire, Text(k));
    case Forget(_) =>
    case Watch(_) =>
    case Unwatch(_) =>
  }

  lemma {:induction false} ActsEnd(s: Server, wire: nat -> Wire, k: nat, acts: seq<Act>)
    ensures EndsByWire(s, wire, ActsOf(s, wire, k, acts))
  {
    hide ActOf;
    if acts != [] {
      var before := ActsOf(s, wire, k, acts[..|acts| - 1]);
      ActsEnd(s, wire, k, acts[..|acts| - 1]);
      if k < |before.runs| {
        ActEnds(before, wire, k, acts[|acts| - 1]);
        EndsOn(s, wire, before, ActsOf(s, wire, k, acts));
      }
    }
  }

  lemma LineEnds(s: Server, wire: nat -> Wire, m: Message)
    ensures EndsByWire(s, wire, OnLine(s, wire, m))
  {
    hide Send, ActsOf;
    match m
    case Bad(_, id) => SendEnds(s, wire, Refusal(id));
    case Greeting => SendEnds(s, wire, Hello);
    case Ping => SendEnds(s, wire, Pong);
    case Cancel(id) => SendEnds(s, wire, CancelConfirmed(id));
    case Op(id, known, timed, secrets, first) =>
      SendEnds(s, wire, Refusal(id));
      ActsEnd(Accept(s, id, timed, secrets), wire, |s.runs|, first);
    case Answer(_, _, _) =>
  }

  lemma {:induction false} LinesEnd(s: Server, wire: nat -> Wire, lines: seq<Message>)
    ensures EndsByWire(s, wire, OnLines(s, wire, lines))
  {
    hide OnLine;
    if lines != [] {
      var before := OnLines(s, wire, lines[..|lines| - 1]);
      LinesEnd(s, wire, lines[..|lines| - 1]);
      LineEnds(before, wire, lines[|lines| - 1]);
      EndsOn(s, wire, before, OnLines(s, wire, lines));
    }
  }

  // ---- What lines do to the operations ----

  /** A line ends no operation; it may start one, which is late exactly when the script exits. */
  ghost predicate StartsAtMost(s: Server, t: Server) {
    && |s.runs| <= |t.runs|
    && (forall k: nat :: k < |s.runs| ==> t.runs[k].ended == s.runs[k].ended && t.runs[k].late == s.runs[k].late)
    && (forall k: nat :: |s.runs| <= k < |t.runs| ==> !t.runs[k].ended)
  }

  lemma SendStarts(s: Server, wire: nat -> Wire, m: Sent)
    requires ServerOk(s) && !m.Result? && !m.Asked?
    ensures StartsAtMost(s, Send(s, wire, m)) && |Send(s, wire, m).runs| == |s.runs|
  {
    SendOk(s, wire, m);
    KeepsLate(s, Send(s, wire, m));
    hide ServerOk, Send, Keeps;
  }

  lemma KeepsLate(s: Server, t: Server)
    requires Keeps(s, t)
    ensures |s.runs| <= |t.runs| && forall k: nat :: k < |s.runs| ==> t.runs[k].late == s.runs[k].late
  {
    forall k: nat | k < |s.runs|
      ensures t.runs[k].late == s.runs[k].late
    {
      assert RunKeeps(s.runs[k], t.runs[k]);
    }
  }

  lemma AskStarts(s: Server, wire: nat -> Wire, k: nat, isKind: bool, fits: bool)
    requires ServerOk(s) && k < |s.runs|
    ensures StartsAtMost(s, AskOf(s, wire, k, isKind, fits)) && |AskOf(s, wire, k, isKind, fits).runs| == |s.runs|
  {
    var r := s.runs[k];
    SetRunStarts(s, k, Numbered(r));
    SetRunStarts(s, k, Asking(r));
    hide ServerOk, Send, Keeps, SetRun, Asking, Numbered, StartsAtMost, IsAborted;
    StartsNothing(s);
    if !r.asksClosed && |r.asks| < MAX_OPEN_ASKS {
      AskedOk(s, k);
      SetRunIs(s, k, Asking(r));
      AskSentStarts(s, SetRun(s, k, Asking(r)), wire, k, r.nextAsk);
    }
  }

  lemma StartsNothing(s: Server)
    ensures StartsAtMost(s, s)
  {
  }

  lemma AskSentStarts(s: Server, u: Server, wire: nat -> Wire, k: nat, n: nat)
    requires ServerOk(u) && StartsAtMost(s, u) && |u.runs| == |s.runs| && k < |u.runs|
    requires n in u.runs[k].settled && !u.runs[k].asksClosed && n !in AsksSent(u.log, k)
    ensures StartsAtMost(s, Send(u, wire, Asked(k, n))) && |Send(u, wire, Asked(k, n)).runs| == |s.runs|
  {
    hide ServerOk, Send, Keeps, AsksSent;
    SendOk(u, wire, Asked(k, n));
    KeepsLate(u, Send(u, wire, Asked(k, n)));
  }

  lemma SetRunStarts(s: Server, k: nat, r: Run)
    requires k < |s.runs| && r.ended == s.runs[k].ended && r.late == s.runs[k].late
    ensures StartsAtMost(s, SetRun(s, k, r)) && |SetRun(s, k, r).runs| == |s.runs|
  {
  }

  lemma ActStarts(s: Server, wire: nat -> Wire, k: nat, act: Act)
    requires ServerOk(s) && k < |s.runs|
    ensures StartsAtMost(s, ActOf(s, wire, k, act)) && |ActOf(s, wire, k, act).runs| == |s.runs|
  {
    match act
    case Ask(isKind, fits) => hide *; AskStarts(s, wire, k, isKind, fits); ActIsAsk(s, wire, k, isKind, fits);
    case Write => hide ServerOk, Send; SendStarts(s, wire, Text(k));
    case Forget(name) => hide ServerOk; SetRunStarts(s, k, s.runs[k].(secrets := s.runs[k].secrets - {name}));
    case Watch(n) => hide ServerOk; SetRunStarts(s, k, s.runs[k].(pausables := s.runs[k].pausables + {n}));
    case Unwatch(n) => hide ServerOk; SetRunStarts(s, k, s.runs[k].(pausables := s.runs[k].pausables - {n}));
  }

  lemma ActIsAsk(s: Server, wire: nat -> Wire, k: nat, isKind: bool, fits: bool)
    requires k < |s.runs|
    ensures ActOf(s, wire, k, Ask(isKind, fits)) == AskOf(s, wire, k, isKind, fits)
  {
    hide AskOf;
  }

  lemma {:induction false} ActsStart(s: Server, wire: nat -> Wire, k: nat, acts: seq<Act>)
    requires ServerOk(s)
    ensures StartsAtMost(s, ActsOf(s, wire, k, acts)) && |ActsOf(s, wire, k, acts).runs| == |s.runs|
  {
    hide ServerOk, ActOf;
    if acts != [] {
      var before := ActsOf(s, wire, k, acts[..|acts| - 1]);
      ActsStart(s, wire, k, acts[..|acts| - 1]);
      ActsOk(s, wire, k, acts[..|acts| - 1]);
      if k < |before.runs| { ActStarts(before, wire, k, acts[|acts| - 1]); }
    }
  }

  /** The line asks for an operation that starts. */
  predicate Starts(s: Server, m: Message) { m.Op? && m.known && m.id !in s.running }

  lemma LineStarts(s: Server, wire: nat -> Wire, m: Message)
    requires ServerOk(s)
    ensures var t := OnLine(s, wire, m);
            && StartsAtMost(s, t) && |t.runs| == |s.runs| + (if Starts(s, m) then 1 else 0)
            && (Starts(s, m) ==> t.runs[|s.runs|].late == s.stopping)
  {
    match m
    case Bad(_, id) => hide ServerOk, Send; SendStarts(s, wire, Refusal(id));
    case Greeting => hide ServerOk, Send; SendStarts(s, wire, Hello);
    case Ping => hide ServerOk, Send; SendStarts(s, wire, Pong);
    case Cancel(id) =>
      hide ServerOk, Send;
      SendStarts(s, wire, CancelConfirmed(id));
      if id in s.running && s.running[id] < |s.runs| { SetRunStarts(s, s.running[id], CancelRun(s.runs[s.running[id]], false)); }
    case Op(id, known, timed, secrets, first) =>
      hide ServerOk, Send, ActsOf;
      SendStarts(s, wire, Refusal(id));
      if Starts(s, m) {
        AcceptOk(s, id, timed, secrets);
        AcceptStarts(s, id, timed, secrets);
        ActsStart(Accept(s, id, timed, secrets), wire, |s.runs|, first);
      }
    case Answer(id, ask, reply) =>
      hide ServerOk;
      if id in s.running && s.running[id] < |s.runs| && ask in s.runs[s.running[id]].asks && ask in s.runs[s.running[id]].settled {
        SetRunStarts(s, s.running[id], AnswerRun(s.runs[s.running[id]], ask, reply));
      }
  }

  lemma AcceptStarts(s: Server, id: int, timed: bool, secrets: Secrets)
    ensures var t := Accept(s, id, timed, secrets);
            StartsAtMost(s, t) && |t.runs| == |s.runs| + 1 && t.runs[|s.runs|].late == s.stopping && !t.runs[|s.runs|].ended
  {
  }

  /** The operation `k` is started by the line `j` behind a failed write. */
  ghost predicate LineIsLate(s: Server, wire: nat -> Wire, lines: seq<Message>, j: nat, k: nat) {
    && j < |lines|
    && var m := OnLines(s, wire, lines[..j]);
       |s.log| <= |m.log| && MetGone(wire, |s.log|, |m.log|) && Starts(m, lines[j]) && k == |m.runs|
  }

  ghost predicate AnyLineIsLate(s: Server, wire: nat -> Wire, lines: seq<Message>, k: nat) {
    exists j: nat :: LineIsLate(s, wire, lines, j, k)
  }

  /** The operation `k`, when the lines start it, is late exactly when a line says so; no line speaks of another one. */
  ghost predicate LateAt(s: Server, wire: nat -> Wire, lines: seq<Message>, t: Server, k: nat) {
    AnyLineIsLate(s, wire, lines, k) <==> |s.runs| <= k < |t.runs| && t.runs[k].late
  }

  ghost predicate LateIn(s: Server, wire: nat -> Wire, lines: seq<Message>, t: Server) { forall k: nat :: LateAt(s, wire, lines, t, k) }

  lemma {:induction false} LinesStart(s: Server, wire: nat -> Wire, lines: seq<Message>)
    requires ServerOk(s) && !s.stopping
    ensures StartsAtMost(s, OnLines(s, wire, lines)) && LateIn(s, wire, lines, OnLines(s, wire, lines))
  {
    if lines != [] {
      var init, last := lines[..|lines| - 1], lines[|lines| - 1];
      var before, t := OnLines(s, wire, init), OnLines(s, wire, lines);
      assert t == OnLine(before, wire, last);
      hide ServerOk, OnLine, OnLines, Starts, LateIn, LineIsLate;
      LinesStart(s, wire, init);
      OnLinesOk(s, wire, init);
      LinesEnd(s, wire, init);
      LineStarts(before, wire, last);
      LateStep(s, wire, lines, before, t);
    }
  }

  lemma LateStep(s: Server, wire: nat -> Wire, lines: seq<Message>, before: Server, t: Server)
    requires lines != [] && before == OnLines(s, wire, lines[..|lines| - 1]) && LateIn(s, wire, lines[..|lines| - 1], before)
    requires before.stopping <==> |s.log| <= |before.log| && MetGone(wire, |s.log|, |before.log|)
    requires |s.runs| <= |before.runs| && StartsAtMost(before, t)
    requires var starts := Starts(before, lines[|lines| - 1]);
             |t.runs| == |before.runs| + (if starts then 1 else 0) && (starts ==> t.runs[|before.runs|].late == before.stopping)
    ensures LateIn(s, wire, lines, t)
  {
    hide LineIsLate, AnyLineIsLate, MetGone, Starts, OnLines;
    forall k: nat
      ensures LateAt(s, wire, lines, t, k)
    {
      assert LateAt(s, wire, lines[..|lines| - 1], before, k);
      AnyLineStep(s, wire, lines, before, k);
    }
  }

  lemma AnyLineStep(s: Server, wire: nat -> Wire, lines: seq<Message>, before: Server, k: nat)
    requires lines != [] && before == OnLines(s, wire, lines[..|lines| - 1])
    requires before.stopping <==> |s.log| <= |before.log| && MetGone(wire, |s.log|, |before.log|)
    ensures AnyLineIsLate(s, wire, lines, k) <==>
            AnyLineIsLate(s, wire, lines[..|lines| - 1], k) || (before.stopping && Starts(before, lines[|lines| - 1]) && k == |before.runs|)
  {
    var n := |lines| - 1;
    forall j: nat
      ensures j < n ==> LineIsLate(s, wire, lines, j, k) == LineIsLate(s, wire, lines[..n], j, k)
      ensures j >= n ==> !LineIsLate(s, wire, lines[..n], j, k)
      ensures j > n ==> !LineIsLate(s, wire, lines, j, k)
    {
      SameBefore(s, wire, lines, j, k);
    }
    SameBefore(s, wire, lines, n, k);
    hide LineIsLate, MetGone, Starts, OnLines;
    if AnyLineIsLate(s, wire, lines, k) {
      var j: nat :| LineIsLate(s, wire, lines, j, k);
      assert j < n ==> LineIsLate(s, wire, lines[..n], j, k);
    }
    if AnyLineIsLate(s, wire, lines[..n], k) {
      var j: nat :| LineIsLate(s, wire, lines[..n], j, k);
      assert LineIsLate(s, wire, lines, j, k);
    }
  }

  lemma SameBefore(s: Server, wire: nat -> Wire, lines: seq<Message>, j: nat, k: nat)
    requires lines != []
    ensures j < |lines| - 1 ==> LineIsLate(s, wire, lines, j, k) == LineIsLate(s, wire, lines[..|lines| - 1], j, k)
    ensures j >= |lines| - 1 ==> !LineIsLate(s, wire, lines[..|lines| - 1], j, k)
    ensures j >= |lines| ==> !LineIsLate(s, wire, lines, j, k)
    ensures var m := OnLines(s, wire, lines[..|lines| - 1]);
            LineIsLate(s, wire, lines, |lines| - 1, k) <==>
              |s.log| <= |m.log| && MetGone(wire, |s.log|, |m.log|) && Starts(m, lines[|lines| - 1]) && k == |m.runs|
  {
    if j < |lines| - 1 { assert lines[..|lines| - 1][..j] == lines[..j]; }
    hide OnLines, Starts, MetGone;
  }

  // ---- Over every sequence of events ----

  /** The text of the event `i` holds, at the line `j`, the request that starts the operation `k`, and one of the writes for the
      lines before it in the same text met a reader that is gone. */
  ghost predicate AcceptsLate(wire: nat -> Wire, evs: seq<Event>, i: nat, j: nat, k: nat) {
    && i < |evs| && evs[i].Input?
    && var s := RunAll(START, wire, evs[..i]);
       !s.stopping && LineIsLate(s, wire, evs[i].lines, j, k)
  }

  /** Other events start no operation. */
  lemma OthersStart(s: Server, wire: nat -> Wire, ev: Event)
    requires ServerOk(s) && (ev.Input? ==> s.stopping)
    ensures |Next(s, wire, ev).runs| == |s.runs|
  {
    match ev
    case Input(_) =>
    case InputEnded => ShutdownOk(s); hide ServerOk, Shutdown, Keeps;
    case Idle => ShutdownOk(s); hide ServerOk, Shutdown, Keeps;
    case Timeout(_) =>
    case Acts(k, act) => if k < |s.runs| { ActStarts(s, wire, k, act); } hide ServerOk, ActOf;
    case HandlerEnds(k, flushed) =>
      if k < |s.runs| && !s.runs[k].ended { EndsOne(s, wire, k, flushed); }
      hide ServerOk, HandlerEnd;
    case Drained =>
  }

  /** The end of a handler ends its operation and no other. */
  lemma EndsOne(s: Server, wire: nat -> Wire, k: nat, flushed: nat)
    requires ServerOk(s) && k < |s.runs| && !s.runs[k].ended
    ensures var t := HandlerEnd(s, wire, k, flushed);
            |t.runs| == |s.runs| && forall i: nat :: i < |s.runs| ==> t.runs[i].ended == (s.runs[i].ended || i == k)
  {
    var c := Close(s, k);
    CloseSame(s, k);
    hide ServerOk, Flush, AfterWrite, Close, Keeps;
    CloseOk(s, k);
    var u := Flush(c, wire, k, flushed);
    FlushOk(c, wire, k, flushed);
    FlushSame(c, wire, k, flushed);
    assert Closed(u, k);
    var v := Finish(u, k).(log := u.log + [ResultOf(k, u.runs[k])]);
    FinishSame(u, k, v);
    FinishOk(u, k);
    hide Finish, Closed;
    AfterWriteOk(v, wire(|u.log|));
    EndIs(s, wire, k, flushed, u, v);
  }

  lemma CloseSame(s: Server, k: nat)
    requires k < |s.runs|
    ensures |Close(s, k).runs| == |s.runs| && forall i: nat :: i < |s.runs| ==> Close(s, k).runs[i].ended == s.runs[i].ended
  {
  }

  lemma FinishSame(s: Server, k: nat, v: Server)
    requires k < |s.runs| && v.runs == Finish(s, k).runs
    ensures |v.runs| == |s.runs| && forall i: nat :: i < |s.runs| ==> v.runs[i].ended == (s.runs[i].ended || i == k)
  {
  }

  lemma EndIs(s: Server, wire: nat -> Wire, k: nat, flushed: nat, u: Server, v: Server)
    requires k < |s.runs| && u == Flush(Close(s, k), wire, k, flushed) && k < |u.runs|
    requires v == Finish(u, k).(log := u.log + [ResultOf(k, u.runs[k])])
    ensures HandlerEnd(s, wire, k, flushed) == AfterWrite(v, wire(|u.log|))
  {
    hide Flush, AfterWrite, Close;
  }

  lemma {:induction false} FlushSame(s: Server, wire: nat -> Wire, k: nat, n: nat)
    requires ServerOk(s) && Closed(s, k)
    ensures |Flush(s, wire, k, n).runs| == |s.runs|
    ensures forall i: nat :: i < |s.runs| ==> Flush(s, wire, k, n).runs[i].ended == s.runs[i].ended
  {
    hide ServerOk, Send, Keeps;
    if n > 0 {
      FlushSame(s, wire, k, n - 1);
      FlushOk(s, wire, k, n - 1);
      SendOk(Flush(s, wire, k, n - 1), wire, Text(k));
    }
  }

  /** Exactly the operations whose request stands behind a failed write in its text are accepted while the script exits. */
  lemma {:induction false} LateExactly(wire: nat -> Wire, evs: seq<Event>, k: nat)
    ensures var s := RunAll(START, wire, evs);
            && (k < |s.runs| ==> (s.runs[k].late <==> exists i: nat, j: nat :: AcceptsLate(wire, evs, i, j, k)))
            && (k >= |s.runs| ==> forall i: nat, j: nat :: !AcceptsLate(wire, evs, i, j, k))
  {
    if evs != [] {
      var init, last := evs[..|evs| - 1], evs[|evs| - 1];
      var before := RunAll(START, wire, init);
      assert RunAll(START, wire, evs) == Next(before, wire, last);
      hide ServerOk, Next, Keeps, EventIsLate, AcceptsLate, RunAll;
      LateExactly(wire, init, k);
      AnyRunOk(wire, init);
      LateInEvent(before, wire, last, k);
      LateAtTheEnd(wire, evs, k);
    }
  }

  /** A text is read, and a line of it is late. */
  ghost predicate EventIsLate(s: Server, wire: nat -> Wire, ev: Event, k: nat) {
    ev.Input? && !s.stopping && AnyLineIsLate(s, wire, ev.lines, k)
  }

  /** One event more: only a text that is read starts operations. */
  lemma LateInEvent(s: Server, wire: nat -> Wire, ev: Event, k: nat)
    requires ServerOk(s)
    ensures var t := Next(s, wire, ev);
            && |s.runs| <= |t.runs| && (k < |s.runs| ==> t.runs[k].late == s.runs[k].late)
            && (EventIsLate(s, wire, ev, k) ==> |s.runs| <= k < |t.runs|)
            && (|s.runs| <= k < |t.runs| ==> (t.runs[k].late <==> EventIsLate(s, wire, ev, k)))
  {
    NextOk(s, wire, ev);
    KeepsLate(s, Next(s, wire, ev));
    hide ServerOk, Keeps, AnyLineIsLate;
    if ev.Input? && !s.stopping {
      LinesStart(s, wire, ev.lines);
      assert LateAt(s, wire, ev.lines, OnLines(s, wire, ev.lines), k);
      assert Next(s, wire, ev) == OnLines(s, wire, ev.lines);
      hide OnLines, LateIn;
    } else {
      OthersStart(s, wire, ev);
      hide Next;
    }
  }

  lemma LateAtTheEnd(wire: nat -> Wire, evs: seq<Event>, k: nat)
    requires evs != []
    ensures var init, last := evs[..|evs| - 1], evs[|evs| - 1];
            var before := RunAll(START, wire, init);
            && (forall i: nat, j: nat :: i < |init| ==> AcceptsLate(wire, evs, i, j, k) == AcceptsLate(wire, init, i, j, k))
            && (forall i: nat, j: nat :: i >= |init| ==> !AcceptsLate(wire, init, i, j, k))
            && (forall i: nat, j: nat :: i > |init| ==> !AcceptsLate(wire, evs, i, j, k))
            && ((exists j: nat :: AcceptsLate(wire, evs, |init|, j, k)) <==> EventIsLate(before, wire, last, k))
  {
    var init := evs[..|evs| - 1];
    forall i: nat, j: nat | i < |init|
      ensures AcceptsLate(wire, evs, i, j, k) == AcceptsLate(wire, init, i, j, k)
    {
      assert init[..i] == evs[..i];
    }
    hide LineIsLate;
    var last, before := evs[|init|], RunAll(START, wire, init);
    if EventIsLate(before, wire, last, k) {
      var j: nat :| LineIsLate(before, wire, last.lines, j, k);
      assert AcceptsLate(wire, evs, |init|, j, k);
    }
  }

  /** When no text holds a request behind a failed write, an exit without the deadline leaves no accepted operation without its
      one result. */
  lemma EveryOperationIsAnswered(wire: nat -> Wire, evs: seq<Event>, k: nat)
    requires forall i: nat, j: nat :: !AcceptsLate(wire, evs, i, j, k)
    requires MayExit(RunAll(START, wire, evs)) && k < |RunAll(START, wire, evs).runs|
    ensures var s := RunAll(START, wire, evs);
            s.runs[k].ended && ResultsOf(s.log, k) == [Result(k, s.runs[k].id, s.runs[k].cancelled, s.runs[k].timedOut)]
  {
    LateExactly(wire, evs, k);
    AnyRunOk(wire, evs);
    hide AcceptsLate, RunAll, ResultsOf;
  }

  // ---- The condition is exact ----

  function Unended(s: Server): set<nat> { set k | k in s.awaited && (k >= |s.runs| || !s.runs[k].ended) }

  /** When the script exits, the handlers of the awaited operations may end, and no other; then it may exit. */
  lemma {:induction false} AwaitedEnd(s: Server, wire: nat -> Wire) returns (more: seq<Event>)
    requires ServerOk(s) && s.stopping
    ensures var t := RunAll(s, wire, more);
            && ServerOk(t) && MayExit(t) && |t.runs| == |s.runs|
            && forall k: nat :: k < |s.runs| && k !in s.awaited ==> t.runs[k].ended == s.runs[k].ended
    decreases |Unended(s)|
  {
    hide ServerOk, Next, Keeps;
    more := [];
    AwaitedAreThere(s);
    if Unended(s) == {} {
      assert forall k :: k in s.awaited ==> k !in Unended(s);
    } else {
      var a :| a in Unended(s);
      var ev := HandlerEnds(a, 0);
      var next := Next(s, wire, ev);
      OneLess(s, wire, a);
      hide Unended, MayExit;
      var rest := AwaitedEnd(next, wire);
      more := [ev] + rest;
      RunFirst(s, wire, ev, rest);
    }
  }

  lemma AwaitedAreThere(s: Server)
    requires ServerOk(s)
    ensures forall k :: k in s.awaited ==> k < |s.runs|
  {
    hide RunningOk, RunsOk, PausedOk, ResultsOk, AskLogOk;
  }

  lemma OneLess(s: Server, wire: nat -> Wire, a: nat)
    requires ServerOk(s) && s.stopping && a in Unended(s) && a < |s.runs|
    ensures var next := Next(s, wire, HandlerEnds(a, 0));
            && ServerOk(next) && next.stopping && next.awaited == s.awaited && |Unended(next)| < |Unended(s)| && |next.runs| == |s.runs|
            && forall k: nat :: k < |s.runs| && k != a ==> next.runs[k].ended == s.runs[k].ended
  {
    var next := HandlerEnd(s, wire, a, 0);
    HandlerEndOk(s, wire, a, 0);
    EndsOne(s, wire, a, 0);
    NextIsEnd(s, wire, a);
    assert next.stopping && next.awaited == s.awaited;
    hide ServerOk, HandlerEnd, Next, Keeps;
    assert a !in Unended(next) && a in Unended(s) && Unended(next) <= Unended(s);
    SmallerSet(Unended(next), Unended(s));
  }

  lemma NextIsEnd(s: Server, wire: nat -> Wire, a: nat)
    requires a < |s.runs| && !s.runs[a].ended
    ensures Next(s, wire, HandlerEnds(a, 0)) == HandlerEnd(s, wire, a, 0)
  {
    hide HandlerEnd;
  }

  lemma SmallerSet(a: set<nat>, b: set<nat>)
    requires a < b
    ensures |a| < |b|
  {
    assert b == a + (b - a);
  }

  lemma {:induction false} RunFirst(s: Server, wire: nat -> Wire, ev: Event, rest: seq<Event>)
    ensures RunAll(s, wire, [ev] + rest) == RunAll(Next(s, wire, ev), wire, rest)
  {
    hide Next;
    if rest == [] {
      assert [ev] + rest == [ev] && [ev][..0] == [];
    } else {
      var all := [ev] + rest;
      assert all[..|all| - 1] == [ev] + rest[..|rest| - 1];
      RunFirst(s, wire, ev, rest[..|rest| - 1]);
    }
  }

  /** An operation that runs may be left without a result by an exit without the deadline if and only if its request stands
      behind a failed write in its text. */
  lemma LeftExactly(wire: nat -> Wire, evs: seq<Event>, k: nat)
    requires k < |RunAll(START, wire, evs).runs| && !RunAll(START, wire, evs).runs[k].ended
    ensures (exists more :: IsLeft(wire, evs + more, k)) <==> exists i: nat, j: nat :: AcceptsLate(wire, evs, i, j, k)
  {
    var s := RunAll(START, wire, evs);
    AnyRunOk(wire, evs);
    LateExactly(wire, evs, k);
    hide AcceptsLate, RunAll, ServerOk, IsLeft;
    if s.runs[k].late {
      LateStops(s, k);
      var more := AwaitedEnd(s, wire);
      RunMore(START, wire, evs, more);
      NoResultYet(RunAll(s, wire, more), k);
      assert IsLeft(wire, evs + more, k) by { LeftIs(wire, evs + more, k); }
    }
    forall more | IsLeft(wire, evs + more, k)
      ensures s.runs[k].late
    {
      RunMore(START, wire, evs, more);
      RunKeepsOk(s, wire, more);
      KeepsLate(s, RunAll(s, wire, more));
      LeftIs(wire, evs + more, k);
      LeftIsLate(wire, evs + more, k);
    }
  }

  /** The script may exit, and no result of the operation `k` was sent. */
  ghost predicate IsLeft(wire: nat -> Wire, evs: seq<Event>, k: nat) {
    var s := RunAll(START, wire, evs);
    MayExit(s) && k < |s.runs| && ResultsOf(s.log, k) == []
  }

  lemma LeftIs(wire: nat -> Wire, evs: seq<Event>, k: nat)
    ensures IsLeft(wire, evs, k) <==>
            MayExit(RunAll(START, wire, evs)) && k < |RunAll(START, wire, evs).runs| && ResultsOf(RunAll(START, wire, evs).log, k) == []
  {
    hide RunAll, ResultsOf;
  }

  lemma LeftIsLate(wire: nat -> Wire, evs: seq<Event>, k: nat)
    requires IsLeft(wire, evs, k)
    ensures k < |RunAll(START, wire, evs).runs| && RunAll(START, wire, evs).runs[k].late
  {
    ExitWaitsForResults(wire, evs, k);
    hide RunAll, ResultsOf;
  }

  lemma LateStops(s: Server, k: nat)
    requires ServerOk(s) && k < |s.runs| && s.runs[k].late
    ensures s.stopping && k !in s.awaited
  {
    hide RunningOk, RunsOk, PausedOk, ResultsOk, AskLogOk;
  }

  lemma NoResultYet(s: Server, k: nat)
    requires ServerOk(s) && k < |s.runs| && !s.runs[k].ended
    ensures ResultsOf(s.log, k) == []
  {
    hide ResultsOf;
  }
}
