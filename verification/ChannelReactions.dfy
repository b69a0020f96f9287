/** What one event of the helper channel's script does, exactly (src/helperChannel/server.ts). */
module ChannelReactions {
  import opened ChannelServer
  import opened ChannelSafety

  /** The first reason stands: a cancel marks a running operation as cancelled, a time limit as timed out, and neither changes
      one that has a reason already. */
  lemma FirstReasonStands(s: Server, wire: nat -> Wire, k: nat)
    requires ServerOk(s) && k < |s.runs| && !s.runs[k].ended
    ensures var t := OnLine(s, wire, Cancel(s.runs[k].id));
            && t.log == s.log && t.stopping == s.stopping && t.running == s.running && |t.runs| == |s.runs|
            && if IsAborted(s.runs[k]) then t == s
               else t.runs[k].cancelled && !t.runs[k].timedOut && forall j :: 0 <= j < |s.runs| && j != k ==> t.runs[j] == s.runs[j]
    ensures s.runs[k].timer ==>
              var t := Next(s, wire, Timeout(k));
              t.runs[k].timedOut && !t.runs[k].cancelled && t.log == s.log && t.running == s.running
  {
    assert IsRunning(s, k);
    assert RunOk(s.runs[k]);
    hide AsksOk, SecretsOk, ResultsOf, AsksSent, Registered;
  }

  /** The cancel of the extension, or the time limit. */
  predicate IsReason(s: Server, ev: Event, k: nat) {
    k < |s.runs| && if ev.Timeout? then ev.run == k && s.runs[k].timer else !s.stopping && ev == Input([Cancel(s.runs[k].id)])
  }

  /** The first reason decides the result: of an operation that runs without one, whatever follows its cancel or its time limit, the one
      result names exactly this. */
  lemma FirstReasonIsTheResult(wire: nat -> Wire, evs: seq<Event>, ev: Event, more: seq<Event>, k: nat)
    requires var s := RunAll(START, wire, evs); IsReason(s, ev, k) && !s.runs[k].ended && !IsAborted(s.runs[k])
    ensures var t := RunAll(START, wire, evs + [ev] + more);
            k < |t.runs| && (t.runs[k].ended ==> ResultsOf(t.log, k) == [Result(k, t.runs[k].id, !ev.Timeout?, ev.Timeout?)])
  {
    var s := RunAll(START, wire, evs);
    AnyRunOk(wire, evs);
    FirstReasonStands(s, wire, k);
    var after := RunAll(START, wire, evs + [ev]);
    assert (evs + [ev])[..|evs|] == evs;
    if ev.Input? { OneLine(s, wire, ev.lines[0]); }
    RunMore(START, wire, evs + [ev], more);
    AnyRunOk(wire, evs + [ev]);
    RunKeepsOk(after, wire, more);
    OneResultEach(wire, evs + [ev] + more, k);
    hide RunAll, ServerOk, ResultsOf, OnLine;
  }

  lemma OneLine(s: Server, wire: nat -> Wire, m: Message)
    ensures OnLines(s, wire, [m]) == OnLine(s, wire, m)
  {
    hide OnLine;
    assert [m][..0] == [];
  }

  lemma {:induction false} LinesGoOn(s: Server, wire: nat -> Wire, lines: seq<Message>, n: nat)
    requires ServerOk(s) && n <= |lines|
    ensures Keeps(OnLines(s, wire, lines[..n]), OnLines(s, wire, lines))
  {
    hide ServerOk, Keeps, OnLine;
    if n == |lines| {
      assert lines[..n] == lines;
      KeepsItself(OnLines(s, wire, lines));
    } else {
      var init := lines[..|lines| - 1];
      LinesGoOn(s, wire, init, n);
      assert init[..n] == lines[..n];
      OnLinesOk(s, wire, init);
      OnLineOk(OnLines(s, wire, init), wire, lines[|lines| - 1]);
      KeepsOn(OnLines(s, wire, lines[..n]), OnLines(s, wire, init), OnLines(s, wire, lines));
    }
  }

  /** The script just before the line `j` of a text. */
  function BeforeLine(wire: nat -> Wire, evs: seq<Event>, lines: seq<Message>, j: nat): Server
    requires j <= |lines|
  {
    OnLines(RunAll(START, wire, evs), wire, lines[..j])
  }

  /** The line `j` of a text that is taken. */
  lemma LineTaken(wire: nat -> Wire, evs: seq<Event>, lines: seq<Message>, j: nat)
    requires !RunAll(START, wire, evs).stopping && j < |lines|
    ensures var start, s := RunAll(START, wire, evs), BeforeLine(wire, evs, lines, j);
            && ServerOk(s) && OnLines(start, wire, lines[..j + 1]) == OnLine(s, wire, lines[j])
            && RunAll(START, wire, evs + [Input(lines)]) == OnLines(start, wire, lines)
  {
    hide OnLine, ServerOk, Keeps;
    AnyRunOk(wire, evs);
    OnLinesOk(RunAll(START, wire, evs), wire, lines[..j]);
    assert (evs + [Input(lines)])[..|evs|] == evs;
    assert lines[..j + 1][..j] == lines[..j];
  }

  /** Every request for an operation that is taken is answered: with a refusal at once, or, unless a write failed before it in its text,
      with exactly one result by the time the script exits without the deadline. */
  lemma EveryRequestIsAnswered(wire: nat -> Wire, evs: seq<Event>, lines: seq<Message>, j: nat, more: seq<Event>)
    requires !RunAll(START, wire, evs).stopping && j < |lines| && lines[j].Op?
    ensures var s, t := BeforeLine(wire, evs, lines, j), RunAll(START, wire, evs + [Input(lines)] + more);
            var m, k := lines[j], |s.runs|;
            && (m.id in s.running || !m.known ==> |s.log| < |t.log| && t.log[|s.log|] == Refusal(m.id))
            && (m.id !in s.running && m.known && !s.stopping && MayExit(t) ==>
                  k < |t.runs| && t.runs[k].id == m.id && t.runs[k].ended
                  && ResultsOf(t.log, k) == [Result(k, m.id, t.runs[k].cancelled, t.runs[k].timedOut)])
  {
    hide RunAll, OnLines, OnLine, ServerOk, ResultsOf, AsksSent, RunKeeps, IsRunning, MayExit, BeforeLine;
    var start, s := RunAll(START, wire, evs), BeforeLine(wire, evs, lines, j);
    var after, t := RunAll(START, wire, evs + [Input(lines)]), RunAll(START, wire, evs + [Input(lines)] + more);
    var next := OnLines(start, wire, lines[..j + 1]);
    AnyRunOk(wire, evs);
    LineTaken(wire, evs, lines, j);
    AcceptedOrRefused(s, wire, lines[j]);
    LinesGoOn(start, wire, lines, j + 1);
    RunMore(START, wire, evs + [Input(lines)], more);
    AnyRunOk(wire, evs + [Input(lines)]);
    RunKeepsOk(after, wire, more);
    KeepsOn(next, after, t);
    if |s.runs| < |next.runs| { KeepsRun(next, t, |s.runs|); }
    if MayExit(t) && |s.runs| < |t.runs| {
      ExitWaitsForResults(wire, evs + [Input(lines)] + more, |s.runs|);
      OneResultEach(wire, evs + [Input(lines)] + more, |s.runs|);
    }
  }

  /** A request is opened if and only if its operation runs without an end or a cancel, its kind exists, fewer than the bound
      are open, and it fits; it then has the next number, and it is sent unless the script exits. */
  lemma AskOpensExactly(s: Server, wire: nat -> Wire, k: nat, isKind: bool, fits: bool)
    requires ServerOk(s) && k < |s.runs|
    ensures s.runs[k].nextAsk !in s.runs[k].settled
    ensures var r, t := s.runs[k], AskOf(s, wire, k, isKind, fits);
            var opens := !r.ended && !IsAborted(r) && !r.asksClosed && isKind && |r.asks| < 16 && fits;
            && k < |t.runs|
            && t.runs[k].settled.Keys == (if opens then r.settled.Keys + {r.nextAsk} else r.settled.Keys)
            && t.log == if opens && !s.stopping then s.log + [Asked(k, r.nextAsk)] else s.log
  {
    AsksAndRuns(s, k);
    hide ServerOk, Send, SetRun, AskOf;
    if Opens(s, k, isKind, fits) { AskOpens(s, wire, k); } else { AskOpensNothing(s, wire, k, isKind, fits); }
  }

  predicate Opens(s: Server, k: nat, isKind: bool, fits: bool)
    requires k < |s.runs|
  {
    var r := s.runs[k];
    !r.ended && !IsAborted(r) && !r.asksClosed && isKind && |r.asks| < MAX_OPEN_ASKS && fits
  }

  lemma AskOpens(s: Server, wire: nat -> Wire, k: nat)
    requires ServerOk(s) && k < |s.runs| && Opens(s, k, true, true)
    ensures var r, t := s.runs[k], AskOf(s, wire, k, true, true);
            && k < |t.runs| && t.runs[k].settled.Keys == r.settled.Keys + {r.nextAsk}
            && t.log == if s.stopping then s.log else s.log + [Asked(k, r.nextAsk)]
  {
    AsksAndRuns(s, k);
    var r := s.runs[k];
    assert Asking(r).settled.Keys == r.settled.Keys + {r.nextAsk};
    hide ServerOk, Send, SetRun, Numbered, Asking, IsAborted;
    assert AskOf(s, wire, k, true, true) == Send(SetRun(s, k, Asking(r)), wire, Asked(k, r.nextAsk));
    hide AskOf;
    SetRunIs(s, k, Asking(r));
    SentIs(SetRun(s, k, Asking(r)), wire, Asked(k, r.nextAsk));
  }

  lemma AskOpensNothing(s: Server, wire: nat -> Wire, k: nat, isKind: bool, fits: bool)
    requires ServerOk(s) && k < |s.runs| && !Opens(s, k, isKind, fits)
    ensures var r, t := s.runs[k], AskOf(s, wire, k, isKind, fits);
            k < |t.runs| && t.runs[k].settled.Keys == r.settled.Keys && t.log == s.log
  {
    AsksAndRuns(s, k);
    hide ServerOk, Send;
  }

  lemma SetRunIs(s: Server, k: nat, r: Run)
    requires k < |s.runs|
    ensures var t := SetRun(s, k, r);
            |t.runs| == |s.runs| && t.runs[k] == r && t.log == s.log && t.stopping == s.stopping
  {
  }

  lemma AsksAndRuns(s: Server, k: nat)
    requires ServerOk(s) && k < |s.runs|
    ensures s.runs[k].nextAsk !in s.runs[k].settled && (s.runs[k].ended ==> s.runs[k].asksClosed)
    ensures !s.runs[k].ended ==> s.runs[k].id in s.running
  {
    assert RunOk(s.runs[k]);
    assert !s.runs[k].ended ==> IsRunning(s, k);
    hide PausedOk, StoppingOk, ResultsOk, AskLogOk;
  }

  /** A message goes out unless the script exits and it is no result. A write that fails ends the script, a slow one pauses
      the output; nothing else is done to the operations but to end their requests and cancel them. */
  lemma SentIs(s: Server, wire: nat -> Wire, m: Sent)
    ensures var t := Send(s, wire, m);
            var goes := !s.stopping || IsResult(m);
            && t.log == (if goes then s.log + [m] else s.log)
            && t.stopping == (s.stopping || (goes && wire(|s.log|) == Gone))
            && t.outputPaused == (s.outputPaused || (goes && wire(|s.log|) == Written(true)))
            && |t.runs| == |s.runs| && t.running == s.running
            && forall k :: 0 <= k < |s.runs| ==> t.runs[k].settled.Keys == s.runs[k].settled.Keys
  {
    forall k | 0 <= k < |s.runs|
      ensures CancelRun(s.runs[k], false).settled.Keys == s.runs[k].settled.Keys
    {
      assert AbortAll(s.runs[k].settled, s.runs[k].asks).Keys == s.runs[k].settled.Keys;
    }
    hide AbortAll;
  }

  ghost predicate DistinctNames(entries: seq<Secret>) {
    forall j, k :: 0 <= j < k < |entries| ==> entries[j].name != entries[k].name
  }

  /** The merged secrets: those of the entries by their names, and the others as they were. */
  lemma {:induction false} MergedAre(secrets: map<string, string>, entries: seq<Secret>)
    requires DistinctNames(entries)
    ensures forall k :: 0 <= k < |entries| ==>
              entries[k].name in Merge(secrets, entries) && Merge(secrets, entries)[entries[k].name] == entries[k].value
    ensures forall name :: (forall k :: 0 <= k < |entries| ==> entries[k].name != name) ==>
              (name in Merge(secrets, entries) <==> name in secrets) && (name in secrets ==> Merge(secrets, entries)[name] == secrets[name])
  {
    if entries != [] {
      var init := entries[..|entries| - 1];
      assert forall k :: 0 <= k < |init| ==> init[k] == entries[k];
      MergedAre(secrets, init);
    }
  }

  /** An answer resolves its request if and only if it is no failure and keeps both bounds; the operation then holds the new
      secrets under their names beside its others. Otherwise the request is refused and the secrets stay as they were. */
  lemma AnswerResolvesExactly(r: Run, n: nat, reply: Reply)
    requires RunOk(r) && n in r.asks && n in r.settled && (reply.Value? ==> DistinctNames(reply.secrets))
    ensures var t := AnswerRun(r, n, reply);
            var takes := reply.Value? && |Merge(r.secrets, reply.secrets)| <= 8
                         && |r.masked| + |Added(reply.secrets, r.masked)| <= 32;
            && t.settled[n] == (if takes then [Resolved] else [Refused])
            && (!takes ==> t.secrets == r.secrets && t.masked == r.masked)
            && (takes ==> forall k :: 0 <= k < |reply.secrets| ==>
                  reply.secrets[k].name in t.secrets && t.secrets[reply.secrets[k].name] == reply.secrets[k].value)
            && (takes ==> forall name :: name in r.secrets && (forall k :: 0 <= k < |reply.secrets| ==> reply.secrets[k].name != name) ==>
                  name in t.secrets && t.secrets[name] == r.secrets[name])
  {
    assert r.settled[n] == [];
    if reply.Value? { MergedAre(r.secrets, reply.secrets); }
    hide Merge, Added, SecretsOk;
  }
}
