/** The event machine of the helper channel's script (src/helperChannel/server.ts): operations, their requests to the
    extension, cancels, time limits, secrets, and output that is paused while the connection is congested. */
module ChannelServer {
  const MAX_SECRETS: nat := 8
  const MAX_MASKED_SECRETS: nat := 4 * MAX_SECRETS
  const MAX_OPEN_ASKS: nat := 16

  datatype Secret = Secret(name: string, value: string)

  /** The secrets of a parsed message, in the order of its object; without any: the message has none. */
  type Secrets = e: seq<Secret> | |e| <= MAX_SECRETS

  /** How a request to the extension ends. */
  datatype Settlement = Resolved | Refused | Aborted

  /** An accepted operation. `settled` holds for each request that was sent what its promise was settled with, `late` says
      that the operation was accepted while the script exits. */
  datatype Run = Run(id: int, timer: bool, cancelled: bool, timedOut: bool, ended: bool, late: bool,
                     asksClosed: bool, asks: set<nat>, nextAsk: nat, settled: map<nat, seq<Settlement>>,
                     secrets: map<string, string>, masked: seq<string>, pausables: set<nat>)

  /** What was handed to the standard output. `Refusal`: a result for a message that started no operation. */
  datatype Sent =
    | Hello | Pong | CancelConfirmed(id: int) | Asked(run: nat, ask: nat) | Text(run: nat)
    | Refusal(id: int) | Result(run: nat, id: int, cancelled: bool, timedOut: bool)

  /** What a write meets: nobody reads anymore, or written (and the connection is slow). */
  datatype Wire = Gone | Written(congested: bool)

  datatype Act = Ask(isKind: bool, fits: bool) | Write | Forget(name: string) | Watch(n: nat) | Unwatch(n: nat)

  datatype Reply = Failure | Value(secrets: Secrets)

  /** A line of the extension; `first`: what the handler of the operation does before it first waits. */
  datatype Message =
    | Bad(refused: bool, id: int) | Greeting | Ping | Cancel(id: int) | Answer(id: int, ask: nat, reply: Reply)
    | Op(id: int, known: bool, timed: bool, secrets: Secrets, first: seq<Act>)

  /** `InputEnded`: also the silence of the connection. */
  datatype Event =
    | Input(lines: seq<Message>) | InputEnded | Idle | Timeout(run: nat) | Acts(run: nat, act: Act)
    | HandlerEnds(run: nat, flushed: nat) | Drained

  datatype Server = Server(runs: seq<Run>, running: map<int, nat>, stopping: bool, awaited: set<nat>,
                           outputPaused: bool, paused: set<(nat, nat)>, log: seq<Sent>)

  const START := Server([], map[], false, {}, false, {}, [])

  // ---- One operation ----

  predicate IsAborted(r: Run) { r.cancelled || r.timedOut }

  /** The promises of these requests are rejected. */
  function AbortAll(settled: map<nat, seq<Settlement>>, asks: set<nat>): map<nat, seq<Settlement>> {
    map n | n in settled :: if n in asks then settled[n] + [Aborted] else settled[n]
  }

  function EndAsks(r: Run): Run { r.(asksClosed := true, asks := {}, settled := AbortAll(r.settled, r.asks)) }

  function CancelRun(r: Run, timedOut: bool): Run {
    if IsAborted(r) then r
    else EndAsks(if timedOut then r.(timedOut := true, timer := false) else r.(cancelled := true, timer := false))
  }

  /** `Object.assign(secrets, entries)`. */
  function Merge(secrets: map<string, string>, entries: seq<Secret>): map<string, string> {
    if entries == [] then secrets
    else
      var last := entries[|entries| - 1];
      Merge(secrets, entries[..|entries| - 1])[last.name := last.value]
  }

  /** The values of the entries, each once, that are not masked yet. */
  function Added(entries: seq<Secret>, masked: seq<string>): seq<string> {
    if entries == [] then []
    else
      var before, value := Added(entries[..|entries| - 1], masked), entries[|entries| - 1].value;
      if value in masked || value in before then before else before + [value]
  }

  function Values(entries: seq<Secret>): seq<string> { seq(|entries|, k requires 0 <= k < |entries| => entries[k].value) }

  function Settle(r: Run, n: nat, how: Settlement): Run
    requires n in r.settled
  {
    r.(settled := r.settled[n := r.settled[n] + [how]])
  }

  /** The answer of the extension to the request `n` of an operation. */
  function AnswerRun(r: Run, n: nat, reply: Reply): Run
    requires n in r.asks && n in r.settled
  {
    var taken := r.(asks := r.asks - {n});
    match reply
    case Failure => Settle(taken, n, Refused)
    case Value(secrets) =>
      var merged, added := Merge(r.secrets, secrets), Added(secrets, r.masked);
      if |merged| > MAX_SECRETS || |r.masked| + |added| > MAX_MASKED_SECRETS then Settle(taken, n, Refused)
      else Settle(taken.(secrets := merged, masked := r.masked + added), n, Resolved)
  }

  function NewRun(id: int, timed: bool, late: bool, secrets: Secrets): Run {
    Run(id, timed, false, false, false, late, false, {}, 1, map[], Merge(map[], secrets), Values(secrets), {})
  }

  // ---- The whole server ----

  predicate IsRunning(s: Server, k: nat) {
    k < |s.runs| && s.runs[k].id in s.running && s.running[s.runs[k].id] == k
  }

  function Registered(s: Server): set<(nat, nat)> {
    set k, n | 0 <= k < |s.runs| && IsRunning(s, k) && n in s.runs[k].pausables :: (k, n)
  }

  function Shutdown(s: Server): Server {
    if s.stopping then s
    else
      s.(stopping := true,
         awaited := (set k | 0 <= k < |s.runs| && IsRunning(s, k)),
         runs := seq(|s.runs|, k requires 0 <= k < |s.runs| => if IsRunning(s, k) then CancelRun(s.runs[k], false) else s.runs[k]))
  }

  function PauseOutput(s: Server): Server { s.(outputPaused := true, paused := s.paused + Registered(s)) }

  function Drain(s: Server): Server { s.(outputPaused := false, paused := s.paused - Registered(s)) }

  predicate IsResult(m: Sent) { m.Refusal? || m.Result? }

  /** What the answer of a write does to the server. */
  function AfterWrite(s: Server, w: Wire): Server {
    match w
    case Gone => Shutdown(s)
    case Written(congested) => if !s.outputPaused && congested then PauseOutput(s) else s
  }

  function Send(s: Server, wire: nat -> Wire, m: Sent): Server {
    if s.stopping && !IsResult(m) then s
    else AfterWrite(s.(log := s.log + [m]), wire(|s.log|))
  }

  function SetRun(s: Server, k: nat, r: Run): Server
    requires k < |s.runs|
  {
    s.(runs := s.runs[k := r])
  }

  /** The next number of a request is taken. */
  function Numbered(r: Run): Run { r.(nextAsk := r.nextAsk + 1) }

  /** The next request is open. */
  function Asking(r: Run): Run { Numbered(r).(asks := r.asks + {r.nextAsk}, settled := r.settled[r.nextAsk := []]) }

  /** A request to the extension. */
  function AskOf(s: Server, wire: nat -> Wire, k: nat, isKind: bool, fits: bool): Server
    requires k < |s.runs|
  {
    var r := s.runs[k];
    if r.asksClosed || IsAborted(r) || r.id !in s.running || !isKind || |r.asks| >= MAX_OPEN_ASKS then s
    else
      if !fits then SetRun(s, k, Numbered(r)) else Send(SetRun(s, k, Asking(r)), wire, Asked(k, r.nextAsk))
  }

  /** Something that the handler of an operation does. */
  function ActOf(s: Server, wire: nat -> Wire, k: nat, act: Act): Server
    requires k < |s.runs|
  {
    var r := s.runs[k];
    match act
    case Ask(isKind, fits) => AskOf(s, wire, k, isKind, fits)
    case Write => Send(s, wire, Text(k))
    case Forget(name) => SetRun(s, k, r.(secrets := r.secrets - {name}))
    case Watch(n) =>
      if !IsRunning(s, k) then s
      else
        var t := SetRun(s, k, r.(pausables := r.pausables + {n}));
        if s.outputPaused then t.(paused := t.paused + {(k, n)}) else t
    case Unwatch(n) =>
      if n !in r.pausables then s
      else
        var t := SetRun(s, k, r.(pausables := r.pausables - {n}));
        if s.outputPaused then t.(paused := t.paused - {(k, n)}) else t
  }

  function ActsOf(s: Server, wire: nat -> Wire, k: nat, acts: seq<Act>): Server {
    if acts == [] then s
    else
      var before := ActsOf(s, wire, k, acts[..|acts| - 1]);
      if k < |before.runs| then ActOf(before, wire, k, acts[|acts| - 1]) else before
  }

  function Accept(s: Server, id: int, timed: bool, secrets: Secrets): Server {
    s.(runs := s.runs + [NewRun(id, timed, s.stopping, secrets)], running := s.running[id := |s.runs|])
  }

  function OnLine(s: Server, wire: nat -> Wire, m: Message): Server {
    match m
    case Bad(refused, id) => if refused && id !in s.running then Send(s, wire, Refusal(id)) else s
    case Greeting => Send(s, wire, Hello)
    case Ping => Send(s, wire, Pong)
    case Cancel(id) =>
      if id in s.running && s.running[id] < |s.runs| then SetRun(s, s.running[id], CancelRun(s.runs[s.running[id]], false))
      else Send(s, wire, CancelConfirmed(id))
    case Op(id, known, timed, secrets, first) =>
      if id in s.running || !known then Send(s, wire, Refusal(id))
      else ActsOf(Accept(s, id, timed, secrets), wire, |s.runs|, first)
    case Answer(id, ask, reply) =>
      if id in s.running && s.running[id] < |s.runs| && ask in s.runs[s.running[id]].asks && ask in s.runs[s.running[id]].settled then
        SetRun(s, s.running[id], AnswerRun(s.runs[s.running[id]], ask, reply))
      else s
  }

  function OnLines(s: Server, wire: nat -> Wire, lines: seq<Message>): Server {
    if lines == [] then s else OnLine(OnLines(s, wire, lines[..|lines| - 1]), wire, lines[|lines| - 1])
  }

  function Flush(s: Server, wire: nat -> Wire, k: nat, n: nat): Server {
    if n == 0 then s else Send(Flush(s, wire, k, n - 1), wire, Text(k))
  }

  /** The handler of an operation ended: what happens before the rest of its output is written. */
  function Close(s: Server, k: nat): Server
    requires k < |s.runs|
  {
    var r := s.runs[k];
    SetRun(s, k, EndAsks(r.(timer := false)).(pausables := {})).(
      paused := if s.outputPaused then s.paused - (set n | n in r.pausables :: (k, n)) else s.paused)
  }

  function Finish(s: Server, k: nat): Server
    requires k < |s.runs|
  {
    var r := s.runs[k];
    SetRun(s, k, r.(ended := true)).(running := s.running - {r.id})
  }

  function ResultOf(k: nat, r: Run): Sent { Result(k, r.id, r.cancelled, r.timedOut) }

  function HandlerEnd(s: Server, wire: nat -> Wire, k: nat, flushed: nat): Server
    requires k < |s.runs|
  {
    var t := Flush(Close(s, k), wire, k, flushed);
    if k < |t.runs| then Send(Finish(t, k), wire, ResultOf(k, t.runs[k])) else t
  }

  /** An event that cannot happen now (a timer that was cleared, a handler that ended before) changes nothing. */
  function Next(s: Server, wire: nat -> Wire, ev: Event): Server {
    match ev
    case Input(lines) => if s.stopping then s else OnLines(s, wire, lines)
    case InputEnded => Shutdown(s)
    case Idle => if s.running == map[] then Shutdown(s) else s
    case Timeout(k) => if k < |s.runs| && s.runs[k].timer then SetRun(s, k, CancelRun(s.runs[k], true)) else s
    case Acts(k, act) => if k < |s.runs| then ActOf(s, wire, k, act) else s
    case HandlerEnds(k, flushed) => if k < |s.runs| && !s.runs[k].ended then HandlerEnd(s, wire, k, flushed) else s
    case Drained => if s.outputPaused then Drain(s) else s
  }

  function RunAll(s: Server, wire: nat -> Wire, evs: seq<Event>): Server {
    if evs == [] then s else Next(RunAll(s, wire, evs[..|evs| - 1]), wire, evs[|evs| - 1])
  }

  /** The script exits by itself when every operation that ran at the shutdown has its result (or at a deadline). */
  predicate MayExit(s: Server) { s.stopping && forall k :: k in s.awaited ==> k < |s.runs| && s.runs[k].ended }
}
