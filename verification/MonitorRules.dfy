/** The decision of one tick of the Session Monitor (src/remoteMonitor/rules.ts): which environments to stop, which to keep,
    and which heartbeat records to remove. Times are integers (ms), as the clock and the checked records give them. */
module MonitorRules {
  import opened Seqs
  import opened Sorting

  const RECORD_MAX_AGE_MS: int := 7 * 24 * 60 * 60 * 1000
  const FUTURE_RECORD_TOLERANCE_MS: int := 5 * 60_000

  datatype Container = Container(id: string, state: string, name: string, environmentId: string, composeService: string)

  datatype Record = Record(source: string, environmentId: string, at: int, keepRunning: bool, limitSeconds: int, release: bool)

  /** The key `<source>.<environment id>.<at>`: the first two parts hold no dot, so the text is as good as the triple. */
  datatype SeenKey = SeenKey(source: string, environmentId: string, at: int)

  datatype Timing = Timing(gapMs: int, graceMs: int)

  /** What the monitor keeps between ticks. A missing `futureSeen` is the empty map. */
  datatype State = State(lastTickAt: Option<int>, graceUntil: Option<int>, futureSeen: map<SeenKey, int>)

  const INITIAL_STATE := State(None, None, map[])

  datatype Input = Input(now: int, containers: seq<Container>, records: seq<Record>, state: State, timing: Timing)

  /** A record with its `at` as the rules see it (clamped); all its other fields are the written ones. */
  datatype Seen = Seen(written: Record, at: int)

  /** An environment to stop; for the reason, how long no heartbeat came and the limit of the record that decided. */
  datatype Stop = Stop(environmentId: string, containers: seq<Container>, silentMs: int, limitSeconds: int)

  datatype Decision = Decision(
    state: State, stop: seq<Stop>, kept: seq<string>, forget: seq<Record>, superseded: seq<Record>, grace: bool, active: bool)

  function Abs(x: int): int { if x < 0 then -x else x }

  function Min(x: int, y: int): int { if x < y then x else y }

  predicate IsRunning(state: string) {
    state == "running" || state == "restarting" || state == "paused"
  }

  // ---- The gap rule ----

  predicate IsGap(i: Input) {
    i.state.lastTickAt.None? || Abs(i.now - i.state.lastTickAt.value) > i.timing.gapMs
  }

  function GraceUntil(i: Input): Option<int> {
    if IsGap(i) then Some(i.now + i.timing.graceMs)
    else if i.state.graceUntil.Some? then Some(Min(i.state.graceUntil.value, i.now + i.timing.graceMs))
    else None
  }

  predicate InGrace(i: Input) {
    GraceUntil(i).Some? && i.now < GraceUntil(i).value
  }

  // ---- The records as the rules see them ----

  function KeyOf(r: Record): SeenKey { SeenKey(r.source, r.environmentId, r.at) }

  predicate IsFuture(now: int, r: Record) { r.at > now + FUTURE_RECORD_TOLERANCE_MS }

  function FirstSeen(now: int, state: State, key: SeenKey): int {
    Min(if key in state.futureSeen then state.futureSeen[key] else now, now)
  }

  function See(now: int, state: State): Record -> Seen {
    (r: Record) => Seen(r, if IsFuture(now, r) then FirstSeen(now, state, KeyOf(r)) else r.at)
  }

  function Clamped(i: Input): seq<Seen> { Map(See(i.now, i.state), i.records) }

  function OfEnvironment(environmentId: string): Seen -> bool { (s: Seen) => s.written.environmentId == environmentId }

  function RecordsOf(i: Input, environmentId: string): seq<Seen> { Filter(OfEnvironment(environmentId), Clamped(i)) }

  // ---- Containers ----

  function ContainerOf(environmentId: string): Container -> bool { (c: Container) => c.environmentId == environmentId }

  function RunningContainer(): Container -> bool { (c: Container) => IsRunning(c.state) }

  function EnvironmentOf(): Container -> string { (c: Container) => c.environmentId }

  /** The environments with a running container, in the order of their first one. */
  function RunningEnvironments(cs: seq<Container>): seq<string> {
    Distinct(Map(EnvironmentOf(), Filter(RunningContainer(), cs)))
  }

  function RunningOf(cs: seq<Container>, environmentId: string): seq<Container> {
    Filter(ContainerOf(environmentId), Filter(RunningContainer(), cs))
  }

  function ServiceAfterDev(): (Container, Container) -> bool {
    (a: Container, b: Container) => a.composeService == "" && b.composeService != ""
  }

  function DevContainerFirst(cs: seq<Container>): seq<Container> { StableSort(ServiceAfterDev(), cs) }

  // ---- The record that decides ----

  /** A later time, or for equal times a keep against none. */
  predicate Outranks(a: Seen, b: Seen) {
    a.at > b.at || (a.at == b.at && a.written.keepRunning && !b.written.keepRunning)
  }

  function NewestOf(rs: seq<Seen>): Seen
    requires rs != []
  {
    if |rs| == 1 then rs[0] else
    var best := NewestOf(rs[..|rs| - 1]);
    var last := rs[|rs| - 1];
    if Outranks(last, best) then last else best
  }

  predicate WithinLimit(now: int, s: Seen) { now - s.at <= s.written.limitSeconds * 1000 }

  function LiveOther(now: int, source: string): Seen -> bool {
    (s: Seen) => s.written.source != source && !s.written.release && WithinLimit(now, s)
  }

  function Decisive(now: int, rs: seq<Seen>): Seen
    requires rs != []
  {
    var newest := NewestOf(rs);
    var othersLive := Filter(LiveOther(now, newest.written.source), rs);
    if newest.written.release && othersLive != [] then NewestOf(othersLive) else newest
  }

  datatype Verdict = Unknown | Keep | Hold | Silent(decisive: Seen)

  function VerdictOf(i: Input, environmentId: string): Verdict {
    var rs := RecordsOf(i, environmentId);
    if rs == [] then Unknown else
    var decisive := Decisive(i.now, rs);
    if decisive.written.keepRunning then Keep
    else if InGrace(i) || WithinLimit(i.now, decisive) then Hold
    else Silent(decisive)
  }

  function StopOf(i: Input, environmentId: string): (s: Stop)
    requires VerdictOf(i, environmentId).Silent?
  {
    var decisive := VerdictOf(i, environmentId).decisive;
    Stop(environmentId, DevContainerFirst(RunningOf(i.containers, environmentId)), i.now - decisive.at, decisive.written.limitSeconds)
  }

  function Stops(i: Input, environments: seq<string>): seq<Stop> {
    if environments == [] then [] else
    var rest := Stops(i, environments[..|environments| - 1]);
    var last := environments[|environments| - 1];
    if VerdictOf(i, last).Silent? then rest + [StopOf(i, last)] else rest
  }

  function IsKept(i: Input): string -> bool { (e: string) => VerdictOf(i, e).Keep? }

  // ---- The records to remove ----

  predicate Present(i: Input, environmentId: string) { exists c :: c in i.containers && c.environmentId == environmentId }

  predicate IsOld(i: Input, r: Record) { !Present(i, r.environmentId) && Abs(i.now - r.at) > RECORD_MAX_AGE_MS }

  /** `other` stays and is not newer than `s`: then `s` must stay too. */
  predicate Blocks(i: Input, other: Seen, s: Seen) {
    && other.written.environmentId == s.written.environmentId
    && !IsOld(i, other.written)
    && (other.at < s.at || (other.at == s.at && s.written.keepRunning))
  }

  predicate IsForgotten(i: Input, s: Seen) {
    IsOld(i, s.written) && !exists other :: other in Clamped(i) && Blocks(i, other, s)
  }

  function ForgetTest(i: Input): Seen -> bool { (s: Seen) => IsForgotten(i, s) }

  function RemovedBefore(): (Seen, Seen) -> bool { (a: Seen, b: Seen) => Outranks(b, a) }

  function Written(): Seen -> Record { (s: Seen) => s.written }

  function Forgotten(i: Input): seq<Seen> { StableSort(RemovedBefore(), Filter(ForgetTest(i), Clamped(i))) }

  predicate HeldByKeep(i: Input, r: Record) {
    exists other :: other in i.records && other.environmentId == r.environmentId && other.keepRunning
      && other.source != r.source && other.at <= r.at
  }

  predicate IsSuperseded(i: Input, s: Seen) {
    && !IsForgotten(i, s)
    && !s.written.keepRunning
    && i.now - s.at > RECORD_MAX_AGE_MS
    && !HeldByKeep(i, s.written)
    && exists other :: other in RecordsOf(i, s.written.environmentId) && other.at > s.at
  }

  function SupersededTest(i: Input): Seen -> bool { (s: Seen) => IsSuperseded(i, s) }

  function Superseded(i: Input): seq<Seen> { Filter(SupersededTest(i), Clamped(i)) }

  // ---- The decision ----

  predicate IsActive(i: Input) { exists s :: s in Clamped(i) && WithinLimit(i.now, s) }

  function FutureKeys(i: Input): set<SeenKey> { set r | r in i.records && IsFuture(i.now, r) :: KeyOf(r) }

  function NextState(i: Input): State {
    State(
      Some(i.now),
      if InGrace(i) then GraceUntil(i) else None,
      map key | key in FutureKeys(i) :: FirstSeen(i.now, i.state, key))
  }

  function Decide(i: Input): Decision {
    var environments := RunningEnvironments(i.containers);
    Decision(
      NextState(i),
      Stops(i, environments),
      Filter(IsKept(i), environments),
      Map(Written(), Forgotten(i)),
      Map(Written(), Superseded(i)),
      InGrace(i),
      IsActive(i))
  }
}
