/** The reader of the frames of a hijacked connection of the Docker engine (src/helperChannel/engineApi.ts). */
module EngineStream {
  import opened Seqs

  type Byte = x: int | 0 <= x < 256

  const MAX_ENGINE_FRAME_BYTES: int := 16 * 1024 * 1024

  /** Output of the process: stream 1 (stdout) or 2 (stderr). */
  datatype Frame = Frame(kind: Byte, data: seq<Byte>)

  /** What the listener does with a frame: it returns, it throws, or it ends the stream (a cancel, an abort). */
  datatype Reaction = Returns | Throws | Ends

  datatype Failure = NotFramed | TooLong | ListenerFailed | Aborted | MidFrame | Broken | ClosedEarly

  datatype Outcome = Open | Clean | Failed(reason: Failure)

  /** `readUInt32BE(4)`. */
  function ReadLength(b: seq<Byte>): nat
    requires |b| >= 8
  {
    var b4: int, b5: int, b6: int, b7: int := b[4], b[5], b[6], b[7];
    b4 * 0x100_0000 + b5 * 0x1_0000 + b6 * 0x100 + b7
  }

  predicate IsHeader(b: seq<Byte>)
    requires |b| >= 8
  {
    (b[0] == 1 || b[0] == 2) && b[1] == 0 && b[2] == 0 && b[3] == 0
  }

  // ---- The specification: the whole byte string at once ----

  datatype Reading = Reading(frames: seq<Frame>, outcome: Outcome, rest: seq<Byte>)

  /** The bytes start with a whole frame. */
  predicate StartsWhole(b: seq<Byte>) {
    |b| >= 8 && IsHeader(b) && ReadLength(b) <= MAX_ENGINE_FRAME_BYTES && 8 + ReadLength(b) <= |b|
  }

  function FirstFrame(b: seq<Byte>): Frame
    requires StartsWhole(b)
  {
    Frame(b[0], b[8..8 + ReadLength(b)])
  }

  function AfterFrame(b: seq<Byte>): (r: seq<Byte>)
    requires StartsWhole(b)
    ensures |r| < |b|
  {
    b[8 + ReadLength(b)..]
  }

  /** Without a whole frame: what is wrong with the start, or nothing yet. */
  function Refusal(b: seq<Byte>): Outcome {
    if |b| < 8 then Open
    else if !IsHeader(b) then Failed(NotFramed)
    else if ReadLength(b) > MAX_ENGINE_FRAME_BYTES then Failed(TooLong)
    else Open
  }

  function Prepend(frame: Frame, r: Reading): Reading { Reading([frame] + r.frames, r.outcome, r.rest) }

  /** The frames of a byte string up to its first malformed header or to the frame at which the listener ended the reading;
      `n`: the frames that the listener got before. */
  function Read(listener: nat -> Reaction, n: nat, b: seq<Byte>): Reading
    decreases |b|
  {
    if !StartsWhole(b) then Reading([], Refusal(b), b)
    else
      match listener(n)
      case Throws => Reading([FirstFrame(b)], Failed(ListenerFailed), AfterFrame(b))
      case Ends => Reading([FirstFrame(b)], Failed(Aborted), AfterFrame(b))
      case Returns => Prepend(FirstFrame(b), Read(listener, n + 1, AfterFrame(b)))
  }

  datatype State = State(buffer: seq<Byte>, outcome: Outcome, delivered: seq<Frame>)

  datatype Event = Data(chunk: seq<Byte>) | End | Error | Close | Abort

  function Consume(listener: nat -> Reaction, s: State): State {
    var r := Read(listener, |s.delivered|, s.buffer);
    State(r.rest, r.outcome, s.delivered + r.frames)
  }

  /** The stream starts with the bytes that came with the answer of the upgrade. */
  function Begin(listener: nat -> Reaction, head: seq<Byte>, aborted: bool): State {
    var s := Consume(listener, State(head, Open, []));
    if s.outcome == Open && aborted then s.(outcome := Failed(Aborted)) else s
  }

  function Next(listener: nat -> Reaction, s: State, ev: Event): State {
    if s.outcome != Open then s else
    match ev
    case Data(chunk) => Consume(listener, s.(buffer := s.buffer + chunk))
    case End =>
      var t := Consume(listener, s);
      if t.outcome != Open then t else t.(outcome := if t.buffer == [] then Clean else Failed(MidFrame))
    case Error => s.(outcome := Failed(Broken))
    case Close => s.(outcome := Failed(ClosedEarly))
    case Abort => s.(outcome := Failed(Aborted))
  }

  // ---- The code ----

  class Stream {
    const listener: nat -> Reaction
    var buffer: seq<Byte>
    var outcome: Outcome
    var delivered: seq<Frame>

    function View(): State
      reads this
    {
      State(buffer, outcome, delivered)
    }

    constructor (listener: nat -> Reaction, head: seq<Byte>, aborted: bool)
      ensures this.listener == listener && View() == Begin(listener, head, aborted)
    {
      this.listener := listener;
      buffer, outcome, delivered := head, Open, [];
      new;
      var whole := ConsumeBuffer();
      if whole && aborted {
        Settle(Failed(Aborted));
      }
    }

    /** `done` is set at the first settle; later ones change nothing. */
    method Settle(result: Outcome)
      requires result != Open
      modifies this`outcome
      ensures outcome == if old(outcome) == Open then result else old(outcome)
    {
      if outcome == Open {
        outcome := result;
      }
    }

    /** Hands every whole frame to the listener; false when the output is no frame or the stream is done. */
    method ConsumeBuffer() returns (fine: bool)
      requires outcome == Open
      modifies this
      ensures View() == Consume(listener, old(View()))
      ensures outcome == Open ==> fine
    {
      ghost var start := View();
      hide FirstFrame, AfterFrame;
      while |buffer| >= 8
        invariant start.delivered <= delivered
        invariant IsSoFar(listener, start, View())
        decreases |buffer|
      {
        if outcome != Open {
          return false;
        }
        if !IsHeader(buffer) {
          Settle(Failed(NotFramed));
          return false;
        }
        var length := ReadLength(buffer);
        if length > MAX_ENGINE_FRAME_BYTES {
          Settle(Failed(TooLong));
          return false;
        }
        if |buffer| < 8 + length {
          return true;
        }
        var reaction := listener(|delivered|);
        SoFarStep(listener, start, View());
        TakeFrame();
        match reaction {
          case Returns =>
          case Ends => Settle(Failed(Aborted));
          case Throws =>
            Settle(Failed(ListenerFailed));
            return false;
        }
      }
      fine := true;
    }

    method TakeFrame()
      requires StartsWhole(buffer)
      modifies this`buffer, this`delivered
      ensures buffer == AfterFrame(old(buffer)) && delivered == old(delivered) + [FirstFrame(old(buffer))]
    {
      var length := ReadLength(buffer);
      var data := buffer[8..8 + length];
      delivered := delivered + [Frame(buffer[0], data)];
      buffer := buffer[8 + length..];
    }

    method OnData(chunk: seq<Byte>)
      modifies this
      ensures View() == Next(listener, old(View()), Data(chunk))
    {
      if outcome != Open { return; }
      buffer := buffer + chunk;
      var _ := ConsumeBuffer();
    }

    method OnEnd()
      modifies this
      ensures View() == Next(listener, old(View()), End)
    {
      if outcome != Open { return; }
      var fine := ConsumeBuffer();
      if !fine { return; }
      Settle(if buffer == [] then Clean else Failed(MidFrame));
    }

    method OnError()
      modifies this`outcome
      ensures View() == Next(listener, old(View()), Error)
    {
      Settle(Failed(Broken));
    }

    method OnClose()
      modifies this`outcome
      ensures View() == Next(listener, old(View()), Close)
    {
      Settle(Failed(ClosedEarly));
    }

    method OnAbort()
      modifies this`outcome
      ensures View() == Next(listener, old(View()), Abort)
    {
      Settle(Failed(Aborted));
    }
  }

  // ---- The chunks do not matter ----

  /** Reading goes on with the rest of what was read, when more bytes come. */
  lemma {:induction false} ReadGoesOn(listener: nat -> Reaction, n: nat, a: seq<Byte>, b: seq<Byte>)
    ensures Read(listener, n, a + b) == Continued(listener, n, Read(listener, n, a), b)
    decreases |a|
  {
    hide IsHeader, ReadLength;
    if StartsWhole(a) {
      MoreBytes(a, b);
      hide StartsWhole, FirstFrame, AfterFrame;
      if listener(n) == Returns {
        ReadGoesOn(listener, n + 1, AfterFrame(a), b);
        var more := Read(listener, n + 1, AfterFrame(a));
        assert Read(listener, n, a) == Prepend(FirstFrame(a), more);
        ContinuedBehind(listener, n, FirstFrame(a), more, b);
      }
    } else if Refusal(a) != Open {
      RefusedAnyway(a, b);
      hide StartsWhole, Refusal;
    } else {
      assert [] + Read(listener, n, a + b).frames == Read(listener, n, a + b).frames;
      hide StartsWhole;
    }
  }

  lemma ContinuedBehind(listener: nat -> Reaction, n: nat, frame: Frame, first: Reading, b: seq<Byte>)
    ensures Continued(listener, n, Prepend(frame, first), b) == Prepend(frame, Continued(listener, n + 1, first, b))
  {
    hide Read;
    if first.outcome == Open {
      var more := Read(listener, n + 1 + |first.frames|, first.rest + b);
      assert [frame] + first.frames + more.frames == [frame] + (first.frames + more.frames);
    }
  }

  /** The reading of more bytes behind a first reading. */
  function Continued(listener: nat -> Reaction, n: nat, first: Reading, b: seq<Byte>): Reading {
    if first.outcome != Open then Reading(first.frames, first.outcome, first.rest + b)
    else
      var more := Read(listener, n + |first.frames|, first.rest + b);
      Reading(first.frames + more.frames, more.outcome, more.rest)
  }

  lemma MoreBytes(a: seq<Byte>, b: seq<Byte>)
    requires StartsWhole(a)
    ensures StartsWhole(a + b) && FirstFrame(a + b) == FirstFrame(a) && AfterFrame(a + b) == AfterFrame(a) + b
  {
    var n := ReadLength(a);
    assert ReadLength(a + b) == n && IsHeader(a + b);
    assert (a + b)[8..8 + n] == a[8..8 + n];
  }

  lemma RefusedAnyway(a: seq<Byte>, b: seq<Byte>)
    requires !StartsWhole(a) && Refusal(a) != Open
    ensures !StartsWhole(a + b) && Refusal(a + b) == Refusal(a)
  {
    assert ReadLength(a + b) == ReadLength(a) && IsHeader(a + b) == IsHeader(a);
  }

  /** What a loop over a buffer has done so far: the reading from the start is the frames handed over since, and the reading
      of the buffer. */
  ghost predicate IsSoFar(listener: nat -> Reaction, start: State, now: State) {
    && start.delivered <= now.delivered
    && var since := now.delivered[|start.delivered|..];
       Read(listener, |start.delivered|, start.buffer) ==
         if now.outcome != Open then Reading(since, now.outcome, now.buffer)
         else
           var more := Read(listener, |now.delivered|, now.buffer);
           Reading(since + more.frames, more.outcome, more.rest)
  }

  lemma SoFarStep(listener: nat -> Reaction, start: State, now: State)
    requires IsSoFar(listener, start, now) && now.outcome == Open && StartsWhole(now.buffer)
    ensures var taken := State(AfterFrame(now.buffer), Open, now.delivered + [FirstFrame(now.buffer)]);
            match listener(|now.delivered|)
            case Returns => IsSoFar(listener, start, taken)
            case Ends => IsSoFar(listener, start, taken.(outcome := Failed(Aborted)))
            case Throws => IsSoFar(listener, start, taken.(outcome := Failed(ListenerFailed)))
  {
    var k, frame := |start.delivered|, FirstFrame(now.buffer);
    assert (now.delivered + [frame])[k..] == now.delivered[k..] + [frame];
    hide StartsWhole, FirstFrame, AfterFrame;
    assert forall more: seq<Frame> :: now.delivered[k..] + ([frame] + more) == now.delivered[k..] + [frame] + more;
  }

  function FeedAll(listener: nat -> Reaction, s: State, chunks: seq<seq<Byte>>): State {
    if chunks == [] then s
    else Next(listener, FeedAll(listener, s, chunks[..|chunks| - 1]), Data(chunks[|chunks| - 1]))
  }

  /** The stream is where reading the whole byte string at once gets. */
  ghost predicate HasRead(listener: nat -> Reaction, b: seq<Byte>, s: State) {
    var r := Read(listener, 0, b);
    s.delivered == r.frames && s.outcome == r.outcome && (s.outcome == Open ==> s.buffer == r.rest)
  }

  lemma BeginHasRead(listener: nat -> Reaction, head: seq<Byte>)
    ensures HasRead(listener, head, Begin(listener, head, false))
  {
    hide Read;
    assert [] + Read(listener, 0, head).frames == Read(listener, 0, head).frames;
  }

  lemma OneMoreChunk(listener: nat -> Reaction, b: seq<Byte>, s: State, chunk: seq<Byte>)
    requires HasRead(listener, b, s)
    ensures HasRead(listener, b + chunk, Next(listener, s, Data(chunk)))
  {
    ReadGoesOn(listener, 0, b, chunk);
    hide Read;
  }

  /** For every split of the bytes, the head of the upgrade included, the listener gets the frames of the whole byte string
      up to the first malformed header (or to the frame at which it ended the reading), and the stream fails with the same
      reason or waits for more. */
  lemma {:induction false} ChunksDoNotMatter(listener: nat -> Reaction, head: seq<Byte>, chunks: seq<seq<Byte>>)
    ensures HasRead(listener, head + Flatten(chunks), FeedAll(listener, Begin(listener, head, false), chunks))
  {
    hide Read, HasRead, Next, Begin;
    if chunks == [] {
      assert head + [] == head;
      BeginHasRead(listener, head);
    } else {
      var init, last := chunks[..|chunks| - 1], chunks[|chunks| - 1];
      ChunksDoNotMatter(listener, head, init);
      OneMoreChunk(listener, head + Flatten(init), FeedAll(listener, Begin(listener, head, false), init), last);
      assert head + Flatten(chunks) == head + Flatten(init) + last;
    }
  }

  /** Nothing is delivered after the stream settled, and it settles once: no later event changes anything. */
  lemma {:induction false} SettledForGood(listener: nat -> Reaction, s: State, evs: seq<Event>)
    requires s.outcome != Open
    ensures NextAll(listener, s, evs) == s
  {
    if evs != [] {
      SettledForGood(listener, s, evs[..|evs| - 1]);
    }
  }

  function NextAll(listener: nat -> Reaction, s: State, evs: seq<Event>): State {
    if evs == [] then s else Next(listener, NextAll(listener, s, evs[..|evs| - 1]), evs[|evs| - 1])
  }

  // ---- The encoding of the engine ----

  predicate IsFrame(f: Frame) { (f.kind == 1 || f.kind == 2) && |f.data| <= MAX_ENGINE_FRAME_BYTES }

  function LengthBytes(n: nat): seq<Byte>
    requires n <= MAX_ENGINE_FRAME_BYTES
  {
    [n / 0x100_0000, n / 0x1_0000 % 0x100, n / 0x100 % 0x100, n % 0x100]
  }

  function Encode(f: Frame): seq<Byte>
    requires IsFrame(f)
  {
    [f.kind, 0, 0, 0] + LengthBytes(|f.data|) + f.data
  }

  function EncodeAll(fs: seq<Frame>): seq<Byte>
    requires forall f :: f in fs ==> IsFrame(f)
  {
    if fs == [] then [] else Encode(fs[0]) + EncodeAll(fs[1..])
  }

  lemma EncodedStarts(f: Frame, rest: seq<Byte>)
    requires IsFrame(f)
    ensures StartsWhole(Encode(f) + rest) && FirstFrame(Encode(f) + rest) == f && AfterFrame(Encode(f) + rest) == rest
  {
    var n, b := |f.data|, Encode(f) + rest;
    assert n == n / 0x100_0000 * 0x100_0000 + n / 0x1_0000 % 0x100 * 0x1_0000 + n / 0x100 % 0x100 * 0x100 + n % 0x100;
    assert ReadLength(b) == n;
    assert b[8..8 + n] == f.data && b[8 + n..] == rest;
  }

  lemma StartIsEncoded(b: seq<Byte>)
    requires StartsWhole(b)
    ensures IsFrame(FirstFrame(b)) && Encode(FirstFrame(b)) + AfterFrame(b) == b
  {
    var n := ReadLength(b);
    var b4: int, b5: int, b6: int := b[4], b[5], b[6];
    assert n / 0x100_0000 == b4;
    assert n / 0x1_0000 == b4 * 0x100 + b5;
    assert n / 0x100 == b4 * 0x1_0000 + b5 * 0x100 + b6;
    assert LengthBytes(n) == b[4..8];
    assert [b[0], 0, 0, 0] == b[..4];
    assert b == b[..4] + b[4..8] + b[8..8 + n] + b[8 + n..];
  }

  ghost predicate AlwaysReturns(listener: nat -> Reaction, n: nat) { forall k: nat :: k < n ==> listener(k) == Returns }

  /** Encoding frames and reading them is the identity, up to the frame at which the listener ends the reading. */
  lemma {:induction false} EncodedFramesAreRead(listener: nat -> Reaction, n: nat, fs: seq<Frame>, rest: seq<Byte>)
    requires forall f :: f in fs ==> IsFrame(f)
    requires AlwaysReturns(listener, n + |fs|)
    ensures Read(listener, n, EncodeAll(fs) + rest) == Continued(listener, n, Reading(fs, Open, []), rest)
    decreases |fs|
  {
    hide IsFrame, Encode, StartsWhole, FirstFrame, AfterFrame;
    assert [] + rest == rest;
    if fs == [] {
      assert EncodeAll(fs) + rest == rest;
      assert fs + Read(listener, n, rest).frames == Read(listener, n, rest).frames;
    } else {
      assert fs[0] in fs;
      var tail := EncodeAll(fs[1..]) + rest;
      assert EncodeAll(fs) + rest == Encode(fs[0]) + tail;
      EncodedStarts(fs[0], tail);
      EncodedFramesAreRead(listener, n + 1, fs[1..], rest);
      assert fs == [fs[0]] + fs[1..];
      ContinuedBehind(listener, n, fs[0], Reading(fs[1..], Open, []), rest);
    }
  }

  /** Behind whole frames the stream fails at the first header that is none (not stream 1 or 2, padding that is not zero, or a
      length above the bound), as soon as it has its eight bytes; the bytes of a frame that is not whole wait. */
  lemma ReadingStopsAt(listener: nat -> Reaction, fs: seq<Frame>, rest: seq<Byte>)
    requires forall f :: f in fs ==> IsFrame(f)
    requires AlwaysReturns(listener, |fs|)
    requires |rest| >= 8 ==> !IsHeader(rest) || ReadLength(rest) > MAX_ENGINE_FRAME_BYTES || |rest| < 8 + ReadLength(rest)
    ensures var r := Read(listener, 0, EncodeAll(fs) + rest);
            && r.frames == fs && r.rest == rest
            && r.outcome == (if |rest| < 8 then Open
                             else if (rest[0] != 1 && rest[0] != 2) || rest[1] != 0 || rest[2] != 0 || rest[3] != 0 then Failed(NotFramed)
                             else if ReadLength(rest) > 16 * 1024 * 1024 then Failed(TooLong)
                             else Open)
  {
    EncodedFramesAreRead(listener, 0, fs, rest);
    assert [] + rest == rest;
    var none: seq<Frame> := [];
    assert fs + none == fs;
    hide ReadLength, EncodeAll;
  }

  /** What is read is the encoding of the frames, in front of the rest. */
  lemma {:induction false} ReadBytesAreEncoded(listener: nat -> Reaction, n: nat, b: seq<Byte>)
    ensures var r := Read(listener, n, b);
            && (forall f :: f in r.frames ==> IsFrame(f))
            && EncodeAll(r.frames) + r.rest == b
            && (r.outcome == Open ==> forall k: nat :: n <= k < n + |r.frames| ==> listener(k) == Returns)
    decreases |b|
  {
    hide *;
    ReadIs(listener, n, b);
    NoFrames(b);
    if StartsWhole(b) {
      var f := FirstFrame(b);
      StartIsEncoded(b);
      EncodeMore(f, []);
      if listener(n) == Returns {
        ReadBytesAreEncoded(listener, n + 1, AfterFrame(b));
        var more := Read(listener, n + 1, AfterFrame(b));
        EncodeMore(f, more.frames);
        Associates(Encode(f), EncodeAll(more.frames), more.rest);
      }
    }
  }

  lemma ReadIs(listener: nat -> Reaction, n: nat, b: seq<Byte>)
    ensures var r := Read(listener, n, b);
            if !StartsWhole(b) then r.frames == [] && r.rest == b
            else if listener(n) == Returns then
              var more := Read(listener, n + 1, AfterFrame(b));
              r.frames == [FirstFrame(b)] + more.frames && r.rest == more.rest && r.outcome == more.outcome
            else r.frames == [FirstFrame(b)] && r.rest == AfterFrame(b) && r.outcome != Open
  {
    hide StartsWhole, FirstFrame, AfterFrame;
  }

  lemma NoFrames(b: seq<Byte>)
    ensures EncodeAll([]) + b == b && EncodeAll([]) == []
  {
    assert [] + b == b;
  }

  lemma EncodeMore(f: Frame, fs: seq<Frame>)
    requires IsFrame(f) && forall g :: g in fs ==> IsFrame(g)
    ensures EncodeAll([f] + fs) == Encode(f) + EncodeAll(fs)
    ensures fs == [] ==> [f] + fs == [f] && EncodeAll([f]) == Encode(f)
  {
    hide IsFrame, Encode;
    assert ([f] + fs)[1..] == fs;
    if fs == [] { assert Encode(f) + [] == Encode(f) && [f] + fs == [f]; }
  }

  /** What is left of an open stream holds no whole frame. */
  lemma {:induction false} RestIsNoFrame(listener: nat -> Reaction, n: nat, b: seq<Byte>)
    requires Read(listener, n, b).outcome == Open
    ensures Read(listener, n + |Read(listener, n, b).frames|, Read(listener, n, b).rest) == Reading([], Open, Read(listener, n, b).rest)
    decreases |b|
  {
    if StartsWhole(b) {
      hide StartsWhole, FirstFrame, AfterFrame;
      RestIsNoFrame(listener, n + 1, AfterFrame(b));
    }
  }

  /** Whatever ends the stream first decides how it settles, whatever the split of the bytes before it: what reading the whole bytes
      found, else the end (clean without a rest), the error or the close of the connection, or the abort. */
  lemma SettlesWith(listener: nat -> Reaction, head: seq<Byte>, chunks: seq<seq<Byte>>, ev: Event)
    requires !ev.Data?
    ensures var s := Next(listener, FeedAll(listener, Begin(listener, head, false), chunks), ev);
            var r := Read(listener, 0, head + Flatten(chunks));
            && s.delivered == r.frames
            && s.outcome == if r.outcome != Open then r.outcome
                            else match ev
                              case End => if r.rest == [] then Clean else Failed(MidFrame)
                              case Error => Failed(Broken)
                              case Close => Failed(ClosedEarly)
                              case Abort => Failed(Aborted)
  {
    hide Read, Begin, FeedAll, Flatten;
    ChunksDoNotMatter(listener, head, chunks);
    var before := FeedAll(listener, Begin(listener, head, false), chunks);
    if before.outcome == Open {
      RestIsNoFrame(listener, 0, head + Flatten(chunks));
      assert before.delivered + [] == before.delivered;
    }
  }

  /** A signal that was aborted before ends the stream behind the frames that came with the answer of the upgrade. */
  lemma AbortedBefore(listener: nat -> Reaction, head: seq<Byte>)
    ensures var s, r := Begin(listener, head, true), Read(listener, 0, head);
            s.delivered == r.frames && s.outcome == if r.outcome != Open then r.outcome else Failed(Aborted)
  {
    hide Read;
    assert [] + Read(listener, 0, head).frames == Read(listener, 0, head).frames;
  }

  /** The header of a frame: its stream, three zeros, and the length of its data in big-endian order. */
  lemma HeaderOf(f: Frame)
    requires (f.kind == 1 || f.kind == 2) && |f.data| <= 16_777_216
    ensures IsFrame(f)
    ensures var b := Encode(f);
            && |b| == 8 + |f.data| && b[..4] == [f.kind, 0, 0, 0] && b[8..] == f.data
            && 16_777_216 * b[4] as int + 65_536 * b[5] as int + 256 * b[6] as int + b[7] as int == |f.data|
  {
    var n := |f.data|;
    assert n == n / 0x100_0000 * 0x100_0000 + n / 0x1_0000 % 0x100 * 0x1_0000 + n / 0x100 % 0x100 * 0x100 + n % 0x100;
  }

  /** The stream ends cleanly exactly when its bytes are whole well-formed frames and nothing else, all of which the listener
      took; and then it got exactly these frames. */
  lemma CleanExactlyForWholeFrames(listener: nat -> Reaction, head: seq<Byte>, chunks: seq<seq<Byte>>, fs: seq<Frame>)
    requires forall f :: f in fs ==> IsFrame(f)
    ensures var s := Next(listener, FeedAll(listener, Begin(listener, head, false), chunks), End);
            s.outcome == Clean && s.delivered == fs <==> head + Flatten(chunks) == EncodeAll(fs) && AlwaysReturns(listener, |fs|)
  {
    hide Read, EncodeAll, FeedAll, Begin, Next;
    SettlesWith(listener, head, chunks, End);
    WholeFrames(listener, head + Flatten(chunks), fs);
    ReadOutcome(listener, 0, head + Flatten(chunks));
  }

  lemma WholeFrames(listener: nat -> Reaction, b: seq<Byte>, fs: seq<Frame>)
    requires forall f :: f in fs ==> IsFrame(f)
    ensures Read(listener, 0, b) == Reading(fs, Open, []) <==> b == EncodeAll(fs) && AlwaysReturns(listener, |fs|)
  {
    hide IsFrame, Read, EncodeAll;
    ReadBytesAreEncoded(listener, 0, b);
    assert EncodeAll(fs) + [] == EncodeAll(fs);
    var none: seq<Byte> := [];
    assert none + none == none;
    if AlwaysReturns(listener, |fs|) {
      EncodedFramesAreRead(listener, 0, fs, []);
      NothingToRead(listener, |fs|);
      assert fs + [] == fs;
    }
  }

  lemma NothingToRead(listener: nat -> Reaction, n: nat)
    ensures Read(listener, n, []) == Reading([], Open, [])
  {
  }

  lemma {:induction false} ReadOutcome(listener: nat -> Reaction, n: nat, b: seq<Byte>)
    ensures Read(listener, n, b).outcome != Clean
    decreases |b|
  {
    if StartsWhole(b) {
      ReadOutcome(listener, n + 1, AfterFrame(b));
    }
  }

  /** The frame at which the listener ends the reading is the last one that it gets: it throws, or it aborts the stream. */
  lemma {:induction false} ListenerEnds(listener: nat -> Reaction, n: nat, fs: seq<Frame>, rest: seq<Byte>, k: nat)
    requires (forall f :: f in fs ==> IsFrame(f)) && n <= k < n + |fs|
    requires listener(k) != Returns && forall j: nat :: n <= j < k ==> listener(j) == Returns
    ensures var r := Read(listener, n, EncodeAll(fs) + rest);
            r.frames == fs[..k - n + 1] && r.outcome == Failed(if listener(k) == Throws then ListenerFailed else Aborted)
    decreases |fs|
  {
    hide IsFrame, Encode, StartsWhole, FirstFrame, AfterFrame;
    assert fs[0] in fs;
    var tail := EncodeAll(fs[1..]) + rest;
    assert EncodeAll(fs) + rest == Encode(fs[0]) + tail;
    EncodedStarts(fs[0], tail);
    if k > n {
      ListenerEnds(listener, n + 1, fs[1..], rest, k);
      assert fs[..k - n + 1] == [fs[0]] + fs[1..][..k - n];
    } else {
      assert fs[..1] == [fs[0]];
    }
  }
}
