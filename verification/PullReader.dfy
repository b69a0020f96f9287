/** The reader of the answer of a pull (src/helperChannel/engineClient.ts): lines of JSON that come in chunks of text. */
module PullReader {
  import opened Seqs

  const MAX_HEAD: int := 2000

  /** What a line means: nothing (blank, or JSON that is no object), a text for the user (JSON of a progress, or the line
      itself when it is no JSON), or a failure of the pull. Which of them is up to the JSON parser, a parameter here. */
  datatype Meaning = Nothing | Text(text: string) | Failure(message: string)

  datatype Reader = Reader(pending: string, head: string, failure: Option<string>, shown: seq<string>)

  /** How a pull ends. */
  datatype Outcome = Pulled | Refused(message: string)

  // ---- The specification: the lines of the whole text ----

  function IndexOfNewline(text: string): (i: nat)
    ensures i <= |text|
    ensures i < |text| ==> text[i] == '\n'
  {
    if text == [] || text[0] == '\n' then 0 else 1 + IndexOfNewline(text[1..])
  }

  lemma {:induction false} IndexIsFirst(text: string)
    ensures forall j :: 0 <= j < IndexOfNewline(text) ==> text[j] != '\n'
  {
    if text != [] && text[0] != '\n' {
      IndexIsFirst(text[1..]);
      assert forall j :: 1 <= j < |text| ==> text[j] == text[1..][j - 1];
    }
  }

  /** The lines that a newline ends. */
  function Lines(text: string): seq<string>
    decreases |text|
  {
    var i := IndexOfNewline(text);
    if i == |text| then [] else [text[..i]] + Lines(text[i + 1..])
  }

  /** What is behind the last newline. */
  function Rest(text: string): string
    decreases |text|
  {
    var i := IndexOfNewline(text);
    if i == |text| then text else Rest(text[i + 1..])
  }

  function Join(lines: seq<string>, rest: string): string {
    if lines == [] then rest else lines[0] + "\n" + Join(lines[1..], rest)
  }

  predicate NoNewline(lines: seq<string>) { forall line :: line in lines ==> '\n' !in line }

  function Shown(meaning: string -> Meaning, lines: seq<string>): seq<string> {
    if lines == [] then []
    else
      var before, m := Shown(meaning, lines[..|lines| - 1]), meaning(lines[|lines| - 1]);
      if m.Text? then before + [m.text] else before
  }

  function FirstFailure(meaning: string -> Meaning, lines: seq<string>): Option<string> {
    if lines == [] then None
    else
      var before, m := FirstFailure(meaning, lines[..|lines| - 1]), meaning(lines[|lines| - 1]);
      if before == None && m.Failure? then Some(m.message) else before
  }

  function Prefix(text: string): string { if |text| <= MAX_HEAD then text else text[..MAX_HEAD] }

  /** The reader after a text, however it was cut. */
  function After(meaning: string -> Meaning, text: string): Reader {
    Reader(Rest(text), Prefix(text), FirstFailure(meaning, Lines(text)), Shown(meaning, Lines(text)))
  }

  /** The end of a pull: the first failure of any line (the one without a newline at the end counts too), or what the start
      of the answer says, unless the engine answered 200 and no line was a failure. */
  function PullEnd(meaning: string -> Meaning, messageOf: string -> string, text: string, status: int): Outcome {
    match FirstFailure(meaning, Lines(text) + [Rest(text)])
    case Some(message) => Refused(message)
    case None => if status != 200 then Refused(messageOf(Prefix(text))) else Pulled
  }

  // ---- Lines and texts ----

  lemma {:induction false} JoinLines(text: string)
    ensures Join(Lines(text), Rest(text)) == text && NoNewline(Lines(text)) && '\n' !in Rest(text)
    decreases |text|
  {
    hide IndexOfNewline;
    var i := IndexOfNewline(text);
    IndexIsFirst(text);
    if i < |text| {
      JoinLines(text[i + 1..]);
      assert text == text[..i] + "\n" + text[i + 1..];
      assert Lines(text)[1..] == Lines(text[i + 1..]);
    }
  }

  lemma FirstNewline(line: string, rest: string)
    requires '\n' !in line
    ensures IndexOfNewline(line + "\n" + rest) == |line|
  {
    var text := line + "\n" + rest;
    var i := IndexOfNewline(text);
    IndexIsFirst(text);
    assert text[|line|] == '\n';
    assert forall j :: 0 <= j < |line| ==> text[j] == line[j] && line[j] in line;
  }

  lemma NoNewlineToFind(rest: string)
    requires '\n' !in rest
    ensures IndexOfNewline(rest) == |rest|
  {
    assert forall j :: 0 <= j < |rest| ==> rest[j] in rest;
  }

  /** Lines without a newline come back from the text they make, whatever they hold. */
  lemma {:induction false} LinesOfJoin(lines: seq<string>, rest: string)
    requires NoNewline(lines) && '\n' !in rest
    ensures Lines(Join(lines, rest)) == lines && Rest(Join(lines, rest)) == rest
  {
    hide IndexOfNewline;
    if lines == [] {
      NoNewlineToFind(rest);
    } else {
      assert lines[0] in lines;
      var tail := Join(lines[1..], rest);
      FirstNewline(lines[0], tail);
      LinesOfJoin(lines[1..], rest);
      var text := lines[0] + "\n" + tail;
      assert text[..|lines[0]|] == lines[0] && text[|lines[0]| + 1..] == tail;
    }
  }

  /** The cut is the one way to read a text as lines without a newline in them and a rest without one. */
  lemma CutIsUnique(text: string, lines: seq<string>, rest: string)
    ensures Join(lines, rest) == text && NoNewline(lines) && '\n' !in rest <==> lines == Lines(text) && rest == Rest(text)
  {
    JoinLines(text);
    if NoNewline(lines) && '\n' !in rest {
      LinesOfJoin(lines, rest);
    }
  }

  lemma {:induction false} LinesOfMore(a: string, b: string)
    ensures Lines(a + b) == Lines(a) + Lines(Rest(a) + b) && Rest(a + b) == Rest(Rest(a) + b)
    decreases |a|
  {
    hide IndexOfNewline;
    var i := IndexOfNewline(a);
    if i < |a| {
      var line, tail := a[..i], a[i + 1..];
      CutOfMore(a, b);
      LinesOfMore(tail, b);
      CutAt(a);
      CutAt(a + b);
      hide Lines, Rest;
      Associates([line], Lines(tail), Lines(Rest(tail) + b));
    }
  }

  lemma CutAt(text: string)
    requires IndexOfNewline(text) < |text|
    ensures var i := IndexOfNewline(text);
            Lines(text) == [text[..i]] + Lines(text[i + 1..]) && Rest(text) == Rest(text[i + 1..])
  {
    hide IndexOfNewline;
  }

  lemma CutOfMore(a: string, b: string)
    requires IndexOfNewline(a) < |a|
    ensures IndexOfNewline(a + b) == IndexOfNewline(a)
    ensures var i := IndexOfNewline(a);
            (a + b)[..i] == a[..i] && (a + b)[i + 1..] == a[i + 1..] + b
  {
    var i := IndexOfNewline(a);
    IndexIsFirst(a);
    hide IndexOfNewline;
    assert a + b == a[..i] + "\n" + (a[i + 1..] + b);
    FirstNewline(a[..i], a[i + 1..] + b);
  }

  lemma {:induction false} FirstFailureOfMore(meaning: string -> Meaning, lines: seq<string>, line: string)
    ensures FirstFailure(meaning, lines + [line]) ==
              if FirstFailure(meaning, lines) == None && meaning(line).Failure? then Some(meaning(line).message)
              else FirstFailure(meaning, lines)
    ensures Shown(meaning, lines + [line]) ==
              if meaning(line).Text? then Shown(meaning, lines) + [meaning(line).text] else Shown(meaning, lines)
  {
    assert (lines + [line])[..|lines|] == lines;
  }

  /** The failure that the pull reports is that of the first line with one. */
  lemma {:induction false} FailureIsTheFirst(meaning: string -> Meaning, lines: seq<string>, k: nat)
    requires k < |lines| && meaning(lines[k]).Failure?
    requires forall j :: 0 <= j < k ==> !meaning(lines[j]).Failure?
    ensures FirstFailure(meaning, lines) == Some(meaning(lines[k]).message)
  {
    var last := |lines| - 1;
    if k < last {
      FailureIsTheFirst(meaning, lines[..last], k);
    } else {
      NoFailure(meaning, lines[..last]);
    }
  }

  lemma {:induction false} NoFailure(meaning: string -> Meaning, lines: seq<string>)
    ensures FirstFailure(meaning, lines) == None <==> forall j :: 0 <= j < |lines| ==> !meaning(lines[j]).Failure?
  {
    if lines != [] {
      NoFailure(meaning, lines[..|lines| - 1]);
      assert forall j :: 0 <= j < |lines| - 1 ==> lines[..|lines| - 1][j] == lines[j];
    }
  }

  // ---- The code ----

  class PullReader {
    const meaning: string -> Meaning
    var pending: string
    var head: string
    var failure: Option<string>
    var shown: seq<string>
    /** All the text so far. */
    ghost var received: string

    ghost predicate Valid()
      reads this
    {
      Reader(pending, head, failure, shown) == After(meaning, received)
    }

    constructor (meaning: string -> Meaning)
      ensures Valid() && received == [] && this.meaning == meaning
    {
      this.meaning := meaning;
      pending, head, failure, shown, received := [], [], None, [], [];
    }

    method HandleLine(line: string)
      modifies this`failure, this`shown
      ensures failure == if old(failure) == None && meaning(line).Failure? then Some(meaning(line).message) else old(failure)
      ensures shown == if meaning(line).Text? then old(shown) + [meaning(line).text] else old(shown)
    {
      match meaning(line)
      case Nothing =>
      case Text(text) => shown := shown + [text];
      case Failure(message) => if failure == None { failure := Some(message); }
    }

    method KeepHead(chunk: string)
      requires head == Prefix(received)
      modifies this`head
      ensures head == Prefix(received + chunk)
    {
      if |head| < MAX_HEAD {
        var room := MAX_HEAD - |head|;
        head := head + if |chunk| <= room then chunk else chunk[..room];
      }
    }

    method OnChunk(chunk: string)
      requires Valid()
      modifies this
      ensures Valid() && received == old(received) + chunk
    {
      KeepHead(chunk);
      pending := pending + chunk;
      received := received + chunk;
      ghost var handled := Lines(old(received));
      LinesOfMore(old(received), chunk);
      assert IsSoFar(meaning, received, handled, pending, failure, shown);
      hide Prefix, IsSoFar, Lines, Rest, Shown, FirstFailure, IndexOfNewline;
      var newline := IndexOfNewline(pending);
      while newline < |pending|
        invariant newline == IndexOfNewline(pending)
        invariant IsSoFar(meaning, received, handled, pending, failure, shown)
        invariant received == old(received) + chunk && head == Prefix(received)
        decreases |pending|
      {
        ghost var line := pending[..newline];
        SoFarStep(meaning, received, handled, pending, failure, shown);
        HandleLine(pending[..newline]);
        handled := handled + [line];
        pending := pending[newline + 1..];
        newline := IndexOfNewline(pending);
      }
      SoFarEnd(meaning, received, handled, pending, failure, shown);
    }
  }

  /** The lines that were handled, and those of what is pending, are the lines of the text. */
  ghost predicate IsSoFar(meaning: string -> Meaning, text: string, handled: seq<string>, pending: string,
                          failure: Option<string>, shown: seq<string>) {
    && handled + Lines(pending) == Lines(text) && Rest(pending) == Rest(text)
    && failure == FirstFailure(meaning, handled) && shown == Shown(meaning, handled)
  }

  lemma SoFarStep(meaning: string -> Meaning, text: string, handled: seq<string>, pending: string,
                  failure: Option<string>, shown: seq<string>)
    requires IsSoFar(meaning, text, handled, pending, failure, shown) && IndexOfNewline(pending) < |pending|
    ensures var i := IndexOfNewline(pending);
            var line := pending[..i];
            IsSoFar(meaning, text, handled + [line], pending[i + 1..],
                    if failure == None && meaning(line).Failure? then Some(meaning(line).message) else failure,
                    if meaning(line).Text? then shown + [meaning(line).text] else shown)
  {
    hide Lines, Rest, Shown, FirstFailure, IndexOfNewline;
    TakeLine(pending, handled);
    FirstFailureOfMore(meaning, handled, pending[..IndexOfNewline(pending)]);
  }

  lemma SoFarEnd(meaning: string -> Meaning, text: string, handled: seq<string>, pending: string,
                 failure: Option<string>, shown: seq<string>)
    requires IsSoFar(meaning, text, handled, pending, failure, shown) && IndexOfNewline(pending) == |pending|
    ensures pending == Rest(text) && failure == FirstFailure(meaning, Lines(text)) && shown == Shown(meaning, Lines(text))
  {
    hide Lines, Rest, Shown, FirstFailure, IndexOfNewline;
    NothingToTake(pending);
  }

  lemma NothingToTake(pending: string)
    requires IndexOfNewline(pending) == |pending|
    ensures Lines(pending) == [] && Rest(pending) == pending && forall handled: seq<string> :: handled + Lines(pending) == handled
  {
    hide IndexOfNewline;
  }

  lemma TakeLine(pending: string, handled: seq<string>)
    requires IndexOfNewline(pending) < |pending|
    ensures var i := IndexOfNewline(pending);
            && handled + Lines(pending) == handled + [pending[..i]] + Lines(pending[i + 1..])
            && Rest(pending) == Rest(pending[i + 1..])
  {
    hide IndexOfNewline;
    var i := IndexOfNewline(pending);
    CutAt(pending);
    hide Lines, Rest;
    Associates(handled, [pending[..i]], Lines(pending[i + 1..]));
  }

  /** The pull of an image: whatever the chunks of the answer are, what the user sees and how the pull ends is what the whole
      text says. */
  method PullImage(meaning: string -> Meaning, messageOf: string -> string, chunks: seq<string>, status: int)
    returns (shown: seq<string>, end: Outcome)
    ensures var text := Flatten(chunks);
            shown == Shown(meaning, Lines(text) + [Rest(text)]) && end == PullEnd(meaning, messageOf, text, status)
  {
    var reader := new PullReader(meaning);
    for i := 0 to |chunks|
      invariant reader.Valid() && reader.meaning == meaning && reader.received == Flatten(chunks[..i])
    {
      assert chunks[..i + 1][..i] == chunks[..i];
      reader.OnChunk(chunks[i]);
    }
    assert chunks[..|chunks|] == chunks;
    ghost var text := Flatten(chunks);
    FirstFailureOfMore(meaning, Lines(text), Rest(text));
    reader.HandleLine(reader.pending);
    shown := reader.shown;
    match reader.failure {
      case Some(message) => end := Refused(message);
      case None => end := if status != 200 then Refused(messageOf(reader.head)) else Pulled;
    }
  }

  /** A pull whose answer holds these lines, cut in whatever way, ends with the failure of the first of them that has one. */
  lemma FirstFailureEndsThePull(meaning: string -> Meaning, messageOf: string -> string, lines: seq<string>, rest: string,
                           chunks: seq<string>, status: int, k: nat)
    requires NoNewline(lines) && '\n' !in rest && Flatten(chunks) == Join(lines, rest)
    requires k <= |lines|
    requires meaning((lines + [rest])[k]).Failure? && forall j :: 0 <= j < k ==> !meaning(lines[j]).Failure?
    ensures PullEnd(meaning, messageOf, Flatten(chunks), status) == Refused(meaning((lines + [rest])[k]).message)
  {
    LinesOfJoin(lines, rest);
    FailureIsTheFirst(meaning, lines + [rest], k);
  }

  /** Without a failing line only the status decides: the pull is done with 200, else it ends with what the first two thousand characters
      of the answer say. */
  lemma StatusEndsThePull(meaning: string -> Meaning, messageOf: string -> string, lines: seq<string>, rest: string,
                          chunks: seq<string>, status: int)
    requires NoNewline(lines) && '\n' !in rest && Flatten(chunks) == Join(lines, rest)
    requires forall line :: line in lines + [rest] ==> !meaning(line).Failure?
    ensures var text := Flatten(chunks);
            PullEnd(meaning, messageOf, text, status) ==
              if status == 200 then Pulled else Refused(messageOf(if |text| < 2000 then text else text[..2000]))
  {
    LinesOfJoin(lines, rest);
    var all := lines + [rest];
    assert forall j :: 0 <= j < |all| ==> all[j] in all;
    NoFailure(meaning, all);
    assert |Flatten(chunks)| == 2000 ==> Flatten(chunks)[..2000] == Flatten(chunks);
  }

  /** What a line shows, as a list. */
  function ShownOf(meaning: string -> Meaning): string -> seq<string> {
    (line: string) => match meaning(line) case Text(text) => [text] case _ => []
  }

  /** The user sees the texts of the lines, in their order. */
  lemma {:induction false} ShownAre(meaning: string -> Meaning, lines: seq<string>)
    ensures Shown(meaning, lines) == Flatten(Map(ShownOf(meaning), lines))
  {
    if lines != [] {
      var init, last := lines[..|lines| - 1], lines[|lines| - 1];
      ShownAre(meaning, init);
      assert lines == init + [last];
      MapSnoc(ShownOf(meaning), init, last);
      var each := Map(ShownOf(meaning), init);
      assert (each + [ShownOf(meaning)(last)])[..|each|] == each;
    }
  }
}
