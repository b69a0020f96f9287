/** The strip of comments and trailing commas from the text of a devcontainer.json (src/core/jsonc.ts). */
module Jsonc {
  import opened Seqs

  /** The whitespace of `\s`. */
  predicate IsSpace(c: char) {
    c in "\t\n\U{0B}\U{0C}\r \U{A0}\U{1680}\U{2000}\U{2001}\U{2002}\U{2003}\U{2004}\U{2005}\U{2006}\U{2007}\U{2008}\U{2009}\U{200A}\U{2028}\U{2029}\U{202F}\U{205F}\U{3000}\U{FEFF}"
  }

  predicate IsClosing(c: char) { c == '}' || c == ']' }

  predicate OpensLine(s: string) { |s| >= 2 && s[0] == '/' && s[1] == '/' }

  predicate OpensBlock(s: string) { |s| >= 2 && s[0] == '/' && s[1] == '*' }

  predicate ClosesBlock(s: string) { |s| >= 2 && s[0] == '*' && s[1] == '/' }

  // ---- The specification, on the rest of the text ----

  /** The characters of a string literal behind its opening quote, with the closing one (all there are without one). */
  function StringLength(s: string): (n: nat)
    ensures n <= |s|
  {
    if s == "" then 0
    else if s[0] == '"' then 1
    else if s[0] == '\\' then (if |s| == 1 then 1 else 2 + StringLength(s[2..]))
    else 1 + StringLength(s[1..])
  }

  function LineLength(s: string): (n: nat)
    ensures n <= |s|
  {
    if s == "" || s[0] == '\n' then 0 else 1 + LineLength(s[1..])
  }

  /** The characters of a block comment behind its opening, with the closing ones. */
  function BlockLength(s: string): (n: nat)
    ensures n <= |s|
  {
    if s == "" then 0 else if ClosesBlock(s) then 2 else 1 + BlockLength(s[1..])
  }

  function AfterLine(s: string): (r: string)
    requires OpensLine(s)
    ensures |r| < |s|
  {
    assert LineLength(s) == 1 + LineLength(s[1..]);
    s[LineLength(s)..]
  }

  function AfterBlock(s: string): (r: string)
    requires OpensBlock(s)
    ensures |r| < |s|
  {
    s[2..][BlockLength(s[2..])..]
  }

  /** The text behind whitespace and comments. */
  function SkipGap(s: string): string
    decreases |s|
  {
    if s == "" then s
    else if IsSpace(s[0]) then SkipGap(s[1..])
    else if OpensLine(s) then SkipGap(AfterLine(s))
    else if OpensBlock(s) then SkipGap(AfterBlock(s))
    else s
  }

  predicate ClosingFollows(s: string) { SkipGap(s) != "" && IsClosing(SkipGap(s)[0]) }

  function Strip(s: string): string
    decreases |s|
  {
    if s == "" then ""
    else if s[0] == '"' then
      var n := 1 + StringLength(s[1..]);
      s[..n] + Strip(s[n..])
    else if OpensLine(s) then Strip(AfterLine(s))
    else if OpensBlock(s) then Strip(AfterBlock(s))
    else if s[0] == ',' && ClosingFollows(s[1..]) then Strip(s[1..])
    else [s[0]] + Strip(s[1..])
  }

  // ---- The code ----

  /** The rest of the text at an index that may lie behind its end, as the indexes of the loops may. */
  function Rest(text: string, i: nat): string { if i <= |text| then text[i..] else "" }

  method SkipString(text: string, start: nat) returns (i: nat)
    requires start < |text| && text[start] == '"'
    ensures start < i <= |text| + 2
    ensures (if i <= |text| then i else |text|) == start + 1 + StringLength(text[start + 1..])
  {
    i := start + 1;
    while i < |text| && text[i] != '"'
      invariant start < i <= |text| + 1
      invariant i <= |text| ==> start + 1 + StringLength(text[start + 1..]) == i + StringLength(text[i..])
      invariant i > |text| ==> start + 1 + StringLength(text[start + 1..]) == |text|
    {
      if text[i] == '\\' {
        assert i + 2 <= |text| ==> text[i..][2..] == text[i + 2..];
        i := i + 1;
      } else {
        assert text[i..][1..] == text[i + 1..];
      }
      i := i + 1;
    }
    i := i + 1;
  }

  method SkipLine(text: string, start: nat) returns (i: nat)
    requires start <= |text| && OpensLine(text[start..])
    ensures start < i <= |text| && text[i..] == AfterLine(text[start..])
  {
    i := start;
    while i < |text| && text[i] != '\n'
      invariant start <= i <= |text|
      invariant LineLength(text[start..]) == i - start + LineLength(text[i..])
    {
      assert text[i..][1..] == text[i + 1..];
      i := i + 1;
    }
    assert text[start..][i - start..] == text[i..];
    assert LineLength(text[start..]) == 1 + LineLength(text[start..][1..]);
  }

  method SkipBlock(text: string, start: nat) returns (i: nat)
    requires start <= |text| && OpensBlock(text[start..])
    ensures start < i <= |text| + 2 && Rest(text, i) == AfterBlock(text[start..])
  {
    i := start + 2;
    assert text[start..][2..] == text[start + 2..];
    while i < |text| && !(text[i] == '*' && i + 1 < |text| && text[i + 1] == '/')
      invariant start + 2 <= i <= |text|
      invariant BlockLength(text[start + 2..]) == i - (start + 2) + BlockLength(text[i..])
    {
      assert text[i..][1..] == text[i + 1..];
      i := i + 1;
    }
    ghost var n := BlockLength(text[start + 2..]);
    assert text[start + 2..][n..] == text[start + 2 + n..];
    i := i + 2;
  }

  /** The look ahead behind a comma, over whitespace and comments. */
  method LookAhead(text: string, start: nat) returns (closes: bool)
    requires start <= |text|
    ensures closes == ClosingFollows(text[start..])
  {
    hide IsSpace, AfterLine, AfterBlock;
    var j := start;
    while true
      invariant SkipGap(Rest(text, j)) == SkipGap(text[start..])
      invariant start <= j <= |text| + 2
      decreases |text| + 2 - j
    {
      while j < |text| && IsSpace(text[j])
        invariant SkipGap(Rest(text, j)) == SkipGap(text[start..])
        invariant start <= j <= |text| + 2
      {
        assert text[j..][1..] == text[j + 1..];
        j := j + 1;
      }
      if j + 1 < |text| && text[j] == '/' && text[j + 1] == '/' {
        j := SkipLine(text, j);
        continue;
      }
      if j + 1 < |text| && text[j] == '/' && text[j + 1] == '*' {
        j := SkipBlock(text, j);
        continue;
      }
      break;
    }
    closes := j < |text| && IsClosing(text[j]);
  }

  /** One step of the strip at an index, by the characters there. */
  lemma StripAt(text: string, i: nat)
    requires i < |text|
    ensures OpensLine(text[i..]) <==> i + 1 < |text| && text[i] == '/' && text[i + 1] == '/'
    ensures OpensBlock(text[i..]) <==> i + 1 < |text| && text[i] == '/' && text[i + 1] == '*'
    ensures text[i] == '"' ==>
              var end := i + 1 + StringLength(text[i + 1..]);
              end <= |text| && Strip(text[i..]) == text[i..end] + Strip(text[end..])
    ensures text[i] != '"' && OpensLine(text[i..]) ==> Strip(text[i..]) == Strip(AfterLine(text[i..]))
    ensures text[i] != '"' && OpensBlock(text[i..]) ==> Strip(text[i..]) == Strip(AfterBlock(text[i..]))
    ensures text[i] != '"' && !OpensLine(text[i..]) && !OpensBlock(text[i..]) ==>
              Strip(text[i..]) == if text[i] == ',' && ClosingFollows(text[i + 1..]) then Strip(text[i + 1..])
                                  else [text[i]] + Strip(text[i + 1..])
  {
    hide SkipGap, StringLength, LineLength, BlockLength, AfterLine, AfterBlock, ClosingFollows;
    var rest := text[i..];
    assert rest[0] == text[i] && rest[1..] == text[i + 1..];
    if text[i] == '"' {
      var n := 1 + StringLength(rest[1..]);
      assert rest[..n] == text[i..i + n] && rest[n..] == text[i + n..];
    }
  }

  method StripJsonc(text: string) returns (result: string)
    ensures result == Strip(text)
  {
    hide Strip, SkipGap, StringLength, LineLength, BlockLength, AfterLine, AfterBlock, ClosingFollows, OpensLine, OpensBlock;
    result := "";
    var i := 0;
    assert Rest(text, 0) == text;
    while i < |text|
      invariant result + Strip(Rest(text, i)) == Strip(text)
      decreases |text| - i
    {
      var c := text[i];
      StripAt(text, i);
      if c == '"' {
        var start := i;
        i := SkipString(text, i);
        var end := if i <= |text| then i else |text|;
        assert Rest(text, i) == text[end..];
        Associates(result, text[start..end], Strip(text[end..]));
        result := result + text[start..end];
        continue;
      }
      if c == '/' && i + 1 < |text| && text[i + 1] == '/' {
        i := SkipLine(text, i);
        continue;
      }
      if c == '/' && i + 1 < |text| && text[i + 1] == '*' {
        i := SkipBlock(text, i);
        continue;
      }
      if c == ',' {
        var closes := LookAhead(text, i + 1);
        if closes {
          i := i + 1;
          continue;
        }
      }
      Associates(result, [c], Strip(text[i + 1..]));
      result := result + [c];
      i := i + 1;
    }
    StripNothing(text, i, result);
  }

  lemma StripNothing(text: string, i: nat, result: string)
    requires i >= |text|
    ensures result + Strip(Rest(text, i)) == result
  {
  }
}
