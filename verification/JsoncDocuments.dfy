/** What the strip means for documents: JSON values (sections 2 and 7 of RFC 8259) printed with any whitespace and comments
    between the tokens, and with trailing commas. */
module JsoncDocuments {
  import opened Jsonc

  /** A piece of a text: a character of whitespace, a comment, a string literal (with its escapes), a comma, or any other
      character of a token. */
  datatype Piece = Space(c: char) | Line(body: string) | Block(body: string) | Str(body: string) | Other(c: char) | Comma

  function Print(p: Piece): string {
    match p
    case Space(c) => [c]
    case Line(body) => "//" + body
    case Block(body) => "/*" + body + "*/"
    case Str(body) => "\"" + body + "\""
    case Other(c) => [c]
    case Comma => ","
  }

  function PrintAll(doc: seq<Piece>): string {
    if doc == [] then "" else Print(doc[0]) + PrintAll(doc[1..])
  }

  /** A quote only behind a backslash, and no backslash at the end. */
  predicate IsStringBody(b: string) {
    if b == "" then true
    else if b[0] == '"' then false
    else if b[0] == '\\' then |b| >= 2 && IsStringBody(b[2..])
    else IsStringBody(b[1..])
  }

  predicate IsPiece(p: Piece) {
    match p
    case Space(c) => IsSpace(c)
    case Line(body) => '\n' !in body
    case Block(body) => forall k :: 0 <= k < |body| - 1 ==> !(body[k] == '*' && body[k + 1] == '/')
    case Str(body) => IsStringBody(body)
    case Other(c) => c != '"' && c != ',' && c != '/' && !IsSpace(c)
    case Comma => true
  }

  /** A text of pieces; a line comment ends at a line break or at the end of the text. */
  predicate WellFormed(doc: seq<Piece>) {
    doc == [] || (
      && IsPiece(doc[0])
      && (doc[0].Line? && |doc| > 1 ==> doc[1] == Space('\n'))
      && WellFormed(doc[1..]))
  }

  predicate IsGap(p: Piece) { p.Space? || p.Line? || p.Block? }

  predicate IsComment(p: Piece) { p.Line? || p.Block? }

  function AfterGap(doc: seq<Piece>): seq<Piece> {
    if doc != [] && IsGap(doc[0]) then AfterGap(doc[1..]) else doc
  }

  predicate StartsClosing(doc: seq<Piece>) { doc != [] && doc[0].Other? && IsClosing(doc[0].c) }

  /** The document without its comments and without each comma that only whitespace and comments part from a closing bracket. */
  function StripDoc(doc: seq<Piece>): seq<Piece> {
    if doc == [] then []
    else if IsComment(doc[0]) || (doc[0].Comma? && StartsClosing(AfterGap(doc[1..]))) then StripDoc(doc[1..])
    else [doc[0]] + StripDoc(doc[1..])
  }

  // ---- The pieces and the text ----

  lemma {:induction false} StringEnds(b: string, rest: string)
    requires IsStringBody(b)
    ensures StringLength(b + "\"" + rest) == |b| + 1
  {
    var s := b + "\"" + rest;
    if b == "" {
      assert s[0] == '"';
    } else if b[0] == '\\' {
      StringEnds(b[2..], rest);
      assert s[2..] == b[2..] + "\"" + rest;
    } else {
      StringEnds(b[1..], rest);
      assert s[1..] == b[1..] + "\"" + rest;
    }
  }

  lemma {:induction false} LineEnds(b: string, rest: string)
    requires '\n' !in b && (rest == "" || rest[0] == '\n')
    ensures LineLength(b + rest) == |b|
  {
    if b == "" {
      assert b + rest == rest;
    } else {
      assert b[0] in b;
      LineEnds(b[1..], rest);
      assert (b + rest)[1..] == b[1..] + rest;
    }
  }

  lemma {:induction false} BlockEnds(b: string, rest: string)
    requires IsPiece(Block(b))
    ensures BlockLength(b + "*/" + rest) == |b| + 2
  {
    var s := b + "*/" + rest;
    if b != "" {
      assert IsPiece(Block(b[1..])) by {
        forall k | 0 <= k < |b| - 2
          ensures !(b[1..][k] == '*' && b[1..][k + 1] == '/')
        {
          assert b[1..][k] == b[k + 1];
        }
      }
      BlockEnds(b[1..], rest);
      assert s[1..] == b[1..] + "*/" + rest;
      assert |b| == 1 ==> s[1] == '*';
      assert !ClosesBlock(s);
    }
  }

  lemma CommentEnds(p: Piece, rest: string)
    requires IsPiece(p) && IsComment(p) && (p.Line? ==> rest == "" || rest[0] == '\n')
    ensures p.Line? ==> OpensLine(Print(p) + rest) && AfterLine(Print(p) + rest) == rest
    ensures p.Block? ==> OpensBlock(Print(p) + rest) && AfterBlock(Print(p) + rest) == rest
    ensures !IsSpace((Print(p) + rest)[0]) && (Print(p) + rest)[0] != '"'
  {
    var s := Print(p) + rest;
    if p.Line? {
      LineEnds("//" + p.body, rest);
    } else {
      BlockEnds(p.body, rest);
      assert s[2..] == p.body + "*/" + rest;
    }
  }

  lemma RestStarts(doc: seq<Piece>)
    requires WellFormed(doc) && doc != [] && doc[0].Line?
    ensures PrintAll(doc[1..]) == "" || PrintAll(doc[1..])[0] == '\n'
  {
  }

  lemma {:induction false} GapIsSkipped(doc: seq<Piece>)
    requires WellFormed(doc)
    ensures SkipGap(PrintAll(doc)) == PrintAll(AfterGap(doc))
  {
    if doc != [] {
      var p, rest := doc[0], PrintAll(doc[1..]);
      var s := Print(p) + rest;
      if IsComment(p) {
        if p.Line? { RestStarts(doc); }
        CommentEnds(p, rest);
        GapIsSkipped(doc[1..]);
        hide AfterLine, AfterBlock, IsSpace;
      } else if p.Space? {
        assert s[1..] == rest;
        GapIsSkipped(doc[1..]);
        hide IsSpace;
      } else {
        NoGapStarts(p, rest);
        hide IsSpace;
      }
    }
  }

  lemma NoGapStarts(p: Piece, rest: string)
    requires IsPiece(p) && !IsGap(p)
    ensures Print(p) + rest != "" && !IsSpace((Print(p) + rest)[0]) && (Print(p) + rest)[0] != '/'
  {
  }

  lemma ClosingIsSeen(doc: seq<Piece>)
    requires WellFormed(doc)
    ensures ClosingFollows(PrintAll(doc)) == StartsClosing(AfterGap(doc))
  {
    GapIsSkipped(doc);
    var next := AfterGap(doc);
    AfterGapStarts(doc);
    hide IsSpace, SkipGap;
  }

  lemma {:induction false} AfterGapStarts(doc: seq<Piece>)
    requires WellFormed(doc)
    ensures AfterGap(doc) != [] ==> IsPiece(AfterGap(doc)[0]) && !IsGap(AfterGap(doc)[0])
  {
    if doc != [] {
      AfterGapStarts(doc[1..]);
    }
  }

  lemma StripComment(p: Piece, rest: string)
    requires IsPiece(p) && IsComment(p) && (p.Line? ==> rest == "" || rest[0] == '\n')
    ensures Strip(Print(p) + rest) == Strip(rest)
  {
    CommentEnds(p, rest);
    hide IsSpace, AfterLine, AfterBlock, ClosingFollows;
  }

  lemma StripString(body: string, rest: string)
    requires IsStringBody(body)
    ensures Strip(Print(Str(body)) + rest) == Print(Str(body)) + Strip(rest)
  {
    var s := Print(Str(body)) + rest;
    StringEnds(body, rest);
    hide StringLength, AfterLine, AfterBlock, ClosingFollows;
    assert s[1..] == body + "\"" + rest;
    assert s[..|body| + 2] == Print(Str(body)) && s[|body| + 2..] == rest;
  }

  lemma StripCharacter(c: char, rest: string)
    requires c != '"' && c != '/' && (c != ',' || !ClosingFollows(rest))
    ensures Strip([c] + rest) == [c] + Strip(rest)
  {
    hide AfterLine, AfterBlock, ClosingFollows;
    assert ([c] + rest)[1..] == rest;
  }

  lemma StripTrailing(rest: string)
    requires ClosingFollows(rest)
    ensures Strip("," + rest) == Strip(rest)
  {
    hide AfterLine, AfterBlock, ClosingFollows;
    assert ("," + rest)[1..] == rest;
  }

  /** The strip of a printed document is the stripped document printed: exactly the comments and the trailing commas are
      gone, every other piece, every string literal among them, is there unchanged and in order. */
  lemma {:induction false} StripPrints(doc: seq<Piece>)
    requires WellFormed(doc)
    ensures Strip(PrintAll(doc)) == PrintAll(StripDoc(doc))
  {
    if doc != [] {
      var p, rest := doc[0], PrintAll(doc[1..]);
      StripPrints(doc[1..]);
      if !(IsComment(p) || (p.Comma? && StartsClosing(AfterGap(doc[1..])))) {
        KeptPiece(doc);
      }
      match p {
        case Line(_) =>
          RestStarts(doc);
          StripComment(p, rest);
        case Block(_) => StripComment(p, rest);
        case Str(body) => StripString(body, rest);
        case Comma =>
          ClosingIsSeen(doc[1..]);
          if ClosingFollows(rest) { StripTrailing(rest); } else { StripCharacter(',', rest); }
        case Space(c) =>
          SpaceIsPlain(c);
          StripCharacter(c, rest);
        case Other(c) => StripCharacter(c, rest);
      }
      hide IsSpace, Strip, ClosingFollows, IsStringBody;
    }
  }

  lemma SpaceIsPlain(c: char)
    requires IsSpace(c)
    ensures c != '"' && c != '/' && c != ','
  {
  }

  lemma KeptPiece(doc: seq<Piece>)
    requires doc != [] && StripDoc(doc) == [doc[0]] + StripDoc(doc[1..])
    ensures PrintAll(StripDoc(doc)) == Print(doc[0]) + PrintAll(StripDoc(doc[1..]))
  {
    assert ([doc[0]] + StripDoc(doc[1..]))[1..] == StripDoc(doc[1..]);
  }

  // ---- Tokens ----

  function Tokens(doc: seq<Piece>): seq<Piece> {
    if doc == [] then []
    else if IsGap(doc[0]) then Tokens(doc[1..])
    else [doc[0]] + Tokens(doc[1..])
  }

  /** The tokens without each comma right before a closing bracket. */
  function DropTrailing(tokens: seq<Piece>): seq<Piece> {
    if tokens == [] then []
    else if tokens[0].Comma? && StartsClosing(tokens[1..]) then DropTrailing(tokens[1..])
    else [tokens[0]] + DropTrailing(tokens[1..])
  }

  lemma {:induction false} TokensAfterGap(doc: seq<Piece>)
    ensures StartsClosing(AfterGap(doc)) == StartsClosing(Tokens(doc))
  {
    if doc != [] && IsGap(doc[0]) {
      TokensAfterGap(doc[1..]);
    }
  }

  /** A stripped document has no comments, and its tokens are those of the document without the trailing commas. */
  lemma {:induction false} StrippedTokens(doc: seq<Piece>)
    ensures Tokens(StripDoc(doc)) == DropTrailing(Tokens(doc))
    ensures forall p :: p in StripDoc(doc) ==> !IsComment(p) && p in doc
  {
    if doc != [] {
      StrippedTokens(doc[1..]);
      TokensAfterGap(doc[1..]);
      var kept := StripDoc(doc[1..]);
      assert ([doc[0]] + kept)[1..] == kept;
      if !IsGap(doc[0]) {
        assert ([doc[0]] + Tokens(doc[1..]))[1..] == Tokens(doc[1..]);
      }
    }
  }

  // ---- JSON values ----

  /** A value: a string, another scalar by its characters, an array, or an object; `trailing`: a comma after the last entry. */
  datatype Json =
    | Text(body: string)
    | Scalar(chars: seq<char>)
    | Arr(items: Items, trailing: bool)
    | Obj(members: Members, trailing: bool)

  datatype Items = NoItems | Item(value: Json, more: Items)

  datatype Members = NoMembers | Member(name: string, value: Json, more: Members)

  ghost predicate IsJson(v: Json) {
    match v
    case Text(_) => true
    case Scalar(chars) => chars != [] && forall c :: c in chars ==> !IsClosing(c)
    case Arr(items, _) => AreItems(items)
    case Obj(members, _) => AreMembers(members)
  }

  ghost predicate AreItems(items: Items) { items.Item? ==> IsJson(items.value) && AreItems(items.more) }

  ghost predicate AreMembers(members: Members) { members.Member? ==> IsJson(members.value) && AreMembers(members.more) }

  function Chars(chars: seq<char>): seq<Piece> {
    if chars == [] then [] else [Other(chars[0])] + Chars(chars[1..])
  }

  function TokensOf(v: Json): seq<Piece> {
    match v
    case Text(body) => [Str(body)]
    case Scalar(chars) => Chars(chars)
    case Arr(items, trailing) => [Other('[')] + ItemTokens(items) + (if trailing && items.Item? then [Comma] else []) + [Other(']')]
    case Obj(members, trailing) => [Other('{')] + MemberTokens(members) + (if trailing && members.Member? then [Comma] else []) + [Other('}')]
  }

  function ItemTokens(items: Items): seq<Piece> {
    match items
    case NoItems => []
    case Item(v, more) => if more.Item? then TokensOf(v) + ([Comma] + ItemTokens(more)) else TokensOf(v)
  }

  function MemberTokens(members: Members): seq<Piece> {
    match members
    case NoMembers => []
    case Member(name, v, more) =>
      var entry := [Str(name), Other(':')] + TokensOf(v);
      if more.Member? then entry + ([Comma] + MemberTokens(more)) else entry
  }

  /** The same value without any trailing comma. */
  function Plain(v: Json): Json {
    match v
    case Text(_) => v
    case Scalar(_) => v
    case Arr(items, _) => Arr(PlainItems(items), false)
    case Obj(members, _) => Obj(PlainMembers(members), false)
  }

  function PlainItems(items: Items): Items {
    match items
    case NoItems => NoItems
    case Item(v, more) => Item(Plain(v), PlainItems(more))
  }

  function PlainMembers(members: Members): Members {
    match members
    case NoMembers => NoMembers
    case Member(name, v, more) => Member(name, Plain(v), PlainMembers(more))
  }

  /** Token lists that neither start with a closing bracket nor end with a comma, so they can be put together. */
  predicate IsSolid(tokens: seq<Piece>) {
    tokens != [] && !StartsClosing(tokens) && !tokens[|tokens| - 1].Comma?
  }

  lemma {:induction false} DropAppend(a: seq<Piece>, b: seq<Piece>)
    requires a == [] || !a[|a| - 1].Comma? || !StartsClosing(b)
    ensures DropTrailing(a + b) == DropTrailing(a) + DropTrailing(b)
  {
    if a == [] {
      assert a + b == b;
    } else {
      DropAppend(a[1..], b);
      assert (a + b)[1..] == a[1..] + b;
      assert |a| == 1 ==> a[1..] + b == b;
    }
  }

  lemma {:induction false} CharsStay(chars: seq<char>)
    ensures DropTrailing(Chars(chars)) == Chars(chars)
    ensures |Chars(chars)| == |chars| && forall k :: 0 <= k < |chars| ==> Chars(chars)[k] == Other(chars[k])
  {
    if chars != [] {
      CharsStay(chars[1..]);
      assert Chars(chars)[1..] == Chars(chars[1..]);
    }
  }

  lemma Single(p: Piece)
    requires !p.Comma?
    ensures DropTrailing([p]) == [p]
  {
  }

  /** The brackets around the entries, with or without the trailing comma. */
  lemma Bracketed(open: char, entries: seq<Piece>, plain: seq<Piece>, trailing: bool, close: char)
    requires IsClosing(close) && !IsClosing(open)
    requires entries == [] || IsSolid(entries)
    requires DropTrailing(entries) == plain
    ensures DropTrailing([Other(open)] + entries + (if trailing && entries != [] then [Comma] else []) + [Other(close)])
            == [Other(open)] + plain + [Other(close)]
    ensures IsSolid([Other(open)] + entries + (if trailing && entries != [] then [Comma] else []) + [Other(close)])
  {
    var front := [Other(open)] + entries;
    var back := (if trailing && entries != [] then [Comma] else []) + [Other(close)];
    Single(Other(open));
    DropAppend([Other(open)], entries);
    assert [Comma, Other(close)][1..] == [Other(close)];
    Single(Other(close));
    assert [Comma] + [Other(close)] == [Comma, Other(close)] && [] + [Other(close)] == [Other(close)];
    assert DropTrailing(back) == [Other(close)];
    DropAppend(front, back);
    assert [Other(open)] + entries + (if trailing && entries != [] then [Comma] else []) + [Other(close)] == front + back;
  }

  lemma {:induction false} PlainTokens(v: Json)
    requires IsJson(v)
    ensures DropTrailing(TokensOf(v)) == TokensOf(Plain(v)) && IsSolid(TokensOf(v))
    decreases v
  {
    match v
    case Text(body) => Single(Str(body));
    case Scalar(chars) =>
      CharsStay(chars);
      assert chars[0] in chars;
    case Arr(items, trailing) =>
      PlainItemTokens(items);
      Bracketed('[', ItemTokens(items), ItemTokens(PlainItems(items)), trailing, ']');
      hide ItemTokens, DropTrailing;
    case Obj(members, trailing) =>
      PlainMemberTokens(members);
      Bracketed('{', MemberTokens(members), MemberTokens(PlainMembers(members)), trailing, '}');
      hide MemberTokens, DropTrailing;
  }

  lemma {:induction false} PlainItemTokens(items: Items)
    requires AreItems(items)
    ensures DropTrailing(ItemTokens(items)) == ItemTokens(PlainItems(items))
    ensures items.Item? <==> ItemTokens(items) != []
    ensures items.Item? ==> IsSolid(ItemTokens(items))
    decreases items
  {
    if items.Item? {
      PlainTokens(items.value);
      PlainItemTokens(items.more);
      if items.more.Item? {
        Joined(TokensOf(items.value), ItemTokens(items.more));
      }
      hide TokensOf, DropTrailing;
    }
  }

  lemma {:induction false} PlainMemberTokens(members: Members)
    requires AreMembers(members)
    ensures DropTrailing(MemberTokens(members)) == MemberTokens(PlainMembers(members))
    ensures members.Member? <==> MemberTokens(members) != []
    ensures members.Member? ==> IsSolid(MemberTokens(members))
    decreases members
  {
    if members.Member? {
      var name := [Str(members.name), Other(':')];
      PlainTokens(members.value);
      PlainMemberTokens(members.more);
      Named(members.name, TokensOf(members.value));
      var entry := name + TokensOf(members.value);
      if members.more.Member? {
        Joined(entry, MemberTokens(members.more));
        assert MemberTokens(members) == entry + ([Comma] + MemberTokens(members.more));
      } else {
        assert MemberTokens(members) == entry;
      }
      hide TokensOf, DropTrailing;
    }
  }

  lemma Joined(a: seq<Piece>, b: seq<Piece>)
    requires IsSolid(a) && IsSolid(b)
    ensures DropTrailing(a + ([Comma] + b)) == DropTrailing(a) + ([Comma] + DropTrailing(b))
    ensures IsSolid(a + ([Comma] + b))
  {
    DropAppend(a, [Comma] + b);
    assert ([Comma] + b)[1..] == b;
    assert DropTrailing([Comma] + b) == [Comma] + DropTrailing(b);
  }

  lemma Named(name: string, tokens: seq<Piece>)
    requires IsSolid(tokens)
    ensures DropTrailing([Str(name), Other(':')] + tokens) == [Str(name), Other(':')] + DropTrailing(tokens)
    ensures IsSolid([Str(name), Other(':')] + tokens)
  {
    DropAppend([Str(name), Other(':')], tokens);
    assert [Str(name), Other(':')][1..] == [Other(':')];
    Single(Other(':'));
  }

  /** Every JSON value, printed with any whitespace, comments and trailing commas, comes out of the strip as a text of the
      same value: without comments, without trailing commas, with every token unchanged. */
  lemma SameDocument(v: Json, doc: seq<Piece>)
    requires IsJson(v) && WellFormed(doc) && Tokens(doc) == TokensOf(v)
    ensures Strip(PrintAll(doc)) == PrintAll(StripDoc(doc))
    ensures Tokens(StripDoc(doc)) == TokensOf(Plain(v))
    ensures forall p :: p in StripDoc(doc) ==> !IsComment(p)
  {
    StripPrints(doc);
    StrippedTokens(doc);
    PlainTokens(v);
  }

  /** The whitespace between tokens: that of JSON (section 2 of RFC 8259), and more. */
  lemma SpacesOfJson(c: char)
    requires c in " \t\n\r"
    ensures IsPiece(Space(c))
  {
  }
}
