/** Schema texts: every text that spells the tokens of a document, with any blanks, commas and
    comments between them, parses to what the document declares. */
module GraphQLSpelling {
  import opened GraphQL
  import opened GraphQLGrammar
  import opened GraphQLTypeRef
  import opened Text

  const QUOTES: string := "\"\"\""
  const ESCAPED_QUOTES: string := "\\\"\"\""

  /** A piece of text: something between tokens, or a token. */
  datatype Piece =
    | Blank(c: char)
    | Comment(text: string)
    | Word(name: string)
    | Symbol(c: char)
    | Numeral(text: string)
    | Quoted(body: string)
    | Block(body: string)

  function TextOf(p: Piece): string {
    match p
    case Blank(c) => [c]
    case Comment(text) => "#" + text
    case Word(name) => name
    case Symbol(c) => [c]
    case Numeral(text) => text
    case Quoted(body) => "\"" + (body + "\"")
    case Block(body) => QUOTES + (body + QUOTES)
  }

  function TokenOf(p: Piece): seq<Token> {
    match p
    case Blank(_) => []
    case Comment(_) => []
    case Word(name) => [Name(name)]
    case Symbol(c) => [Punct(c)]
    case Numeral(text) => [Number(text)]
    case Quoted(_) => [Str]
    case Block(_) => [Str]
  }

  predicate Begins(w: string, u: string) { |u| <= |w| && w[..|u|] == u }

  /** Characters other than quotes, backslashes and line ends, and the escapes. */
  predicate QuotedBody(w: string)
    decreases |w|
  {
    || w == ""
    || (w[0] != '"' && w[0] != '\\' && w[0] != '\n' && w[0] != '\r' && QuotedBody(w[1..]))
    || (|w| >= 2 && w[0] == '\\' && w[1] in {'"', '\\', '/', 'n', 't', 'r', 'b', 'f'} && QuotedBody(w[2..]))
    || (|w| >= 6 && w[0] == '\\' && w[1] == 'u' && (forall k | 2 <= k < 6 :: IsHex(w[k])) && QuotedBody(w[6..]))
  }

  /** Anything up to the first three quotes, save where a backslash stands before three. */
  predicate BlockBody(w: string)
    decreases |w|
  {
    || w == ""
    || (Begins(w, ESCAPED_QUOTES) && BlockBody(w[4..]))
    || (!Begins(w + QUOTES, QUOTES) && !Begins(w + QUOTES, ESCAPED_QUOTES) && BlockBody(w[1..]))
  }

  predicate NoLineEnd(w: string) { forall k | 0 <= k < |w| :: w[k] != '\n' && w[k] != '\r' }

  /** The piece is well formed. */
  predicate Formed(p: Piece) {
    match p
    case Blank(c) => c in {' ', '\t', ',', '\n', '\r'}
    case Comment(text) => NoLineEnd(text)
    case Word(name) => ValidName(name)
    case Symbol(c) => c in {'!', '$', '&', '(', ')', ':', '=', '@', '[', ']', '{', '|', '}'}
    case Numeral(text) => text != "" && IsNumberStart(text[0]) && forall k | 1 <= k < |text| :: IsNumberCont(text[k])
    case Quoted(body) => QuotedBody(body)
    case Block(body) => BlockBody(body)
  }

  /** What comes next does not read on: no name after a name, no number after a number, a line
      end after a comment, and no third quote after an empty string. */
  predicate EndsBefore(p: Piece, rest: string) {
    rest == ""
    || match p
       case Word(_) => !IsNameCont(rest[0])
       case Numeral(_) => !IsNumberCont(rest[0])
       case Comment(_) => rest[0] == '\n' || rest[0] == '\r'
       case Quoted(body) => body == "" ==> rest[0] != '"'
       case _ => true
  }

  function Texts(ps: seq<Piece>): string { if ps == [] then "" else TextOf(ps[0]) + Texts(ps[1..]) }

  function TokensIn(ps: seq<Piece>): seq<Token> { if ps == [] then [] else TokenOf(ps[0]) + TokensIn(ps[1..]) }

  predicate Spelled(ps: seq<Piece>) {
    ps == [] || (Formed(ps[0]) && EndsBefore(ps[0], Texts(ps[1..])) && Spelled(ps[1..]))
  }

  // ---- Strings end where they should ----

  lemma SliceAt(src: string, i: nat, w: string)
    requires i <= |src| && Begins(src[i..], w)
    ensures At(src, i, w) && i + |w| <= |src|
  {
    assert src[i..i + |w|] == src[i..][..|w|];
    AtSlice(src, i, w);
  }

  lemma NotAt(src: string, i: nat, w: string)
    requires i <= |src| && !Begins(src[i..], w)
    ensures !At(src, i, w)
  {
    AtSlice(src, i, w);
    if i + |w| <= |src| { assert src[i..i + |w|] == src[i..][..|w|]; }
  }

  lemma BeginsAfter(src: string, j: nat, body: string, u: string, n: nat)
    requires j <= |src| && Begins(src[j..], body + u) && n <= |body|
    ensures j + n <= |src| && Begins(src[j + n..], body[n..] + u)
  {
    var w := body + u;
    assert src[j + n..] == src[j..][n..];
    assert w[n..] == body[n..] + u;
    assert src[j..][n..][..|w| - n] == src[j..][..|w|][n..];
  }

  lemma {:induction false} QuotedEnds(src: string, j: nat, body: string)
    requires QuotedBody(body) && j <= |src| && Begins(src[j..], body + "\"")
    ensures QuotedEnd(src, j) == Some(j + |body| + 1)
    decreases |body|
  {
    var w := body + "\"";
    assert forall k | 0 <= k < |w| :: src[j + k] == src[j..][k] == w[k];
    if body != "" {
      var n := if body[0] != '\\' then 1 else if body[1] == 'u' then 6 else 2;
      assert QuotedBody(body[n..]);
      BeginsAfter(src, j, body, "\"", n);
      QuotedEnds(src, j + n, body[n..]);
      if n == 2 { assert src[j + 1] == body[1]; }
      if n == 6 { assert forall k | j + 2 <= k < j + 6 :: src[k] == body[k - j]; }
    } else {
      assert src[j + 0] == w[0] == '"';
    }
  }

  lemma BeginsLonger(s: string, w: string, u: string)
    requires Begins(s, w) && |u| <= |w|
    ensures Begins(s, u) <==> Begins(w, u)
  {
    assert s[..|u|] == s[..|w|][..|u|];
  }

  lemma {:induction false} BlockEnds(src: string, j: nat, body: string)
    requires BlockBody(body) && j <= |src| && Begins(src[j..], body + QUOTES)
    ensures BlockEnd(src, j) == Some(j + |body| + 3)
    decreases |body|
  {
    var w := body + QUOTES;
    if body == "" {
      assert w == QUOTES;
      SliceAt(src, j, QUOTES);
      BeginsLonger(src[j..], QUOTES, "\"");
      assert src[j] == src[j..][0] == '"';
      assert !Begins(src[j..], ESCAPED_QUOTES);
      NotAt(src, j, ESCAPED_QUOTES);
    } else {
      BeginsLonger(src[j..], w, QUOTES);
      if |w| >= 4 { BeginsLonger(src[j..], w, ESCAPED_QUOTES); }
      var n := if Begins(body, ESCAPED_QUOTES) then 4 else 1;
      BeginsAfter(src, j, body, QUOTES, n);
      BlockEnds(src, j + n, body[n..]);
      if n == 4 {
        assert w[..4] == body[..4];
        SliceAt(src, j, ESCAPED_QUOTES);
      } else {
        NotAt(src, j, QUOTES);
        NotAt(src, j, ESCAPED_QUOTES);
      }
    }
  }

  // ---- Pieces are lexed ----

  /** The rest of a text from `i` is `w` and then `rest`. */
  predicate Reads(src: string, i: nat, w: string, rest: string) { i <= |src| && src[i..] == w + rest }

  lemma ReadsOn(src: string, i: nat, w: string, rest: string)
    requires Reads(src, i, w, rest)
    ensures i + |w| <= |src| && src[i + |w|..] == rest && src[i..i + |w|] == w && Begins(src[i..], w)
    ensures forall k | 0 <= k < |w| :: src[i + k] == w[k]
    ensures rest == "" <==> i + |w| == |src|
    ensures rest != "" ==> src[i + |w|] == rest[0]
  {
    assert src[i..][|w|..] == rest;
    assert src[i..i + |w|] == src[i..][..|w|];
    forall k | 0 <= k < |w| ensures src[i + k] == w[k] { assert src[i..][k] == w[k]; }
    if rest != "" { assert src[i..][|w|] == rest[0]; }
  }

  lemma {:induction false} NumberEnds(src: string, j: nat, e: nat)
    requires j <= e <= |src| && (forall k | j <= k < e :: IsNumberCont(src[k])) && (e < |src| ==> !IsNumberCont(src[e]))
    ensures NumberEnd(src, j) == e
    decreases e - j
  {
    if j < e { NumberEnds(src, j + 1, e); }
  }

  lemma {:induction false} NameEnds(src: string, j: nat, e: nat)
    requires j <= e <= |src| && (forall k | j <= k < e :: IsNameCont(src[k])) && (e < |src| ==> !IsNameCont(src[e]))
    ensures NameEnd(src, j) == e
    decreases e - j
  {
    if j < e { NameEnds(src, j + 1, e); }
  }

  lemma {:induction false} CommentEnds(src: string, j: nat, e: nat)
    requires j <= e <= |src| && (forall k | j <= k < e :: src[k] != '\n' && src[k] != '\r')
    requires e < |src| ==> src[e] == '\n' || src[e] == '\r'
    ensures CommentEnd(src, j) == e
    decreases e - j
  {
    if j < e { CommentEnds(src, j + 1, e); }
  }

  lemma WordLexes(src: string, i: nat, p: Piece, rest: string)
    requires (p.Word? || p.Numeral? || p.Comment?) && Formed(p) && Reads(src, i, TextOf(p), rest) && EndsBefore(p, rest)
    ensures i < |src| && LexOne(src, i) == Some((TokenOf(p), i + |TextOf(p)|))
  {
    var w := TextOf(p);
    ReadsOn(src, i, w, rest);
    assert src[i + 0] == w[0];
    forall k | i < k < i + |w| ensures src[k] == w[k - i] { assert src[i + (k - i)] == w[k - i]; }
    if p.Word? { NameEnds(src, i + 1, i + |w|); }
    else if p.Numeral? { NumberEnds(src, i + 1, i + |w|); }
    else {
      forall k | i + 1 <= k < i + |w| ensures src[k] == p.text[k - i - 1] {}
      CommentEnds(src, i + 1, i + |w|);
    }
  }

  /** A text that reads a delimiter and then more. */
  lemma Opens(src: string, i: nat, open: string, tail: string, rest: string)
    requires Reads(src, i, open + tail, rest)
    ensures i + |open| <= |src| && Begins(src[i..], open) && Begins(src[i + |open|..], tail)
  {
    var s := src[i..];
    assert open + tail + rest == open + (tail + rest);
    assert s[..|open|] == open;
    assert src[i + |open|..] == s[|open|..] == tail + rest;
    assert (tail + rest)[..|tail|] == tail;
  }

  lemma QuotedReads(src: string, i: nat, body: string, rest: string)
    requires QuotedBody(body) && Reads(src, i, "\"" + (body + "\""), rest) && (body == "" && rest != "" ==> rest[0] != '"')
    ensures i < |src| && src[i] == '"' && !At(src, i, QUOTES) && QuotedEnd(src, i + 1) == Some(i + |body| + 2)
  {
    hide QuotedEnd, QuotedBody, At;
    Opens(src, i, "\"", body + "\"", rest);
    assert src[i] == src[i..][..1][0];
    NoThird(body, rest);
    NotAt(src, i, QUOTES);
    hide Begins, Reads;
    QuotedEnds(src, i + 1, body);
  }

  lemma QuotedLexes(src: string, i: nat, body: string, rest: string)
    requires QuotedBody(body) && Reads(src, i, "\"" + (body + "\""), rest) && (body == "" && rest != "" ==> rest[0] != '"')
    ensures i < |src| && LexOne(src, i) == Some(([Str], i + |body| + 2))
  {
    hide QuotedEnd, BlockEnd, QuotedBody, At, Reads, NameEnd, NumberEnd, CommentEnd;
    QuotedReads(src, i, body, rest);
  }

  lemma BlockReads(src: string, i: nat, body: string, rest: string)
    requires BlockBody(body) && Reads(src, i, QUOTES + (body + QUOTES), rest)
    ensures i < |src| && src[i] == '"' && At(src, i, QUOTES) && i + 3 <= |src| && BlockEnd(src, i + 3) == Some(i + |body| + 6)
  {
    hide BlockEnd, BlockBody, At;
    Opens(src, i, QUOTES, body + QUOTES, rest);
    assert src[i] == src[i..][..3][0];
    SliceAt(src, i, QUOTES);
    hide Begins, Reads;
    BlockEnds(src, i + 3, body);
  }

  lemma BlockLexes(src: string, i: nat, body: string, rest: string)
    requires BlockBody(body) && Reads(src, i, QUOTES + (body + QUOTES), rest)
    ensures i < |src| && LexOne(src, i) == Some(([Str], i + |body| + 6))
  {
    hide QuotedEnd, BlockEnd, BlockBody, At, Reads, NameEnd, NumberEnd, CommentEnd;
    BlockReads(src, i, body, rest);
  }

  /** A quoted string does not start a block string. */
  lemma NoThird(body: string, rest: string)
    requires QuotedBody(body) && (body == "" && rest != "" ==> rest[0] != '"')
    ensures !Begins("\"" + (body + "\"") + rest, QUOTES)
  {
    var s := "\"" + (body + "\"") + rest;
    assert |s| >= 3 ==> s[..3][1] == s[1] && s[..3][2] == s[2];
    assert body != "" ==> s[1] == body[0];
    assert body == "" && rest != "" ==> s[2] == rest[0];
  }

  lemma MarkLexes(src: string, i: nat, p: Piece, rest: string)
    requires (p.Blank? || p.Symbol?) && Formed(p) && Reads(src, i, TextOf(p), rest)
    ensures i < |src| && LexOne(src, i) == Some((TokenOf(p), i + 1))
  {
    hide StringEnd, CommentEnd, NameEnd, NumberEnd;
    ReadsOn(src, i, [p.c], rest);
    assert src[i + 0] == p.c;
  }

  lemma PieceLexes(src: string, i: nat, p: Piece, rest: string)
    requires Formed(p) && Reads(src, i, TextOf(p), rest) && EndsBefore(p, rest)
    ensures i < |src| && LexOne(src, i) == Some((TokenOf(p), i + |TextOf(p)|))
  {
    hide LexOne, QuotedBody, BlockBody;
    match p
    case Blank(c) => MarkLexes(src, i, p, rest);
    case Symbol(c) => MarkLexes(src, i, p, rest);
    case Quoted(body) => QuotedLexes(src, i, body, rest);
    case Block(body) => BlockLexes(src, i, body, rest);
    case _ => WordLexes(src, i, p, rest);
  }

  lemma LexStep(src: string, i: nat, n: nat, w: seq<Token>, j: nat, rest: seq<Token>)
    requires i < |src| && LexOne(src, i) == Some((w, j)) && n + |w| <= MAX_TOKENS && j <= |src| && LexFrom(src, j, n + |w|) == Some(rest)
    ensures LexFrom(src, i, n) == Some(w + rest)
  {
    hide LexOne;
  }

  lemma PiecesOne(ps: seq<Piece>)
    requires ps != [] && Spelled(ps)
    ensures Texts(ps) == TextOf(ps[0]) + Texts(ps[1..]) && TokensIn(ps) == TokenOf(ps[0]) + TokensIn(ps[1..])
    ensures Formed(ps[0]) && EndsBefore(ps[0], Texts(ps[1..])) && Spelled(ps[1..])
  {
    hide Formed, EndsBefore, TextOf, TokenOf;
  }

  lemma NoPieces(src: string, i: nat, n: nat)
    requires i <= |src| && src[i..] == Texts([])
    ensures LexFrom(src, i, n) == Some(TokensIn([]) + [Eof])
  {
    assert i == |src| && [] + [Eof] == [Eof];
  }

  lemma {:induction false} PiecesLex(src: string, i: nat, n: nat, ps: seq<Piece>)
    requires Spelled(ps) && i <= |src| && src[i..] == Texts(ps) && n + |TokensIn(ps)| <= MAX_TOKENS
    ensures LexFrom(src, i, n) == Some(TokensIn(ps) + [Eof])
    decreases |ps|
  {
    hide *;
    if ps == [] {
      NoPieces(src, i, n);
    } else {
      var p, rest, w := ps[0], Texts(ps[1..]), TokenOf(ps[0]);
      PiecesOne(ps);
      ReadsHere(src, i, TextOf(p), rest);
      PieceLexes(src, i, p, rest);
      ReadsOn(src, i, TextOf(p), rest);
      PiecesLex(src, i + |TextOf(p)|, n + |w|, ps[1..]);
      LexStep(src, i, n, w, i + |TextOf(p)|, TokensIn(ps[1..]) + [Eof]);
      assert w + (TokensIn(ps[1..]) + [Eof]) == TokensIn(ps) + [Eof];
    }
  }

  lemma ReadsHere(src: string, i: nat, w: string, rest: string)
    requires i <= |src| && src[i..] == w + rest
    ensures Reads(src, i, w, rest)
  {}

  // ---- Texts parse ----

  lemma TextLexes(src: string, mark: bool, ps: seq<Piece>)
    requires Spelled(ps) && |TokensIn(ps)| <= MAX_TOKENS
    requires src == (if mark then "\U{FEFF}" else "") + Texts(ps)
    ensures Lex(src) == Some(TokensIn(ps) + [Eof])
  {
    var i := if mark then 1 else 0;
    assert src[i..] == Texts(ps);
    if !mark && ps != [] { NoMarkFirst(ps); }
    PiecesLex(src, i, 0, ps);
  }

  /** No piece starts with a byte order mark. */
  lemma NoMarkFirst(ps: seq<Piece>)
    requires Spelled(ps) && ps != []
    ensures Texts(ps) != "" && Texts(ps)[0] != '\U{FEFF}'
  {
    assert TextOf(ps[0]) != "";
    assert Texts(ps)[0] == TextOf(ps[0])[0];
  }

  /** However a document is spelled, parsing the text gives what the document declares, if it has
      a query or a mutation field. */
  lemma TextParses(src: string, mark: bool, ps: seq<Piece>, ds: seq<Definition>)
    requires Spelled(ps) && TokensIn(ps) == DocumentTokens(ds) && |DocumentTokens(ds)| <= MAX_TOKENS
    requires src == (if mark then "\U{FEFF}" else "") + Texts(ps)
    requires forall i | 0 <= i < |ds| :: BodyFits(ds[i].body)
    ensures var s := Meaning(NO_SCHEMA, ds);
            ParseSDL(src) == if s.Some? && (RootFields(s.value, s.value.query, "Query") != []
                                            || RootFields(s.value, s.value.mutation, "Mutation") != []) then s else None
  {
    hide *;
    TextLexes(src, mark, ps);
    var w := DocumentTokens(ds);
    LexStream(src);
    TokensAtStart(w, [Eof], []);
    assert [] + w + [Eof] == w + [Eof];
    AllStand(w);
    DocumentParses(w + [Eof], 0, NO_SCHEMA, ds);
    ParsedFrom(src, w + [Eof]);
  }

  lemma AllStand(w: seq<Token>)
    requires IsStream(w + [Eof]) && TokensAt(w + [Eof], 0, w)
    ensures Stand(w + [Eof], 0, w) && (w + [Eof])[|w|].Eof?
  {}

  lemma ParsedFrom(src: string, toks: seq<Token>)
    requires Lex(src) == Some(toks) && Cursor(toks, 0)
    ensures var s := ParseDefinitions(toks, 0, NO_SCHEMA);
            ParseSDL(src) == if s.Some? && (RootFields(s.value, s.value.query, "Query") != []
                                            || RootFields(s.value, s.value.mutation, "Mutation") != []) then s else None
  {
    hide Lex, ParseDefinitions, RootFields;
  }

  lemma LexStream(src: string)
    requires Lex(src).Some?
    ensures IsStream(Lex(src).value)
  {}
}
