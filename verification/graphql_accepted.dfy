/** The other way round: a schema text that is lexed is spelled by pieces. */
module GraphQLAccepted {
  import opened GraphQL
  import opened GraphQLSpelling
  import opened GraphQLTypeRef
  import opened Text

  const LOWER: string := "abcdefghijklmnopqrstuvwxyz"
  const UPPER: string := "ABCDEFGHIJKLMNOPQRSTUVWXYZ"
  const DIGITS: string := "0123456789"

  /** A character of a listing in the order of codes. */
  lemma Listed(c: char, all: string, first: char)
    requires forall i | 0 <= i < |all| :: all[i] as int == first as int + i
    ensures c in all <==> first as int <= c as int < first as int + |all|
  {
    if first as int <= c as int < first as int + |all| { assert all[c as int - first as int] == c; }
  }

  /** The characters that names and numbers are made of, listed. */
  lemma CharsAre(c: char)
    ensures IsNameStart(c) <==> c == '_' || c in LOWER || c in UPPER
    ensures IsNameCont(c) <==> c == '_' || c in LOWER || c in UPPER || c in DIGITS
    ensures IsNumberStart(c) <==> c == '-' || c in DIGITS
  {
    Listed(c, LOWER, 'a');
    Listed(c, UPPER, 'A');
    Listed(c, DIGITS, '0');
  }

  /** Those within numbers and escapes. */
  lemma DigitsAre(c: char)
    ensures IsNumberCont(c) <==> c in DIGITS || c in {'.', '+', '-', 'e', 'E'}
    ensures IsHex(c) <==> c in DIGITS || c in {'a', 'b', 'c', 'd', 'e', 'f', 'A', 'B', 'C', 'D', 'E', 'F'}
  {
    Listed(c, DIGITS, '0');
  }

  // ---- Where pieces end ----

  lemma {:induction false} NameEnded(src: string, j: nat)
    requires j <= |src|
    ensures var e := NameEnd(src, j);
            (forall k | j <= k < e :: IsNameCont(src[k])) && (e < |src| ==> !IsNameCont(src[e]))
    decreases |src| - j
  {
    if j < |src| && IsNameCont(src[j]) { NameEnded(src, j + 1); }
  }

  lemma {:induction false} NumberEnded(src: string, j: nat)
    requires j <= |src|
    ensures var e := NumberEnd(src, j);
            (forall k | j <= k < e :: IsNumberCont(src[k])) && (e < |src| ==> !IsNumberCont(src[e]))
    decreases |src| - j
  {
    if j < |src| && IsNumberCont(src[j]) { NumberEnded(src, j + 1); }
  }

  lemma {:induction false} CommentEnded(src: string, j: nat)
    requires j <= |src|
    ensures var e := CommentEnd(src, j);
            NoLineEnd(src[j..e]) && (e < |src| ==> src[e] == '\n' || src[e] == '\r')
    decreases |src| - j
  {
    if j < |src| && src[j] != '\n' && src[j] != '\r' {
      CommentEnded(src, j + 1);
      var e := CommentEnd(src, j);
      forall k | 0 <= k < e - j ensures src[j..e][k] != '\n' && src[j..e][k] != '\r' {
        if k > 0 { assert src[j..e][k] == src[j + 1..e][k - 1]; }
      }
    }
  }

  lemma {:induction false} QuotedEnded(src: string, j: nat)
    requires j <= |src| && QuotedEnd(src, j).Some?
    ensures var e := QuotedEnd(src, j).value;
            j < e <= |src| && QuotedBody(src[j..e - 1]) && src[e - 1] == '"'
    decreases |src| - j
  {
    if src[j] != '"' {
      var n := if src[j] != '\\' then 1 else if src[j + 1] == 'u' then 6 else 2;
      QuotedEnded(src, j + n);
      var body := src[j..QuotedEnd(src, j).value - 1];
      assert body[n..] == src[j + n..QuotedEnd(src, j).value - 1];
      if n == 6 { assert forall k | 2 <= k < 6 :: body[k] == src[j + k]; }
    }
  }

  lemma BeginsIfAt(src: string, j: nat, e: nat, u: string)
    requires j <= e <= |src|
    ensures Begins(src[j..e], u) <==> At(src, j, u) && j + |u| <= e
  {
    AtSlice(src, j, u);
    if j + |u| <= e { assert src[j..e][..|u|] == src[j..j + |u|]; }
  }

  lemma {:induction false} BlockEnded(src: string, j: nat)
    requires j <= |src| && BlockEnd(src, j).Some?
    ensures var e := BlockEnd(src, j).value;
            j + 3 <= e <= |src| && BlockBody(src[j..e - 3]) && src[e - 3..e] == QUOTES
    decreases |src| - j
  {
    hide At;
    var e := BlockEnd(src, j).value;
    if At(src, j, ESCAPED_QUOTES) {
      AtSlice(src, j, ESCAPED_QUOTES);
      BlockEnded(src, j + 4);
      var body := src[j..e - 3];
      assert body[..4] == src[j..j + 4];
      assert body[4..] == src[j + 4..e - 3];
    } else if At(src, j, QUOTES) {
      AtSlice(src, j, QUOTES);
    } else {
      BlockEnded(src, j + 1);
      var body := src[j..e - 3];
      assert body[1..] == src[j + 1..e - 3];
      assert body + QUOTES == src[j..e];
      BeginsIfAt(src, j, e, QUOTES);
      BeginsIfAt(src, j, e, ESCAPED_QUOTES);
    }
  }

  // ---- What was lexed is a piece ----

  /** The piece stands in the text from `i` up to `e`, and ends there. */
  predicate Stands(src: string, i: nat, e: nat, p: Piece) {
    i < e <= |src| && Formed(p) && TextOf(p) == src[i..e] && EndsBefore(p, src[e..])
  }

  lemma NamePiece(src: string, i: nat) returns (p: Piece)
    requires i < |src| && IsNameStart(src[i])
    ensures var e := NameEnd(src, i + 1);
            p == Word(src[i..e]) && Stands(src, i, e, p)
  {
    var e := NameEnd(src, i + 1);
    NameEnded(src, i + 1);
    p := Word(src[i..e]);
    assert forall k | 0 <= k < e - i :: src[i..e][k] == src[i + k];
  }

  lemma NumberPiece(src: string, i: nat) returns (p: Piece)
    requires i < |src| && IsNumberStart(src[i])
    ensures var e := NumberEnd(src, i + 1);
            p == Numeral(src[i..e]) && Stands(src, i, e, p)
  {
    var e := NumberEnd(src, i + 1);
    NumberEnded(src, i + 1);
    p := Numeral(src[i..e]);
    assert forall k | 0 <= k < e - i :: src[i..e][k] == src[i + k];
  }

  lemma CommentPiece(src: string, i: nat) returns (p: Piece)
    requires i < |src| && src[i] == '#'
    ensures var e := CommentEnd(src, i + 1);
            p.Comment? && Stands(src, i, e, p)
  {
    var e := CommentEnd(src, i + 1);
    CommentEnded(src, i + 1);
    p := Comment(src[i + 1..e]);
  }

  lemma NoThirdQuote(src: string, i: nat, e: nat)
    requires i + 2 <= e <= |src| && src[i] == src[e - 1] == '"' && !At(src, i, QUOTES)
    ensures e == i + 2 && e < |src| ==> src[e] != '"'
  {
    AtSlice(src, i, QUOTES);
    if e == i + 2 && e < |src| { assert src[i..i + 3] == [src[i], src[i + 1], src[i + 2]]; }
  }

  lemma QuotedPiece(src: string, i: nat) returns (p: Piece)
    requires i < |src| && src[i] == '"' && !At(src, i, QUOTES) && QuotedEnd(src, i + 1).Some?
    ensures var e := QuotedEnd(src, i + 1).value;
            p.Quoted? && Stands(src, i, e, p)
  {
    hide At, QuotedEnd, QuotedBody;
    var e := QuotedEnd(src, i + 1).value;
    QuotedEnded(src, i + 1);
    p := Quoted(src[i + 1..e - 1]);
    assert src[i..e] == "\"" + (src[i + 1..e - 1] + "\"");
    NoThirdQuote(src, i, e);
  }

  lemma BlockPiece(src: string, i: nat) returns (p: Piece)
    requires At(src, i, QUOTES) && i + 3 <= |src| && BlockEnd(src, i + 3).Some?
    ensures var e := BlockEnd(src, i + 3).value;
            p.Block? && Stands(src, i, e, p)
  {
    hide At, BlockEnd, BlockBody;
    var e := BlockEnd(src, i + 3).value;
    AtSlice(src, i, QUOTES);
    BlockEnded(src, i + 3);
    p := Block(src[i + 3..e - 3]);
    assert src[i..e] == src[i..i + 3] + (src[i + 3..e - 3] + src[e - 3..e]);
  }

  lemma StringPiece(src: string, i: nat) returns (p: Piece)
    requires i < |src| && src[i] == '"' && StringEnd(src, i).Some?
    ensures var e := StringEnd(src, i).value;
            (p.Quoted? || p.Block?) && Stands(src, i, e, p)
  {
    hide At, QuotedEnd, BlockEnd, Stands;
    AtSlice(src, i, QUOTES);
    if At(src, i, QUOTES) { p := BlockPiece(src, i); } else { p := QuotedPiece(src, i); }
  }

  lemma PieceLexed(src: string, i: nat) returns (p: Piece)
    requires i < |src| && LexOne(src, i).Some?
    ensures Stands(src, i, LexOne(src, i).value.1, p) && TokenOf(p) == LexOne(src, i).value.0
  {
    hide StringEnd, NameEnd, NumberEnd, CommentEnd;
    var c := src[i];
    assert src[i..i + 1] == [c];
    if IsBlank(c) { p := Blank(c); }
    else if c == '#' { p := CommentPiece(src, i); }
    else if c == '"' { p := StringPiece(src, i); }
    else if IsNameStart(c) { p := NamePiece(src, i); }
    else if IsNumberStart(c) { p := NumberPiece(src, i); }
    else { p := Symbol(c); }
  }

  lemma PiecesMore(src: string, i: nat, e: nat, p: Piece, ps: seq<Piece>)
    requires Stands(src, i, e, p) && Spelled(ps) && Texts(ps) == src[e..]
    ensures Spelled([p] + ps) && Texts([p] + ps) == src[i..] && TokensIn([p] + ps) == TokenOf(p) + TokensIn(ps)
  {
    hide Formed, EndsBefore, TextOf, TokenOf;
    assert ([p] + ps)[1..] == ps;
    assert src[i..] == src[i..e] + src[e..];
  }

  lemma {:induction false} PiecesLexed(src: string, i: nat, n: nat) returns (ps: seq<Piece>)
    requires i <= |src| && n <= MAX_TOKENS && LexFrom(src, i, n).Some?
    ensures Spelled(ps) && Texts(ps) == src[i..]
    ensures LexFrom(src, i, n) == Some(TokensIn(ps) + [Eof]) && n + |TokensIn(ps)| <= MAX_TOKENS
    decreases |src| - i
  {
    hide LexOne, Stands, Spelled, Texts, TokensIn;
    if i == |src| {
      ps := [];
      NothingSpelled();
      assert [] + [Eof] == [Eof];
    } else {
      var one := LexOne(src, i).value;
      var p := PieceLexed(src, i);
      ps := PiecesLexed(src, one.1, n + |one.0|);
      PiecesMore(src, i, one.1, p, ps);
      assert one.0 + (TokensIn(ps) + [Eof]) == TokensIn([p] + ps) + [Eof];
      ps := [p] + ps;
    }
  }

  lemma NothingSpelled()
    ensures Spelled([]) && Texts([]) == "" && TokensIn([]) == []
  {}

  /** A text is lexed exactly if pieces spell it, after a byte order mark or none, with no more
      tokens than allowed; and its tokens are theirs. */
  lemma LexedIff(src: string, toks: seq<Token>)
    ensures Lex(src) == Some(toks)
            <==> exists mark, ps :: SpeltBy(src, mark, ps) && |TokensIn(ps)| <= MAX_TOKENS && toks == TokensIn(ps) + [Eof]
  {
    hide Spelled, Texts, TokensIn, LexFrom;
    if Lex(src).Some? {
      var mark := src != "" && src[0] == '\U{FEFF}';
      var ps := PiecesLexed(src, if mark then 1 else 0, 0);
      assert SpeltBy(src, mark, ps);
    }
    forall mark, ps | SpeltBy(src, mark, ps) && |TokensIn(ps)| <= MAX_TOKENS ensures Lex(src) == Some(TokensIn(ps) + [Eof]) {
      TextLexes(src, mark, ps);
    }
  }

  predicate SpeltBy(src: string, mark: bool, ps: seq<Piece>) {
    Spelled(ps) && src == (if mark then "\U{FEFF}" else "") + Texts(ps)
  }
}
