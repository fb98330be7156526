/** A type reference printed, lexed and parsed is the type reference again. */
module GraphQLTypeRef {
  import opened GraphQL
  import opened Text

  function Bang(nonNull: bool): string { if nonNull then "!" else "" }

  /** `gqlTypeRefString`. */
  function Print(r: TypeRef): string {
    match r
    case Named(name, nonNull) => name + Bang(nonNull)
    case ListOf(elem, nonNull) => "[" + (Print(elem) + ("]" + Bang(nonNull)))
  }

  predicate ValidName(s: string) { s != "" && IsNameStart(s[0]) && forall i | 0 <= i < |s| :: IsNameCont(s[i]) }

  predicate ValidRef(r: TypeRef) {
    match r
    case Named(name, _) => ValidName(name)
    case ListOf(elem, _) => ValidRef(elem)
  }

  /** How many lists the reference nests. */
  function Depth(r: TypeRef): nat { if r.Named? then 0 else 1 + Depth(r.elem) }

  function BangToken(nonNull: bool): seq<Token> { if nonNull then [Punct('!')] else [] }

  function Tokens(r: TypeRef): (toks: seq<Token>)
    ensures 0 < |toks| <= 3 * Depth(r) + 2
  {
    match r
    case Named(name, nonNull) => [Name(name)] + BangToken(nonNull)
    case ListOf(elem, nonNull) => [Punct('[')] + (Tokens(elem) + ([Punct(']')] + BangToken(nonNull)))
  }

  // ---- Lexing the printed text ----

  lemma {:induction false} NameEndIs(src: string, i: nat, w: string)
    requires At(src, i, w) && (forall k | 0 <= k < |w| :: IsNameCont(w[k]))
    requires i + |w| <= |src| && (i + |w| < |src| ==> !IsNameCont(src[i + |w|]))
    ensures NameEnd(src, i) == i + |w|
    decreases |w|
  {
    if w != "" { NameEndIs(src, i + 1, w[1..]); }
  }

  lemma NameToken(src: string, i: nat, name: string)
    requires ValidName(name) && At(src, i, name) && i + |name| <= |src|
    requires i + |name| < |src| ==> !IsNameCont(src[i + |name|])
    ensures i < |src| && LexOne(src, i) == Some(([Name(name)], i + |name|))
  {
    NameEndIs(src, i + 1, name[1..]);
    AtSlice(src, i, name);
  }

  lemma PunctToken(src: string, i: nat, c: char)
    requires i < |src| && src[i] == c && c in "[]!"
    ensures LexOne(src, i) == Some(([Punct(c)], i + 1))
  {}

  /** Some tokens stand at `i` and what follows starts at `j`. */
  ghost predicate Lexes(src: string, i: nat, toks: seq<Token>, j: nat)
    requires i <= |src| && j <= |src|
  {
    forall n: nat | n + |toks| <= MAX_TOKENS :: LexFrom(src, i, n) == Continue(toks, LexFrom(src, j, n + |toks|))
  }

  lemma OneLexes(src: string, i: nat, t: Token, j: nat)
    requires i < |src| && LexOne(src, i) == Some(([t], j))
    ensures Lexes(src, i, [t], j)
  {}

  lemma NoneLexes(src: string, i: nat)
    requires i <= |src|
    ensures Lexes(src, i, [], i)
  {
    forall n: nat | n <= MAX_TOKENS ensures LexFrom(src, i, n) == Continue([], LexFrom(src, i, n + 0)) {
      ContinueNothing(LexFrom(src, i, n));
    }
  }

  lemma LexesBoth(src: string, i: nat, a: seq<Token>, j: nat, b: seq<Token>, k: nat)
    requires i <= |src| && j <= |src| && k <= |src| && Lexes(src, i, a, j) && Lexes(src, j, b, k)
    ensures Lexes(src, i, a + b, k)
  {
    hide LexFrom, Continue;
    forall n: nat | n + |a + b| <= MAX_TOKENS
      ensures LexFrom(src, i, n) == Continue(a + b, LexFrom(src, k, n + |a + b|))
    {
      assert LexFrom(src, i, n) == Continue(a, LexFrom(src, j, n + |a|));
      assert LexFrom(src, j, n + |a|) == Continue(b, LexFrom(src, k, n + |a| + |b|));
      ContinueBoth(a, b, LexFrom(src, k, n + |a| + |b|));
    }
  }

  lemma ContinueBoth(a: seq<Token>, b: seq<Token>, rest: Option<seq<Token>>)
    ensures Continue(a, Continue(b, rest)) == Continue(a + b, rest)
  {
    if rest.Some? { assert a + (b + rest.value) == (a + b) + rest.value; }
  }

  lemma BangLexes(src: string, i: nat, nonNull: bool)
    requires At(src, i, Bang(nonNull))
    ensures i + |Bang(nonNull)| <= |src| && Lexes(src, i, BangToken(nonNull), i + |Bang(nonNull)|)
  {
    hide Lexes, LexFrom, LexOne;
    AtBounds(src, i, Bang(nonNull));
    if nonNull {
      PunctToken(src, i, '!');
      OneLexes(src, i, Punct('!'), i + 1);
    } else {
      NoneLexes(src, i);
    }
  }

  /** What follows a printed reference must not read on as a name. */
  predicate Ends(src: string, j: nat) { j < |src| ==> !IsNameCont(src[j]) }

  lemma {:induction false} PrintLexes(src: string, i: nat, r: TypeRef)
    requires ValidRef(r) && At(src, i, Print(r)) && Ends(src, i + |Print(r)|)
    ensures i + |Print(r)| <= |src| && Lexes(src, i, Tokens(r), i + |Print(r)|)
    decreases r, 0
  {
    hide Lexes, LexFrom, LexOne;
    AtBounds(src, i, Print(r));
    match r
    case Named(name, nonNull) =>
      AtSplit(src, i, name, Bang(nonNull));
      AtBounds(src, i, name);
      assert Ends(src, i + |name|);
      NameToken(src, i, name);
      OneLexes(src, i, Name(name), i + |name|);
      BangLexes(src, i + |name|, nonNull);
      LexesBoth(src, i, [Name(name)], i + |name|, BangToken(nonNull), i + |Print(r)|);
    case ListOf(elem, nonNull) => ListLexes(src, i, elem, nonNull);
  }

  lemma {:induction false} ListLexes(src: string, i: nat, elem: TypeRef, nonNull: bool)
    requires ValidRef(elem) && At(src, i, Print(ListOf(elem, nonNull)))
    ensures var r := ListOf(elem, nonNull); i + |Print(r)| <= |src| && Lexes(src, i, Tokens(r), i + |Print(r)|)
    decreases elem, 1
  {
    hide Lexes, LexFrom, LexOne;
    var tail := "]" + Bang(nonNull);
    AtBounds(src, i, "[" + (Print(elem) + tail));
    AtSplit(src, i, "[", Print(elem) + tail);
    AtSplit(src, i + 1, Print(elem), tail);
    var j := i + 1 + |Print(elem)|;
    AtSplit(src, j, "]", Bang(nonNull));
    assert src[i] == '[' && src[j] == ']';
    PunctToken(src, i, '[');
    OneLexes(src, i, Punct('['), i + 1);
    PrintLexes(src, i + 1, elem);
    PunctToken(src, j, ']');
    OneLexes(src, j, Punct(']'), j + 1);
    BangLexes(src, j + 1, nonNull);
    var k := j + 1 + |Bang(nonNull)|;
    LexesBoth(src, j, [Punct(']')], j + 1, BangToken(nonNull), k);
    LexesBoth(src, i + 1, Tokens(elem), j, [Punct(']')] + BangToken(nonNull), k);
    LexesBoth(src, i, [Punct('[')], i + 1, Tokens(elem) + ([Punct(']')] + BangToken(nonNull)), k);
  }

  // ---- Parsing the tokens ----

  /** The tokens stand at `pos`. */
  predicate TokensAt(toks: seq<Token>, pos: nat, w: seq<Token>)
    decreases |w|
  {
    w == [] || (pos < |toks| && toks[pos] == w[0] && TokensAt(toks, pos + 1, w[1..]))
  }

  lemma {:induction false} TokensSplit(toks: seq<Token>, pos: nat, a: seq<Token>, b: seq<Token>)
    requires TokensAt(toks, pos, a + b)
    ensures TokensAt(toks, pos, a) && TokensAt(toks, pos + |a|, b)
    decreases |a|
  {
    if a == [] {
      assert a + b == b;
    } else {
      assert (a + b)[1..] == a[1..] + b;
      TokensSplit(toks, pos + 1, a[1..], b);
    }
  }

  /** Within the nesting limit the tokens parse back, and past it they are refused. */
  lemma {:induction false} TokensParse(toks: seq<Token>, pos: nat, depth: nat, r: TypeRef)
    requires Cursor(toks, pos) && TokensAt(toks, pos, Tokens(r)) && !IsAt(toks, pos + |Tokens(r)|, '!')
    ensures ParseTypeRef(toks, pos, depth) == if depth + Depth(r) <= MAX_DEPTH then Some((r, pos + |Tokens(r)|)) else None
    decreases r
  {
    match r
    case Named(name, nonNull) => NamedParse(toks, pos, depth, name, nonNull);
    case ListOf(elem, nonNull) =>
      if depth <= MAX_DEPTH {
        hide Tokens, ParseTypeRef;
        var p := pos + 1 + |Tokens(elem)|;
        ListAt(toks, pos, elem, nonNull);
        TokensParse(toks, pos + 1, depth + 1, elem);
        BracketsParse(toks, pos, depth, elem, nonNull, p, depth + 1 + Depth(elem) <= MAX_DEPTH);
      }
  }

  lemma NamedParse(toks: seq<Token>, pos: nat, depth: nat, name: string, nonNull: bool)
    requires Cursor(toks, pos) && TokensAt(toks, pos, Tokens(Named(name, nonNull)))
    requires !IsAt(toks, pos + |Tokens(Named(name, nonNull))|, '!')
    ensures ParseTypeRef(toks, pos, depth)
            == if depth <= MAX_DEPTH then Some((Named(name, nonNull), pos + |Tokens(Named(name, nonNull))|)) else None
  {
    TokensSplit(toks, pos, [Name(name)], BangToken(nonNull));
    BangAt(toks, pos + 1, nonNull);
  }

  lemma ListAt(toks: seq<Token>, pos: nat, elem: TypeRef, nonNull: bool)
    requires Cursor(toks, pos) && TokensAt(toks, pos, Tokens(ListOf(elem, nonNull)))
    requires !IsAt(toks, pos + |Tokens(ListOf(elem, nonNull))|, '!')
    ensures var p := pos + 1 + |Tokens(elem)|;
            |Tokens(ListOf(elem, nonNull))| == p + 1 - pos + |Bang(nonNull)|
            && IsAt(toks, pos, '[') && TokensAt(toks, pos + 1, Tokens(elem)) && IsAt(toks, p, ']')
            && IsAt(toks, p + 1, '!') == nonNull
  {
    var w, bang := Tokens(elem), BangToken(nonNull);
    assert Tokens(ListOf(elem, nonNull)) == [Punct('[')] + (w + ([Punct(']')] + bang));
    hide Tokens, TokensAt;
    Bracketed(toks, pos, w, bang);
    BangAt(toks, pos + |w| + 2, nonNull);
  }

  lemma Bracketed(toks: seq<Token>, pos: nat, w: seq<Token>, bang: seq<Token>)
    requires TokensAt(toks, pos, [Punct('[')] + (w + ([Punct(']')] + bang)))
    ensures IsAt(toks, pos, '[') && TokensAt(toks, pos + 1, w) && IsAt(toks, pos + 1 + |w|, ']')
    ensures TokensAt(toks, pos + 2 + |w|, bang)
  {
    var tail := [Punct(']')] + bang;
    TokensSplit(toks, pos, [Punct('[')], w + tail);
    TokensSplit(toks, pos + 1, w, tail);
    TokensSplit(toks, pos + 1 + |w|, [Punct(']')], bang);
  }

  lemma BangAt(toks: seq<Token>, pos: nat, nonNull: bool)
    requires TokensAt(toks, pos, BangToken(nonNull)) && !IsAt(toks, pos + |BangToken(nonNull)|, '!')
    ensures IsAt(toks, pos, '!') == nonNull && |BangToken(nonNull)| == |Bang(nonNull)|
  {}

  lemma BracketsParse(toks: seq<Token>, pos: nat, depth: nat, elem: TypeRef, nonNull: bool, p: nat, ok: bool)
    requires Cursor(toks, pos) && depth <= MAX_DEPTH && IsAt(toks, pos, '[') && IsAt(toks, p, ']')
    requires ParseTypeRef(toks, pos + 1, depth + 1) == if ok then Some((elem, p)) else None
    requires IsAt(toks, p + 1, '!') == nonNull
    ensures ParseTypeRef(toks, pos, depth) == if ok then Some((ListOf(elem, nonNull), p + 1 + |Bang(nonNull)|)) else None
  {}

  lemma {:induction false} TokensAtStart(w: seq<Token>, rest: seq<Token>, before: seq<Token>)
    ensures TokensAt(before + w + rest, |before|, w)
    decreases |w|
  {
    if w != [] {
      assert before + w + rest == (before + [w[0]]) + w[1..] + rest;
      TokensAtStart(w[1..], rest, before + [w[0]]);
    }
  }

  lemma PrintLexed(r: TypeRef)
    requires ValidRef(r) && |Tokens(r)| <= MAX_TOKENS
    ensures Lex(Print(r)) == Some(Tokens(r) + [Eof])
  {
    hide Print, Tokens, LexOne;
    var src, toks := Print(r), Tokens(r);
    AtSelf(src);
    PrintLexes(src, 0, r);
    NoMark(r);
    LexEnd(src);
    hide LexFrom;
    assert LexFrom(src, 0, 0) == Continue(toks, LexFrom(src, |src|, 0 + |toks|));
  }

  lemma LexEnd(src: string)
    ensures forall n: nat :: LexFrom(src, |src|, n) == Some([Eof])
  {}

  lemma TokensParsed(r: TypeRef, toks: seq<Token>)
    requires toks == Tokens(r)
    ensures IsStream(toks + [Eof]) && Cursor(toks + [Eof], 0)
    ensures ParseTypeRef(toks + [Eof], 0, 0) == if Depth(r) <= MAX_DEPTH then Some((r, |toks|)) else None
  {
    NoEof(r);
    hide Tokens, ParseTypeRef;
    TokensAtStart(toks, [Eof], []);
    assert [] + toks + [Eof] == toks + [Eof];
    TokensParse(toks + [Eof], 0, 0, r);
  }

  lemma {:induction false} NoEof(r: TypeRef)
    ensures Eof !in Tokens(r)
  {
    if r.ListOf? { NoEof(r.elem); }
  }

  /** Printing, lexing and parsing gives the reference back exactly if it nests at most 32
      lists; deeper ones are refused. */
  lemma TypeRefRoundTrip(r: TypeRef)
    requires ValidRef(r) && 3 * Depth(r) + 2 <= MAX_TOKENS
    ensures Lex(Print(r)) == Some(Tokens(r) + [Eof])
    ensures IsStream(Tokens(r) + [Eof])
    ensures ParseTypeRef(Tokens(r) + [Eof], 0, 0) == if Depth(r) <= MAX_DEPTH then Some((r, |Tokens(r)|)) else None
  {
    hide Lex, ParseTypeRef, ValidRef;
    PrintLexed(r);
    TokensParsed(r, Tokens(r));
  }

  lemma {:induction false} NoMark(r: TypeRef)
    requires ValidRef(r)
    ensures Print(r) != "" && Print(r)[0] != '\U{FEFF}'
  {}
}
