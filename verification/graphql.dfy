/** The GraphQL front end: lexing and parsing a schema, and what stays in step while types are
    registered. Descriptions, line numbers and error texts are left out. */
module GraphQL {
  import opened Text

  const MAX_TYPES: nat := 2000
  const MAX_DEPTH: nat := 32
  const MAX_TOKENS: nat := 1_000_000

  datatype Token = Eof | Name(s: string) | Punct(c: char) | Str | Number(s: string)

  predicate IsNameStart(c: char) { c == '_' || 'a' <= c <= 'z' || 'A' <= c <= 'Z' }

  predicate IsNameCont(c: char) { IsNameStart(c) || IsDigit(c) }

  predicate IsPunct(c: char) { c in "!$&():=@[]{|}" }

  predicate IsBlank(c: char) { c in " \t,\n\r" }

  predicate IsNumberStart(c: char) { c == '-' || IsDigit(c) }

  predicate IsNumberCont(c: char) { IsDigit(c) || c in ".+-eE" }

  // ---- The lexer ----

  function NameEnd(src: string, j: nat): (e: nat)
    requires j <= |src|
    ensures j <= e <= |src|
    decreases |src| - j
  {
    if j < |src| && IsNameCont(src[j]) then NameEnd(src, j + 1) else j
  }

  function NumberEnd(src: string, j: nat): (e: nat)
    requires j <= |src|
    ensures j <= e <= |src|
    decreases |src| - j
  {
    if j < |src| && IsNumberCont(src[j]) then NumberEnd(src, j + 1) else j
  }

  function CommentEnd(src: string, j: nat): (e: nat)
    requires j <= |src|
    ensures j <= e <= |src|
    decreases |src| - j
  {
    if j < |src| && src[j] != '\n' && src[j] != '\r' then CommentEnd(src, j + 1) else j
  }

  /** The end of a block string, from inside it. */
  function BlockEnd(src: string, j: nat): (e: Option<nat>)
    requires j <= |src|
    ensures e.Some? ==> j < e.value <= |src|
    decreases |src| - j
  {
    AtBounds(src, j, "\\\"\"\"");
    AtBounds(src, j, "\"\"\"");
    if j == |src| then None
    else if At(src, j, "\\\"\"\"") then BlockEnd(src, j + 4)
    else if At(src, j, "\"\"\"") then Some(j + 3)
    else BlockEnd(src, j + 1)
  }

  predicate IsHex(c: char) { IsDigit(c) || 'a' <= c <= 'f' || 'A' <= c <= 'F' }

  /** The end of a quoted string, from inside it; escapes are checked. */
  function QuotedEnd(src: string, j: nat): (e: Option<nat>)
    requires j <= |src|
    ensures e.Some? ==> j < e.value <= |src|
    decreases |src| - j
  {
    if j == |src| || src[j] == '\n' || src[j] == '\r' then None
    else if src[j] == '"' then Some(j + 1)
    else if src[j] != '\\' then QuotedEnd(src, j + 1)
    else if j + 1 >= |src| then None
    else if src[j + 1] in "\"\\/ntrbf" then QuotedEnd(src, j + 2)
    else if src[j + 1] == 'u' && j + 6 <= |src| && forall k | j + 2 <= k < j + 6 :: IsHex(src[k]) then QuotedEnd(src, j + 6)
    else None
  }

  function StringEnd(src: string, i: nat): (e: Option<nat>)
    requires i < |src| && src[i] == '"'
    ensures e.Some? ==> i < e.value <= |src|
  {
    AtBounds(src, i, "\"\"\"");
    if At(src, i, "\"\"\"") then BlockEnd(src, i + 3) else QuotedEnd(src, i + 1)
  }

  /** The token or blank at `i`, and where what follows it starts. */
  function LexOne(src: string, i: nat): (r: Option<(seq<Token>, nat)>)
    requires i < |src|
    ensures r.Some? ==> i < r.value.1 <= |src| && |r.value.0| <= 1 && Eof !in r.value.0
  {
    var c := src[i];
    if IsBlank(c) then Some(([], i + 1))
    else if c == '#' then Some(([], CommentEnd(src, i + 1)))
    else if c == '"' then
      var e := StringEnd(src, i);
      if e.None? then None else Some(([Str], e.value))
    else if IsNameStart(c) then Some(([Name(src[i..NameEnd(src, i + 1)])], NameEnd(src, i + 1)))
    else if IsNumberStart(c) then Some(([Number(src[i..NumberEnd(src, i + 1)])], NumberEnd(src, i + 1)))
    else if IsPunct(c) then Some(([Punct(c)], i + 1))
    else None
  }

  /** The tokens from `i` on, `n` tokens into the source. */
  function LexFrom(src: string, i: nat, n: nat): (r: Option<seq<Token>>)
    requires i <= |src|
    ensures r.Some? ==> IsStream(r.value)
    decreases |src| - i
  {
    if i == |src| then Some([Eof])
    else
      var one := LexOne(src, i);
      if one.None? || n + |one.value.0| > MAX_TOKENS then None
      else
        var rest := LexFrom(src, one.value.1, n + |one.value.0|);
        if rest.None? then None else Some(one.value.0 + rest.value)
  }

  /** `lexGraphQL`: a byte order mark at the start is skipped. */
  function Lex(src: string): (r: Option<seq<Token>>)
    ensures r.Some? ==> IsStream(r.value)
  {
    LexFrom(src, if src != "" && src[0] == '\U{FEFF}' then 1 else 0, 0)
  }

  /** One end-of-input token, at the end. */
  predicate IsStream(toks: seq<Token>) {
    |toks| > 0 && toks[|toks| - 1].Eof? && forall i | 0 <= i < |toks| - 1 :: !toks[i].Eof?
  }

  /** The tokens so far, then those of the rest. */
  function Continue(toks: seq<Token>, rest: Option<seq<Token>>): Option<seq<Token>> {
    if rest.None? then None else Some(toks + rest.value)
  }

  lemma ContinueNothing(rest: Option<seq<Token>>)
    ensures Continue([], rest) == rest
  {
    if rest.Some? { assert [] + rest.value == rest.value; }
  }

  lemma ContinueMore(src: string, i: nat, toks: seq<Token>)
    requires i < |src|
    ensures var one := LexOne(src, i);
            Continue(toks, LexFrom(src, i, |toks|))
            == if one.None? || |toks| + |one.value.0| > MAX_TOKENS then None
               else Continue(toks + one.value.0, LexFrom(src, one.value.1, |toks + one.value.0|))
  {
    hide LexOne;
    var one := LexOne(src, i);
    if one.Some? && |toks| + |one.value.0| <= MAX_TOKENS {
      var rest := LexFrom(src, one.value.1, |toks| + |one.value.0|);
      if rest.Some? { assert toks + (one.value.0 + rest.value) == (toks + one.value.0) + rest.value; }
    }
  }

  method LexInPlace(src: string) returns (r: Option<seq<Token>>)
    ensures r == Lex(src)
  {
    var toks: seq<Token> := [];
    var i := if src != "" && src[0] == '\U{FEFF}' then 1 else 0;
    ContinueNothing(LexFrom(src, i, 0));
    while i < |src|
      invariant 0 <= i <= |src| && Lex(src) == Continue(toks, LexFrom(src, i, |toks|))
    {
      ContinueMore(src, i, toks);
      hide LexOne, LexFrom, Continue;
      var one := LexOne(src, i);
      if one.None? { return None; }
      if |toks| + |one.value.0| > MAX_TOKENS { return None; }
      toks := toks + one.value.0;
      i := one.value.1;
    }
    r := Some(toks + [Eof]);
  }

  // ---- The parser ----

  datatype TypeRef = Named(name: string, nonNull: bool) | ListOf(elem: TypeRef, nonNull: bool)

  datatype Kind = Object | Interface | Input | Enum | Union | Scalar

  datatype Arg = Arg(name: string, typ: TypeRef)

  datatype Field = Field(name: string, args: seq<Arg>, typ: TypeRef)

  datatype Type = Type(kind: Kind, name: string, fields: seq<Field>, enumValues: seq<string>, members: seq<string>)

  /** Types in order, and by name the place of each: the two views share the type. */
  datatype Schema = Schema(query: string, mutation: string, subscription: string, types: seq<Type>, byName: map<string, nat>)

  const NO_SCHEMA: Schema := Schema("", "", "", [], map[])

  const BUILTIN_SCALARS: set<string> := {"String", "ID", "Int", "Float", "Boolean"}

  predicate IsAt(toks: seq<Token>, pos: nat, c: char) { pos < |toks| && toks[pos] == Punct(c) }

  predicate IsKeyword(toks: seq<Token>, pos: nat, s: string) { pos < |toks| && toks[pos] == Name(s) }

  /** Every parser starts inside the tokens and, if it succeeds, stops inside them. */
  predicate Cursor(toks: seq<Token>, pos: nat) { IsStream(toks) && pos < |toks| }

  function Expect(toks: seq<Token>, pos: nat, c: char): (r: Option<nat>)
    requires Cursor(toks, pos)
    ensures r.Some? ==> r.value == pos + 1 && Cursor(toks, r.value)
  {
    if IsAt(toks, pos, c) then Some(pos + 1) else None
  }

  function Accept(toks: seq<Token>, pos: nat, c: char): (r: nat)
    requires Cursor(toks, pos)
    ensures pos <= r && Cursor(toks, r)
  {
    if IsAt(toks, pos, c) then pos + 1 else pos
  }

  function ExpectName(toks: seq<Token>, pos: nat): (r: Option<(string, nat)>)
    requires Cursor(toks, pos)
    ensures r.Some? ==> r.value.1 == pos + 1 && Cursor(toks, r.value.1)
  {
    if toks[pos].Name? then Some((toks[pos].s, pos + 1)) else None
  }

  function AcceptDescription(toks: seq<Token>, pos: nat): (r: nat)
    requires Cursor(toks, pos)
    ensures pos <= r && Cursor(toks, r)
  {
    if toks[pos].Str? then pos + 1 else pos
  }

  function ParseTypeRef(toks: seq<Token>, pos: nat, depth: nat): (r: Option<(TypeRef, nat)>)
    requires Cursor(toks, pos)
    ensures r.Some? ==> pos < r.value.1 && Cursor(toks, r.value.1)
    decreases |toks| - pos
  {
    if depth > MAX_DEPTH then None
    else if IsAt(toks, pos, '[') then
      var elem := ParseTypeRef(toks, pos + 1, depth + 1);
      if elem.None? || !IsAt(toks, elem.value.1, ']') then None
      else
        var p := elem.value.1 + 1;
        Some((ListOf(elem.value.0, IsAt(toks, p, '!')), Accept(toks, p, '!')))
    else
      var name := ExpectName(toks, pos);
      if name.None? then None
      else Some((Named(name.value.0, IsAt(toks, name.value.1, '!')), Accept(toks, name.value.1, '!')))
  }

  /** `skipValue`, and the loops over a list's values and an object's. */
  function SkipValue(toks: seq<Token>, pos: nat, depth: nat): (r: Option<nat>)
    requires Cursor(toks, pos)
    ensures r.Some? ==> pos < r.value && Cursor(toks, r.value)
    decreases |toks| - pos, 0
  {
    if depth > MAX_DEPTH then None
    else match toks[pos]
      case Number(_) => Some(pos + 1)
      case Str => Some(pos + 1)
      case Name(_) => Some(pos + 1)
      case Punct('$') => if toks[pos + 1].Name? then Some(pos + 2) else None
      case Punct('[') => SkipList(toks, pos + 1, depth)
      case Punct('{') => SkipObject(toks, pos + 1, depth)
      case _ => None
  }

  function SkipList(toks: seq<Token>, pos: nat, depth: nat): (r: Option<nat>)
    requires Cursor(toks, pos)
    ensures r.Some? ==> pos < r.value && Cursor(toks, r.value)
    decreases |toks| - pos, 1
  {
    if IsAt(toks, pos, ']') then Some(pos + 1)
    else if toks[pos].Eof? then None
    else
      var v := SkipValue(toks, pos, depth + 1);
      if v.None? then None else SkipList(toks, v.value, depth)
  }

  function SkipObject(toks: seq<Token>, pos: nat, depth: nat): (r: Option<nat>)
    requires Cursor(toks, pos)
    ensures r.Some? ==> pos < r.value && Cursor(toks, r.value)
    decreases |toks| - pos, 1
  {
    if IsAt(toks, pos, '}') then Some(pos + 1)
    else
      var p := NameColon(toks, pos);
      if p.None? then None
      else
        var v := SkipValue(toks, p.value.1, depth + 1);
        if v.None? then None else SkipObject(toks, v.value, depth)
  }

  function NameColon(toks: seq<Token>, pos: nat): (r: Option<(string, nat)>)
    requires Cursor(toks, pos)
    ensures r.Some? ==> r.value.1 == pos + 2 && Cursor(toks, r.value.1)
  {
    var name := ExpectName(toks, pos);
    if name.None? || !IsAt(toks, name.value.1, ':') then None else Some((name.value.0, name.value.1 + 1))
  }

  function SkipDirectives(toks: seq<Token>, pos: nat): (r: Option<nat>)
    requires Cursor(toks, pos)
    ensures r.Some? ==> pos <= r.value && Cursor(toks, r.value)
    decreases |toks| - pos
  {
    if !IsAt(toks, pos, '@') then Some(pos)
    else
      var name := ExpectName(toks, pos + 1);
      if name.None? then None
      else if !IsAt(toks, name.value.1, '(') then SkipDirectives(toks, name.value.1)
      else
        var args := SkipArgs(toks, name.value.1 + 1);
        if args.None? then None else SkipDirectives(toks, args.value)
  }

  function SkipArgs(toks: seq<Token>, pos: nat): (r: Option<nat>)
    requires Cursor(toks, pos)
    ensures r.Some? ==> pos < r.value && Cursor(toks, r.value)
    decreases |toks| - pos
  {
    if IsAt(toks, pos, ')') then Some(pos + 1)
    else
      var p := NameColon(toks, pos);
      if p.None? then None
      else
        var v := SkipValue(toks, p.value.1, 0);
        if v.None? then None else SkipArgs(toks, v.value)
  }

  /** A type, an optional default value and directives. */
  function TypeAndTail(toks: seq<Token>, pos: nat): (r: Option<(TypeRef, nat)>)
    requires Cursor(toks, pos)
    ensures r.Some? ==> pos < r.value.1 && Cursor(toks, r.value.1)
  {
    var typ := ParseTypeRef(toks, pos, 0);
    if typ.None? then None
    else
      var p := typ.value.1;
      var v := if IsAt(toks, p, '=') then SkipValue(toks, p + 1, 0) else Some(p);
      if v.None? then None
      else
        var d := SkipDirectives(toks, v.value);
        if d.None? then None else Some((typ.value.0, d.value))
  }

  /** Arguments up to the closing parenthesis. */
  function ParseArgs(toks: seq<Token>, pos: nat): (r: Option<(seq<Arg>, nat)>)
    requires Cursor(toks, pos)
    ensures r.Some? ==> pos < r.value.1 && Cursor(toks, r.value.1)
    decreases |toks| - pos
  {
    if IsAt(toks, pos, ')') then Some(([], pos + 1))
    else
      var name := NameColon(toks, AcceptDescription(toks, pos));
      if name.None? then None
      else
        var typ := TypeAndTail(toks, name.value.1);
        if typ.None? then None
        else
          var rest := ParseArgs(toks, typ.value.1);
          if rest.None? then None else Some(([Arg(name.value.0, typ.value.0)] + rest.value.0, rest.value.1))
  }

  function ParseField(toks: seq<Token>, pos: nat, kind: Kind): (r: Option<(Field, nat)>)
    requires Cursor(toks, pos)
    ensures r.Some? ==> pos < r.value.1 && Cursor(toks, r.value.1)
  {
    var name := ExpectName(toks, AcceptDescription(toks, pos));
    if name.None? then None
    else
      var p := name.value.1;
      var args := if !kind.Input? && IsAt(toks, p, '(') then ParseArgs(toks, p + 1) else Some(([], p));
      if args.None? || !IsAt(toks, args.value.1, ':') then None
      else
        var typ := TypeAndTail(toks, args.value.1 + 1);
        if typ.None? then None else Some((Field(name.value.0, args.value.0, typ.value.0), typ.value.1))
  }

  /** Fields up to the closing brace. */
  function ParseFields(toks: seq<Token>, pos: nat, kind: Kind): (r: Option<(seq<Field>, nat)>)
    requires Cursor(toks, pos)
    ensures r.Some? ==> pos < r.value.1 && Cursor(toks, r.value.1)
    decreases |toks| - pos
  {
    if IsAt(toks, pos, '}') then Some(([], pos + 1))
    else
      var f := ParseField(toks, pos, kind);
      if f.None? then None
      else
        var rest := ParseFields(toks, f.value.1, kind);
        if rest.None? then None else Some(([f.value.0] + rest.value.0, rest.value.1))
  }

  /** Names separated by a punctuator. */
  function ParseNames(toks: seq<Token>, pos: nat, sep: char): (r: Option<(seq<string>, nat)>)
    requires Cursor(toks, pos)
    ensures r.Some? ==> pos < r.value.1 && Cursor(toks, r.value.1)
    decreases |toks| - pos
  {
    var name := ExpectName(toks, pos);
    if name.None? then None
    else if !IsAt(toks, name.value.1, sep) then Some(([name.value.0], name.value.1))
    else
      var rest := ParseNames(toks, name.value.1 + 1, sep);
      if rest.None? then None else Some(([name.value.0] + rest.value.0, rest.value.1))
  }

  function ParseEnumValues(toks: seq<Token>, pos: nat): (r: Option<(seq<string>, nat)>)
    requires Cursor(toks, pos)
    ensures r.Some? ==> pos < r.value.1 && Cursor(toks, r.value.1)
    decreases |toks| - pos
  {
    if IsAt(toks, pos, '}') then Some(([], pos + 1))
    else
      var name := ExpectName(toks, AcceptDescription(toks, pos));
      if name.None? then None
      else
        var d := SkipDirectives(toks, name.value.1);
        if d.None? then None
        else
          var rest := ParseEnumValues(toks, d.value);
          if rest.None? then None else Some(([name.value.0] + rest.value.0, rest.value.1))
  }

  // ---- Definitions ----

  function TypeNamed(s: Schema, name: string): Option<Type> {
    if name in s.byName && s.byName[name] < |s.types| then Some(s.types[s.byName[name]]) else None
  }

  function RootFields(s: Schema, declared: string, conventional: string): seq<Field> {
    var t := TypeNamed(s, if declared == "" then conventional else declared);
    if t.Some? && t.value.kind.Object? then t.value.fields else []
  }

  /** A new type, or more of one already there. */
  function Register(s: Schema, t: Type, extend: bool): Option<Schema> {
    if t.name !in s.byName then
      if |s.types| >= MAX_TYPES then None
      else Some(s.(types := s.types + [t], byName := s.byName[t.name := |s.types|]))
    else
      var existing := TypeNamed(s, t.name);
      if !extend || existing.None? || existing.value.kind != t.kind then None
      else
        var o := existing.value;
        Some(s.(types := s.types[s.byName[t.name] :=
          o.(fields := o.fields + t.fields, enumValues := o.enumValues + t.enumValues, members := o.members + t.members)]))
  }

  function Registered(s: Schema, t: Type, extend: bool, pos: nat): Option<(Schema, nat)> {
    var r := Register(s, t, extend);
    if r.None? then None else Some((r.value, pos))
  }

  /** Root operations up to the closing brace. */
  function ParseRoots(toks: seq<Token>, pos: nat, s: Schema): (r: Option<(Schema, nat)>)
    requires Cursor(toks, pos)
    ensures r.Some? ==> pos < r.value.1 && Cursor(toks, r.value.1)
    decreases |toks| - pos
  {
    if IsAt(toks, pos, '}') then Some((s, pos + 1))
    else
      var op := NameColon(toks, pos);
      if op.None? then None
      else
        var name := ExpectName(toks, op.value.1);
        if name.None? then None
        else if op.value.0 == "query" then ParseRoots(toks, name.value.1, s.(query := name.value.0))
        else if op.value.0 == "mutation" then ParseRoots(toks, name.value.1, s.(mutation := name.value.0))
        else if op.value.0 == "subscription" then ParseRoots(toks, name.value.1, s.(subscription := name.value.0))
        else None
  }

  function ParseSchemaDef(toks: seq<Token>, pos: nat, s: Schema): (r: Option<(Schema, nat)>)
    requires Cursor(toks, pos)
    ensures r.Some? ==> pos <= r.value.1 && Cursor(toks, r.value.1)
  {
    var d := SkipDirectives(toks, pos);
    if d.None? then None
    else if !IsAt(toks, d.value, '{') then Some((s, d.value))
    else ParseRoots(toks, d.value + 1, s)
  }

  function SkipImplements(toks: seq<Token>, pos: nat, kind: Kind): (r: Option<nat>)
    requires Cursor(toks, pos)
    ensures r.Some? ==> pos <= r.value && Cursor(toks, r.value)
  {
    if kind.Input? || !IsKeyword(toks, pos, "implements") then Some(pos)
    else
      var names := ParseNames(toks, Accept(toks, pos + 1, '&'), '&');
      if names.None? then None else Some(names.value.1)
  }

  function ParseCompositeDef(toks: seq<Token>, pos: nat, s: Schema, kind: Kind, extend: bool): (r: Option<(Schema, nat)>)
    requires Cursor(toks, pos)
    ensures r.Some? ==> pos < r.value.1 && Cursor(toks, r.value.1)
  {
    var name := ExpectName(toks, pos);
    if name.None? then None
    else
      var i := SkipImplements(toks, name.value.1, kind);
      if i.None? then None
      else
        var d := SkipDirectives(toks, i.value);
        if d.None? then None
        else
          var fields := if IsAt(toks, d.value, '{') then ParseFields(toks, d.value + 1, kind) else Some(([], d.value));
          if fields.None? then None
          else Registered(s, Type(kind, name.value.0, fields.value.0, [], []), extend, fields.value.1)
  }

  function ParseEnumDef(toks: seq<Token>, pos: nat, s: Schema, extend: bool): (r: Option<(Schema, nat)>)
    requires Cursor(toks, pos)
    ensures r.Some? ==> pos < r.value.1 && Cursor(toks, r.value.1)
  {
    var name := ExpectName(toks, pos);
    if name.None? then None
    else
      var d := SkipDirectives(toks, name.value.1);
      if d.None? then None
      else
        var vs := if IsAt(toks, d.value, '{') then ParseEnumValues(toks, d.value + 1) else Some(([], d.value));
        if vs.None? then None else Registered(s, Type(Enum, name.value.0, [], vs.value.0, []), extend, vs.value.1)
  }

  function ParseUnionDef(toks: seq<Token>, pos: nat, s: Schema, extend: bool): (r: Option<(Schema, nat)>)
    requires Cursor(toks, pos)
    ensures r.Some? ==> pos < r.value.1 && Cursor(toks, r.value.1)
  {
    var name := ExpectName(toks, pos);
    if name.None? then None
    else
      var d := SkipDirectives(toks, name.value.1);
      if d.None? then None
      else
        var ms := if IsAt(toks, d.value, '=') then ParseNames(toks, Accept(toks, d.value + 1, '|'), '|') else Some(([], d.value));
        if ms.None? then None else Registered(s, Type(Union, name.value.0, [], [], ms.value.0), extend, ms.value.1)
  }

  function ParseScalarDef(toks: seq<Token>, pos: nat, s: Schema, extend: bool): (r: Option<(Schema, nat)>)
    requires Cursor(toks, pos)
    ensures r.Some? ==> pos < r.value.1 && Cursor(toks, r.value.1)
  {
    var name := ExpectName(toks, pos);
    if name.None? then None
    else
      var d := SkipDirectives(toks, name.value.1);
      if d.None? then None
      else if name.value.0 in BUILTIN_SCALARS then Some((s, d.value))
      else Registered(s, Type(Scalar, name.value.0, [], [], []), extend, d.value)
  }

  function ParseDirectiveDef(toks: seq<Token>, pos: nat, s: Schema): (r: Option<(Schema, nat)>)
    requires Cursor(toks, pos)
    ensures r.Some? ==> pos < r.value.1 && Cursor(toks, r.value.1)
  {
    var at := Expect(toks, pos, '@');
    var name := if at.None? then None else ExpectName(toks, at.value);
    if name.None? then None
    else
      var args := if IsAt(toks, name.value.1, '(') then ParseArgs(toks, name.value.1 + 1) else Some(([], name.value.1));
      if args.None? then None
      else
        var p := if IsKeyword(toks, args.value.1, "repeatable") then args.value.1 + 1 else args.value.1;
        if !IsKeyword(toks, p, "on") then None
        else
          var places := ParseNames(toks, Accept(toks, p + 1, '|'), '|');
          if places.None? then None else Some((s, places.value.1))
  }

  function ParseDefinition(toks: seq<Token>, pos: nat, s: Schema, extend: bool): (r: Option<(Schema, nat)>)
    requires Cursor(toks, pos)
    ensures r.Some? ==> pos < r.value.1 && Cursor(toks, r.value.1)
    decreases |toks| - pos
  {
    if !toks[pos].Name? then None
    else
      var word, p := toks[pos].s, pos + 1;
      if word == "schema" then ParseSchemaDef(toks, p, s)
      else if word == "type" then ParseCompositeDef(toks, p, s, Object, extend)
      else if word == "interface" then ParseCompositeDef(toks, p, s, Interface, extend)
      else if word == "input" then ParseCompositeDef(toks, p, s, Input, extend)
      else if word == "enum" then ParseEnumDef(toks, p, s, extend)
      else if word == "union" then ParseUnionDef(toks, p, s, extend)
      else if word == "scalar" then ParseScalarDef(toks, p, s, extend)
      else if word == "directive" then ParseDirectiveDef(toks, p, s)
      else if word == "extend" && !extend then ParseDefinition(toks, p, s, true)
      else None
  }

  function ParseDefinitions(toks: seq<Token>, pos: nat, s: Schema): Option<Schema>
    requires Cursor(toks, pos)
    decreases |toks| - pos
  {
    if toks[pos].Eof? then Some(s)
    else
      var d := ParseDefinition(toks, AcceptDescription(toks, pos), s, false);
      if d.None? then None else ParseDefinitions(toks, d.value.1, d.value.0)
  }

  /** `parseGraphQLSDL`: the schema must have a query or a mutation field. */
  function ParseSDL(src: string): Option<Schema> {
    var toks := Lex(src);
    var s := if toks.None? then None else ParseDefinitions(toks.value, 0, NO_SCHEMA);
    if s.None? then None
    else if RootFields(s.value, s.value.query, "Query") == [] && RootFields(s.value, s.value.mutation, "Mutation") == [] then None
    else s
  }

  // ---- Names and types stay in step ----

  /** Every name leads to the type of that name, every type has one, and there are not too many. */
  ghost predicate InStep(s: Schema) {
    && (forall name | name in s.byName :: s.byName[name] < |s.types| && s.types[s.byName[name]].name == name)
    && (forall i | 0 <= i < |s.types| :: s.types[i].name in s.byName && s.byName[s.types[i].name] == i)
    && |s.types| <= MAX_TYPES
  }

  lemma RegisterKeepsStep(s: Schema, t: Type, extend: bool)
    requires InStep(s) && Register(s, t, extend).Some?
    ensures InStep(Register(s, t, extend).value)
  {}

  // ---- Names keep the lexer's characters ----

  predicate NameChars(s: string) { forall i | 0 <= i < |s| :: IsNameCont(s[i]) }

  ghost predicate LexedNames(toks: seq<Token>) { forall i | 0 <= i < |toks| && toks[i].Name? :: NameChars(toks[i].s) }

  ghost predicate LexedTypes(s: Schema) { forall i | 0 <= i < |s.types| :: NameChars(s.types[i].name) }

  lemma {:induction false} NameEndChars(src: string, j: nat)
    requires j <= |src|
    ensures forall k | j <= k < NameEnd(src, j) :: IsNameCont(src[k])
    decreases |src| - j
  {
    if j < |src| && IsNameCont(src[j]) { NameEndChars(src, j + 1); }
  }

  lemma OneLexed(src: string, i: nat)
    requires i < |src| && LexOne(src, i).Some?
    ensures LexedNames(LexOne(src, i).value.0)
  {
    if IsNameStart(src[i]) { NameEndChars(src, i + 1); }
    hide StringEnd, CommentEnd, NumberEnd, NameEnd;
  }

  lemma {:induction false} AllLexed(src: string, i: nat, n: nat)
    requires i <= |src| && LexFrom(src, i, n).Some?
    ensures LexedNames(LexFrom(src, i, n).value)
    decreases |src| - i
  {
    if i < |src| {
      hide LexOne, NameChars;
      OneLexed(src, i);
      var one := LexOne(src, i).value;
      AllLexed(src, one.1, n + |one.0|);
    }
  }

  lemma RegisterKeepsNames(s: Schema, t: Type, extend: bool)
    requires LexedTypes(s) && InStep(s) && NameChars(t.name) && Register(s, t, extend).Some?
    ensures LexedTypes(Register(s, t, extend).value)
  {
    hide NameChars;
  }

  // ---- Both hold of all that is parsed ----

  ghost predicate Sound(s: Schema) { InStep(s) && LexedTypes(s) }

  lemma {:induction false} RootsKeepStep(toks: seq<Token>, pos: nat, s: Schema)
    requires Cursor(toks, pos) && LexedNames(toks) && Sound(s) && ParseRoots(toks, pos, s).Some?
    ensures Sound(ParseRoots(toks, pos, s).value.0)
    decreases |toks| - pos
  {
    if !IsAt(toks, pos, '}') {
      var op := NameColon(toks, pos);
      var name := ExpectName(toks, op.value.1);
      if op.value.0 == "query" { RootsKeepStep(toks, name.value.1, s.(query := name.value.0)); }
      else if op.value.0 == "mutation" { RootsKeepStep(toks, name.value.1, s.(mutation := name.value.0)); }
      else { RootsKeepStep(toks, name.value.1, s.(subscription := name.value.0)); }
    }
  }

  lemma RegisteredKeepsStep(s: Schema, t: Type, extend: bool, pos: nat)
    requires Sound(s) && NameChars(t.name)
    ensures var r := Registered(s, t, extend, pos); r.Some? ==> Sound(r.value.0)
  {
    hide Register, InStep, LexedTypes;
    if Register(s, t, extend).Some? {
      RegisterKeepsStep(s, t, extend);
      RegisterKeepsNames(s, t, extend);
    }
  }

  lemma CompositeKeepsStep(toks: seq<Token>, pos: nat, s: Schema, kind: Kind, extend: bool)
    requires Cursor(toks, pos) && LexedNames(toks) && Sound(s) && ParseCompositeDef(toks, pos, s, kind, extend).Some?
    ensures Sound(ParseCompositeDef(toks, pos, s, kind, extend).value.0)
  {
    hide Sound, NameChars, Registered, ParseFields, SkipDirectives, SkipImplements;
    var name := ExpectName(toks, pos);
    var d := SkipDirectives(toks, SkipImplements(toks, name.value.1, kind).value).value;
    var fields := if IsAt(toks, d, '{') then ParseFields(toks, d + 1, kind) else Some(([], d));
    RegisteredKeepsStep(s, Type(kind, name.value.0, fields.value.0, [], []), extend, fields.value.1);
  }

  lemma OthersKeepStep(toks: seq<Token>, pos: nat, s: Schema, extend: bool)
    requires Cursor(toks, pos) && LexedNames(toks) && Sound(s)
    ensures var r := ParseEnumDef(toks, pos, s, extend); r.Some? ==> Sound(r.value.0)
    ensures var r := ParseUnionDef(toks, pos, s, extend); r.Some? ==> Sound(r.value.0)
    ensures var r := ParseScalarDef(toks, pos, s, extend); r.Some? ==> Sound(r.value.0)
    ensures var r := ParseDirectiveDef(toks, pos, s); r.Some? ==> Sound(r.value.0)
  {
    hide Sound, NameChars, Registered, ParseEnumValues, ParseNames, ParseArgs, SkipDirectives;
    var name := ExpectName(toks, pos);
    if name.Some? {
      var d := SkipDirectives(toks, name.value.1);
      if d.Some? {
        var vs := if IsAt(toks, d.value, '{') then ParseEnumValues(toks, d.value + 1) else Some(([], d.value));
        if vs.Some? { RegisteredKeepsStep(s, Type(Enum, name.value.0, [], vs.value.0, []), extend, vs.value.1); }
        var ms := if IsAt(toks, d.value, '=') then ParseNames(toks, Accept(toks, d.value + 1, '|'), '|') else Some(([], d.value));
        if ms.Some? { RegisteredKeepsStep(s, Type(Union, name.value.0, [], [], ms.value.0), extend, ms.value.1); }
        RegisteredKeepsStep(s, Type(Scalar, name.value.0, [], [], []), extend, d.value);
      }
    }
  }

  lemma {:induction false} DefinitionKeepsStep(toks: seq<Token>, pos: nat, s: Schema, extend: bool)
    requires Cursor(toks, pos) && LexedNames(toks) && Sound(s) && ParseDefinition(toks, pos, s, extend).Some?
    ensures Sound(ParseDefinition(toks, pos, s, extend).value.0)
    decreases |toks| - pos
  {
    hide Sound, NameChars, ParseCompositeDef, ParseEnumDef, ParseUnionDef, ParseScalarDef, ParseDirectiveDef, ParseRoots, SkipDirectives;
    var word, p := toks[pos].s, pos + 1;
    if word == "schema" {
      var d := SkipDirectives(toks, p).value;
      if IsAt(toks, d, '{') { RootsKeepStep(toks, d + 1, s); }
    } else if word == "type" { CompositeKeepsStep(toks, p, s, Object, extend); }
    else if word == "interface" { CompositeKeepsStep(toks, p, s, Interface, extend); }
    else if word == "input" { CompositeKeepsStep(toks, p, s, Input, extend); }
    else if word == "extend" { DefinitionKeepsStep(toks, p, s, true); }
    else { OthersKeepStep(toks, p, s, extend); }
  }

  lemma {:induction false} DefinitionsKeepStep(toks: seq<Token>, pos: nat, s: Schema)
    requires Cursor(toks, pos) && LexedNames(toks) && Sound(s) && ParseDefinitions(toks, pos, s).Some?
    ensures Sound(ParseDefinitions(toks, pos, s).value)
    decreases |toks| - pos
  {
    hide Sound, NameChars, ParseDefinition;
    if !toks[pos].Eof? {
      var p := AcceptDescription(toks, pos);
      DefinitionKeepsStep(toks, p, s, false);
      var d := ParseDefinition(toks, p, s, false).value;
      DefinitionsKeepStep(toks, d.1, d.0);
    }
  }

  lemma ParsedSound(src: string)
    requires ParseSDL(src).Some?
    ensures Sound(ParseSDL(src).value)
  {
    AllLexed(src, if src != "" && src[0] == '\U{FEFF}' then 1 else 0, 0);
    hide LexFrom, ParseDefinitions, RootFields, NameChars;
    assert Sound(NO_SCHEMA);
    DefinitionsKeepStep(Lex(src).value, 0, NO_SCHEMA);
  }

  /** In every schema the parser accepts, names and types are in step. */
  lemma ParsedInStep(src: string)
    requires ParseSDL(src).Some?
    ensures InStep(ParseSDL(src).value)
  {
    hide ParseSDL, InStep;
    ParsedSound(src);
  }

  /** And the names are made of letters, digits and underscores. */
  lemma ParsedNames(src: string)
    requires ParseSDL(src).Some?
    ensures forall name | name in ParseSDL(src).value.byName :: NameChars(name)
  {
    hide ParseSDL, NameChars;
    ParsedSound(src);
  }
}
