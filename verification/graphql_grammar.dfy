/** Schema documents as written, with their descriptions, default values and directives, and the
    proof that parsing the tokens of one gives exactly the types it declares. */
module GraphQLGrammar {
  import opened GraphQL
  import opened GraphQLTypeRef
  import opened Text

  // ---- Documents as written ----

  datatype Value =
    | Literal(token: Token)                          // a number, a string or a name
    | Variable(name: string)
    | Values(items: seq<Value>)
    | Members(members: seq<Member>)

  datatype Member = Member(name: string, value: Value)

  datatype Directive = Directive(name: string, args: Option<seq<Member>>)

  /** What follows a type: a default value and directives. */
  datatype Tail = Tail(initial: Option<Value>, directives: seq<Directive>)

  datatype ArgDef = ArgDef(described: bool, name: string, typ: TypeRef, tail: Tail)

  datatype FieldDef = FieldDef(described: bool, name: string, args: Option<seq<ArgDef>>, typ: TypeRef, tail: Tail)

  datatype EnumItem = EnumItem(described: bool, name: string, directives: seq<Directive>)

  /** Names in a row, with a separator before the first or not. */
  datatype Row = Row(led: bool, names: seq<string>)

  datatype Body =
    | Roots(directives: seq<Directive>, roots: Option<seq<(string, string)>>)
    | Composite(kind: Kind, name: string, interfaces: Option<Row>, directives: seq<Directive>, fields: Option<seq<FieldDef>>)
    | Enumeration(name: string, directives: seq<Directive>, items: Option<seq<EnumItem>>)
    | UnionOf(name: string, directives: seq<Directive>, members: Option<Row>)
    | ScalarType(name: string, directives: seq<Directive>)
    | DirectiveType(name: string, args: Option<seq<ArgDef>>, repeatable: bool, places: Row)

  datatype Definition = Definition(described: bool, extend: bool, body: Body)

  // ---- Their tokens ----

  function Mark(c: char): seq<Token> { [Punct(c)] }

  function Description(described: bool): seq<Token> { if described then [Str] else [] }

  function ValueTokens(v: Value): seq<Token>
    decreases v, 0
  {
    match v
    case Literal(t) => [t]
    case Variable(name) => Mark('$') + [Name(name)]
    case Values(items) => Mark('[') + (ItemsTokens(items) + Mark(']'))
    case Members(members) => Mark('{') + (MembersTokens(members) + Mark('}'))
  }

  function ItemsTokens(items: seq<Value>): seq<Token>
    decreases items, 1
  {
    if items == [] then [] else ValueTokens(items[0]) + ItemsTokens(items[1..])
  }

  function MembersTokens(ms: seq<Member>): seq<Token>
    decreases ms, 1
  {
    if ms == [] then [] else [Name(ms[0].name), Punct(':')] + (ValueTokens(ms[0].value) + MembersTokens(ms[1..]))
  }

  function DirectiveTokens(d: Directive): seq<Token> {
    Mark('@') + ([Name(d.name)] + if d.args.None? then [] else Mark('(') + (MembersTokens(d.args.value) + Mark(')')))
  }

  function DirectivesTokens(ds: seq<Directive>): seq<Token> {
    if ds == [] then [] else DirectiveTokens(ds[0]) + DirectivesTokens(ds[1..])
  }

  function TailTokens(t: Tail): seq<Token> {
    (if t.initial.None? then [] else Mark('=') + ValueTokens(t.initial.value)) + DirectivesTokens(t.directives)
  }

  function ArgTokens(a: ArgDef): seq<Token> {
    Description(a.described) + ([Name(a.name), Punct(':')] + (Tokens(a.typ) + TailTokens(a.tail)))
  }

  function ArgsTokens(args: seq<ArgDef>): seq<Token> { if args == [] then [] else ArgTokens(args[0]) + ArgsTokens(args[1..]) }

  function OptArgsTokens(args: Option<seq<ArgDef>>): seq<Token> {
    if args.None? then [] else Mark('(') + (ArgsTokens(args.value) + Mark(')'))
  }

  function FieldTokens(f: FieldDef): seq<Token> {
    Description(f.described) + ([Name(f.name)] + (OptArgsTokens(f.args) + (Mark(':') + (Tokens(f.typ) + TailTokens(f.tail)))))
  }

  function FieldsTokens(fs: seq<FieldDef>): seq<Token> { if fs == [] then [] else FieldTokens(fs[0]) + FieldsTokens(fs[1..]) }

  function ItemTokens(e: EnumItem): seq<Token> { Description(e.described) + ([Name(e.name)] + DirectivesTokens(e.directives)) }

  function EnumTokens(es: seq<EnumItem>): seq<Token> { if es == [] then [] else ItemTokens(es[0]) + EnumTokens(es[1..]) }

  function NamesTokens(names: seq<string>, sep: char): seq<Token> {
    if names == [] then [] else if |names| == 1 then [Name(names[0])] else [Name(names[0]), Punct(sep)] + NamesTokens(names[1..], sep)
  }

  function RowTokens(r: Row, sep: char): seq<Token> { (if r.led then Mark(sep) else []) + NamesTokens(r.names, sep) }

  function RootsTokens(rs: seq<(string, string)>): seq<Token> {
    if rs == [] then [] else [Name(rs[0].0), Punct(':'), Name(rs[0].1)] + RootsTokens(rs[1..])
  }

  function Braced(w: seq<Token>): seq<Token> { Mark('{') + (w + Mark('}')) }

  function Keyword(k: Kind): string {
    match k
    case Object => "type"
    case Interface => "interface"
    case Input => "input"
    case Enum => "enum"
    case Union => "union"
    case Scalar => "scalar"
  }

  function BodyTokens(b: Body): seq<Token> {
    match b
    case Roots(ds, roots) =>
      [Name("schema")] + (DirectivesTokens(ds) + if roots.None? then [] else Braced(RootsTokens(roots.value)))
    case Composite(kind, name, interfaces, ds, fields) =>
      [Name(Keyword(kind)), Name(name)]
      + ((if interfaces.None? then [] else [Name("implements")] + RowTokens(interfaces.value, '&'))
         + (DirectivesTokens(ds) + if fields.None? then [] else Braced(FieldsTokens(fields.value))))
    case Enumeration(name, ds, items) =>
      [Name("enum"), Name(name)] + (DirectivesTokens(ds) + if items.None? then [] else Braced(EnumTokens(items.value)))
    case UnionOf(name, ds, members) =>
      [Name("union"), Name(name)] + (DirectivesTokens(ds) + if members.None? then [] else Mark('=') + RowTokens(members.value, '|'))
    case ScalarType(name, ds) => [Name("scalar"), Name(name)] + DirectivesTokens(ds)
    case DirectiveType(name, args, repeatable, places) =>
      [Name("directive"), Punct('@'), Name(name)]
      + (OptArgsTokens(args) + ((if repeatable then [Name("repeatable")] else []) + ([Name("on")] + RowTokens(places, '|'))))
  }

  function DefinitionTokens(d: Definition): seq<Token> {
    Description(d.described) + ((if d.extend then [Name("extend")] else []) + BodyTokens(d.body))
  }

  function DocumentTokens(ds: seq<Definition>): seq<Token> {
    if ds == [] then [] else DefinitionTokens(ds[0]) + DocumentTokens(ds[1..])
  }

  // ---- What may be written ----

  /** Values nest at most 32 deep. */
  predicate ValueFits(v: Value, depth: nat)
    decreases v
  {
    depth <= MAX_DEPTH
    && match v
       case Literal(t) => t.Number? || t.Str? || t.Name?
       case Variable(_) => true
       case Values(items) => forall i | 0 <= i < |items| :: ValueFits(items[i], depth + 1)
       case Members(members) => forall i | 0 <= i < |members| :: ValueFits(members[i].value, depth + 1)
  }

  predicate DirectiveFits(d: Directive) { d.args.Some? ==> forall i | 0 <= i < |d.args.value| :: ValueFits(d.args.value[i].value, 0) }

  predicate DirectivesFit(ds: seq<Directive>) { forall i | 0 <= i < |ds| :: DirectiveFits(ds[i]) }

  predicate TailFits(t: Tail) { (t.initial.Some? ==> ValueFits(t.initial.value, 0)) && DirectivesFit(t.directives) }

  predicate ArgFits(a: ArgDef) { Depth(a.typ) <= MAX_DEPTH && TailFits(a.tail) }

  predicate ArgsFit(args: Option<seq<ArgDef>>) { args.Some? ==> forall i | 0 <= i < |args.value| :: ArgFits(args.value[i]) }

  predicate FieldFits(f: FieldDef, kind: Kind) {
    Depth(f.typ) <= MAX_DEPTH && TailFits(f.tail) && ArgsFit(f.args) && (kind.Input? ==> f.args.None?)
  }

  predicate BodyFits(b: Body) {
    match b
    case Roots(ds, _) => DirectivesFit(ds)
    case Composite(kind, _, interfaces, ds, fields) =>
      && (kind.Object? || kind.Interface? || kind.Input?) && (kind.Input? ==> interfaces.None?)
      && (interfaces.Some? ==> interfaces.value.names != []) && DirectivesFit(ds)
      && (fields.Some? ==> forall i | 0 <= i < |fields.value| :: FieldFits(fields.value[i], kind))
    case Enumeration(_, ds, items) =>
      DirectivesFit(ds) && (items.Some? ==> forall i | 0 <= i < |items.value| :: DirectivesFit(items.value[i].directives))
    case UnionOf(_, ds, members) => DirectivesFit(ds) && (members.Some? ==> members.value.names != [])
    case ScalarType(_, ds) => DirectivesFit(ds)
    case DirectiveType(_, args, _, places) => ArgsFit(args) && places.names != []
  }

  // ---- What it declares ----

  function ArgOf(a: ArgDef): Arg { Arg(a.name, a.typ) }

  function ArgsOf(args: Option<seq<ArgDef>>): seq<Arg> {
    if args.None? then [] else seq(|args.value|, i requires 0 <= i < |args.value| => ArgOf(args.value[i]))
  }

  function FieldsOf(fs: Option<seq<FieldDef>>): seq<Field> {
    if fs.None? then []
    else seq(|fs.value|, i requires 0 <= i < |fs.value| => Field(fs.value[i].name, ArgsOf(fs.value[i].args), fs.value[i].typ))
  }

  function ItemsOf(es: Option<seq<EnumItem>>): seq<string> {
    if es.None? then [] else seq(|es.value|, i requires 0 <= i < |es.value| => es.value[i].name)
  }

  function NamesOf(r: Option<Row>): seq<string> { if r.None? then [] else r.value.names }

  /** The type a definition declares, if it declares one. */
  function TypeOf(b: Body): Option<Type> {
    match b
    case Composite(kind, name, _, _, fields) => Some(Type(kind, name, FieldsOf(fields), [], []))
    case Enumeration(name, _, items) => Some(Type(Enum, name, [], ItemsOf(items), []))
    case UnionOf(name, _, members) => Some(Type(Union, name, [], [], NamesOf(members)))
    case ScalarType(name, _) => if name in {"String", "ID", "Int", "Float", "Boolean"} then None else Some(Type(Scalar, name, [], [], []))
    case _ => None
  }

  /** The root types named one after another. */
  function WithRoots(s: Schema, rs: seq<(string, string)>): Option<Schema>
    decreases rs
  {
    if rs == [] then Some(s)
    else if rs[0].0 == "query" then WithRoots(s.(query := rs[0].1), rs[1..])
    else if rs[0].0 == "mutation" then WithRoots(s.(mutation := rs[0].1), rs[1..])
    else if rs[0].0 == "subscription" then WithRoots(s.(subscription := rs[0].1), rs[1..])
    else None
  }

  function Declared(s: Schema, b: Body, extend: bool): Option<Schema> {
    if b.Roots? then if b.roots.None? then Some(s) else WithRoots(s, b.roots.value)
    else if TypeOf(b).None? then Some(s)
    else Register(s, TypeOf(b).value, extend)
  }

  /** All definitions in turn, as long as each is accepted. */
  function Meaning(s: Schema, ds: seq<Definition>): Option<Schema>
    decreases |ds|
  {
    if ds == [] then Some(s)
    else
      var next := Declared(s, ds[0].body, ds[0].extend);
      if next.None? then None else Meaning(next.value, ds[1..])
  }

  // ---- Positions ----

  /** The tokens `w` stand at `pos`, and more follows. */
  ghost predicate Stand(toks: seq<Token>, pos: nat, w: seq<Token>) { TokensAt(toks, pos, w) && Cursor(toks, pos + |w|) }

  lemma {:induction false} StandEach(toks: seq<Token>, pos: nat, w: seq<Token>)
    requires TokensAt(toks, pos, w)
    ensures pos + |w| <= |toks| || w == []
    ensures forall k | 0 <= k < |w| :: toks[pos + k] == w[k]
    decreases |w|
  {
    if w != [] { StandEach(toks, pos + 1, w[1..]); }
  }

  lemma StandSplit(toks: seq<Token>, pos: nat, a: seq<Token>, b: seq<Token>)
    requires Stand(toks, pos, a + b)
    ensures Stand(toks, pos, a) && Stand(toks, pos + |a|, b)
    ensures forall k | 0 <= k < |a| :: toks[pos + k] == a[k]
  {
    TokensSplit(toks, pos, a, b);
    StandEach(toks, pos, a);
  }

  lemma OneStands(toks: seq<Token>, pos: nat, t: Token, rest: seq<Token>)
    requires Stand(toks, pos, [t] + rest)
    ensures Cursor(toks, pos) && toks[pos] == t && Stand(toks, pos + 1, rest)
  {
    StandSplit(toks, pos, [t], rest);
  }

  /** A mark, something, and another mark. */
  lemma Enclosed(toks: seq<Token>, pos: nat, open: char, w: seq<Token>, close: char)
    requires Stand(toks, pos, Mark(open) + (w + Mark(close)))
    ensures IsAt(toks, pos, open) && Stand(toks, pos + 1, w) && IsAt(toks, pos + 1 + |w|, close) && Cursor(toks, pos + 2 + |w|)
  {
    OneStands(toks, pos, Punct(open), w + Mark(close));
    StandSplit(toks, pos + 1, w, Mark(close));
  }

  lemma NameColonStands(toks: seq<Token>, pos: nat, name: string, rest: seq<Token>)
    requires Stand(toks, pos, [Name(name), Punct(':')] + rest)
    ensures Cursor(toks, pos) && toks[pos] == Name(name) && Stand(toks, pos + 2, rest) && NameColon(toks, pos) == Some((name, pos + 2))
  {
    assert [Name(name), Punct(':')] + rest == [Name(name)] + ([Punct(':')] + rest);
    OneStands(toks, pos, Name(name), [Punct(':')] + rest);
    OneStands(toks, pos + 1, Punct(':'), rest);
  }

  // ---- Values and directives are skipped ----

  lemma {:induction false} ValueSkips(toks: seq<Token>, pos: nat, depth: nat, v: Value)
    requires Stand(toks, pos, ValueTokens(v)) && ValueFits(v, depth)
    ensures SkipValue(toks, pos, depth) == Some(pos + |ValueTokens(v)|)
    decreases v, 0
  {
    match v
    case Literal(t) => StandEach(toks, pos, [t]);
    case Variable(name) =>
      OneStands(toks, pos, Punct('$'), [Name(name)]);
      StandEach(toks, pos + 1, [Name(name)]);
    case Values(items) =>
      hide Stand, ItemsTokens, SkipList;
      Enclosed(toks, pos, '[', ItemsTokens(items), ']');
      ItemsSkip(toks, pos + 1, depth, items);
    case Members(members) =>
      hide Stand, MembersTokens, SkipObject;
      Enclosed(toks, pos, '{', MembersTokens(members), '}');
      MembersSkip(toks, pos + 1, depth, members);
  }

  lemma {:induction false} ItemsSkip(toks: seq<Token>, pos: nat, depth: nat, items: seq<Value>)
    requires Stand(toks, pos, ItemsTokens(items)) && IsAt(toks, pos + |ItemsTokens(items)|, ']')
    requires depth <= MAX_DEPTH && forall i | 0 <= i < |items| :: ValueFits(items[i], depth + 1)
    ensures SkipList(toks, pos, depth) == Some(pos + |ItemsTokens(items)| + 1)
    decreases items, 1
  {
    if items != [] {
      var v, rest := ValueTokens(items[0]), ItemsTokens(items[1..]);
      hide ValueTokens, ValueFits, SkipValue;
      StandSplit(toks, pos, v, rest);
      ValueStart(items[0], depth + 1);
      assert toks[pos + 0] == v[0];
      ValueSkips(toks, pos, depth + 1, items[0]);
      ItemsSkip(toks, pos + |v|, depth, items[1..]);
    }
  }

  /** No value starts as a list or an object ends. */
  lemma ValueStart(v: Value, depth: nat)
    requires ValueFits(v, depth)
    ensures ValueTokens(v) != [] && ValueTokens(v)[0] != Punct(']') && ValueTokens(v)[0] != Eof
  {}

  lemma {:induction false} MembersSkip(toks: seq<Token>, pos: nat, depth: nat, ms: seq<Member>)
    requires Stand(toks, pos, MembersTokens(ms)) && IsAt(toks, pos + |MembersTokens(ms)|, '}')
    requires depth <= MAX_DEPTH && forall i | 0 <= i < |ms| :: ValueFits(ms[i].value, depth + 1)
    ensures SkipObject(toks, pos, depth) == Some(pos + |MembersTokens(ms)| + 1)
    decreases ms, 1
  {
    if ms != [] {
      var v, rest := ValueTokens(ms[0].value), MembersTokens(ms[1..]);
      hide ValueTokens, ValueFits, SkipValue, NameColon;
      NameColonStands(toks, pos, ms[0].name, v + rest);
      StandSplit(toks, pos + 2, v, rest);
      ValueSkips(toks, pos + 2, depth + 1, ms[0].value);
      MembersSkip(toks, pos + 2 + |v|, depth, ms[1..]);
    }
  }

  lemma {:induction false} ArgsSkip(toks: seq<Token>, pos: nat, ms: seq<Member>)
    requires Stand(toks, pos, MembersTokens(ms)) && IsAt(toks, pos + |MembersTokens(ms)|, ')')
    requires forall i | 0 <= i < |ms| :: ValueFits(ms[i].value, 0)
    ensures SkipArgs(toks, pos) == Some(pos + |MembersTokens(ms)| + 1)
    decreases |ms|
  {
    if ms != [] {
      var v, rest := ValueTokens(ms[0].value), MembersTokens(ms[1..]);
      hide ValueTokens, ValueFits, SkipValue, NameColon;
      NameColonStands(toks, pos, ms[0].name, v + rest);
      StandSplit(toks, pos + 2, v, rest);
      ValueSkips(toks, pos + 2, 0, ms[0].value);
      ArgsSkip(toks, pos + 2 + |v|, ms[1..]);
    }
  }

  /** What does not go on with more directives. */
  predicate NoDirective(toks: seq<Token>, pos: nat) { !IsAt(toks, pos, '@') && !IsAt(toks, pos, '(') }

  lemma DirectiveSkips(toks: seq<Token>, pos: nat, d: Directive)
    requires Stand(toks, pos, DirectiveTokens(d)) && DirectiveFits(d) && !IsAt(toks, pos + |DirectiveTokens(d)|, '(')
    ensures SkipDirectives(toks, pos) == SkipDirectives(toks, pos + |DirectiveTokens(d)|)
  {
    hide MembersTokens, SkipArgs, ValueFits;
    var more := if d.args.None? then [] else Mark('(') + (MembersTokens(d.args.value) + Mark(')'));
    OneStands(toks, pos, Punct('@'), [Name(d.name)] + more);
    OneStands(toks, pos + 1, Name(d.name), more);
    if d.args.Some? {
      Enclosed(toks, pos + 2, '(', MembersTokens(d.args.value), ')');
      ArgsSkip(toks, pos + 3, d.args.value);
    }
  }

  lemma DirectiveStart(d: Directive)
    ensures DirectiveTokens(d) != [] && DirectiveTokens(d)[0] == Punct('@')
  {}

  lemma {:induction false} DirectivesSkip(toks: seq<Token>, pos: nat, ds: seq<Directive>)
    requires Stand(toks, pos, DirectivesTokens(ds)) && DirectivesFit(ds) && NoDirective(toks, pos + |DirectivesTokens(ds)|)
    ensures SkipDirectives(toks, pos) == Some(pos + |DirectivesTokens(ds)|)
    ensures ds != [] ==> IsAt(toks, pos, '@')
    decreases |ds|
  {
    if ds != [] {
      var w, rest := DirectiveTokens(ds[0]), DirectivesTokens(ds[1..]);
      hide DirectiveTokens, DirectiveFits, SkipDirectives;
      DirectiveStart(ds[0]);
      StandSplit(toks, pos, w, rest);
      assert toks[pos + 0] == w[0];
      DirectivesSkip(toks, pos + |w|, ds[1..]);
      DirectiveSkips(toks, pos, ds[0]);
    }
  }

  /** What can follow a field, an argument or an enum value: a name, a string or a closing bracket. */
  predicate Stops(toks: seq<Token>, pos: nat) {
    pos < |toks| && (toks[pos].Name? || toks[pos].Str? || toks[pos].Eof? || IsAt(toks, pos, ')') || IsAt(toks, pos, '}'))
  }

  // ---- Types, arguments and fields ----

  lemma TailParses(toks: seq<Token>, pos: nat, typ: TypeRef, t: Tail)
    requires Stand(toks, pos, Tokens(typ) + TailTokens(t)) && Depth(typ) <= MAX_DEPTH && TailFits(t)
    requires Stops(toks, pos + |Tokens(typ) + TailTokens(t)|)
    ensures TypeAndTail(toks, pos) == Some((typ, pos + |Tokens(typ) + TailTokens(t)|))
  {
    hide Tokens, DirectivesTokens, ValueTokens, ParseTypeRef, SkipValue, SkipDirectives, DirectivesFit, ValueFits;
    var p, ds := pos + |Tokens(typ)|, DirectivesTokens(t.directives);
    StandSplit(toks, pos, Tokens(typ), TailTokens(t));
    if t.initial.Some? {
      var v := ValueTokens(t.initial.value);
      StandSplit(toks, p, Mark('=') + v, ds);
      OneStands(toks, p, Punct('='), v);
      ValueSkips(toks, p + 1, 0, t.initial.value);
      DirectivesSkip(toks, p + 1 + |v|, t.directives);
    } else {
      assert [] + ds == ds;
      DirectivesSkip(toks, p, t.directives);
      NoneWritten();
    }
    TokensParse(toks, pos, 0, typ);
  }

  lemma NoneWritten()
    ensures DirectivesTokens([]) == []
  {}

  /** A description or the name itself comes first. */
  lemma DescriptionStands(toks: seq<Token>, pos: nat, described: bool, name: string, rest: seq<Token>)
    requires Stand(toks, pos, Description(described) + ([Name(name)] + rest))
    ensures Cursor(toks, pos) && (toks[pos].Name? || toks[pos].Str?)
    ensures AcceptDescription(toks, pos) == pos + |Description(described)|
    ensures Stand(toks, pos + |Description(described)|, [Name(name)] + rest)
    ensures toks[pos + |Description(described)|] == Name(name) && Stand(toks, pos + |Description(described)| + 1, rest)
  {
    StandSplit(toks, pos, Description(described), [Name(name)] + rest);
    if described { StandEach(toks, pos, [Str]); }
    OneStands(toks, pos + |Description(described)|, Name(name), rest);
  }

  lemma ArgParses(toks: seq<Token>, pos: nat, a: ArgDef)
    requires Stand(toks, pos, ArgTokens(a)) && ArgFits(a) && Stops(toks, pos + |ArgTokens(a)|)
    ensures Cursor(toks, pos) && (toks[pos].Name? || toks[pos].Str?)
    ensures var p := AcceptDescription(toks, pos);
            NameColon(toks, p) == Some((a.name, p + 2)) && TypeAndTail(toks, p + 2) == Some((a.typ, pos + |ArgTokens(a)|))
  {
    hide Tokens, TailTokens, Stand, TypeAndTail, NameColon, TailFits;
    var w := Tokens(a.typ) + TailTokens(a.tail);
    assert [Name(a.name), Punct(':')] + w == [Name(a.name)] + ([Punct(':')] + w);
    DescriptionStands(toks, pos, a.described, a.name, [Punct(':')] + w);
    NameColonStands(toks, pos + |Description(a.described)|, a.name, w);
    TailParses(toks, pos + |Description(a.described)| + 2, a.typ, a.tail);
  }

  lemma ArgsOfOne(args: seq<ArgDef>)
    requires args != []
    ensures ArgsOf(Some(args)) == [ArgOf(args[0])] + ArgsOf(Some(args[1..]))
  {}

  lemma Stopped(toks: seq<Token>, pos: nat)
    requires Cursor(toks, pos) && (toks[pos].Name? || toks[pos].Str?)
    ensures Stops(toks, pos) && !IsAt(toks, pos, ')') && !IsAt(toks, pos, '}')
  {}

  lemma ArgsUnfold(toks: seq<Token>, pos: nat, a: ArgDef, q: nat, rest: seq<Arg>, end: nat)
    requires Cursor(toks, pos) && !IsAt(toks, pos, ')') && Cursor(toks, q)
    requires var p := AcceptDescription(toks, pos); NameColon(toks, p) == Some((a.name, p + 2)) && TypeAndTail(toks, p + 2) == Some((a.typ, q))
    requires ParseArgs(toks, q) == Some((rest, end))
    ensures ParseArgs(toks, pos) == Some(([ArgOf(a)] + rest, end))
  {
    hide AcceptDescription, NameColon, TypeAndTail;
  }

  lemma NoArgs(toks: seq<Token>, pos: nat)
    requires Stand(toks, pos, ArgsTokens([])) && IsAt(toks, pos + |ArgsTokens([])|, ')')
    ensures ParseArgs(toks, pos) == Some((ArgsOf(Some([])), pos + |ArgsTokens([])| + 1)) && Stops(toks, pos)
  {
    assert ArgsOf(Some([])) == [];
  }

  lemma ArgsWritten(args: seq<ArgDef>)
    requires args != [] && ArgsFit(Some(args))
    ensures ArgsTokens(args) == ArgTokens(args[0]) + ArgsTokens(args[1..]) && ArgFits(args[0]) && ArgsFit(Some(args[1..]))
  {
    hide ArgFits, ArgTokens;
  }

  lemma {:induction false} ArgsParse(toks: seq<Token>, pos: nat, args: seq<ArgDef>)
    requires Stand(toks, pos, ArgsTokens(args)) && IsAt(toks, pos + |ArgsTokens(args)|, ')') && ArgsFit(Some(args))
    ensures ParseArgs(toks, pos) == Some((ArgsOf(Some(args)), pos + |ArgsTokens(args)| + 1))
    ensures Stops(toks, pos)
    decreases |args|
  {
    hide *;
    if args == [] {
      NoArgs(toks, pos);
    } else {
      var w, rest := ArgTokens(args[0]), ArgsTokens(args[1..]);
      ArgsWritten(args);
      StandSplit(toks, pos, w, rest);
      ArgsParse(toks, pos + |w|, args[1..]);
      ArgParses(toks, pos, args[0]);
      Stopped(toks, pos);
      StandsWithin(toks, pos + |w|, rest);
      ArgsUnfold(toks, pos, args[0], pos + |w|, ArgsOf(Some(args[1..])), pos + |w| + |rest| + 1);
      ArgsOfOne(args);
    }
  }

  lemma StandsWithin(toks: seq<Token>, pos: nat, w: seq<Token>)
    requires Stand(toks, pos, w)
    ensures Cursor(toks, pos)
  {}

  /** The arguments of a field or a directive, if it has any. */
  lemma OptArgsParse(toks: seq<Token>, pos: nat, args: Option<seq<ArgDef>>)
    requires Stand(toks, pos, OptArgsTokens(args)) && ArgsFit(args) && !IsAt(toks, pos + |OptArgsTokens(args)|, '(')
    ensures IsAt(toks, pos, '(') <==> args.Some?
    ensures args.Some? ==> ParseArgs(toks, pos + 1) == Some((ArgsOf(args), pos + |OptArgsTokens(args)|))
    ensures args.None? ==> ArgsOf(args) == [] && OptArgsTokens(args) == []
  {
    hide *;
    if args.Some? {
      OptArgsWritten(args);
      Enclosed(toks, pos, '(', ArgsTokens(args.value), ')');
      ArgsParse(toks, pos + 1, args.value);
    } else {
      NoneGiven(toks, pos, args);
    }
  }

  lemma OptArgsWritten(args: Option<seq<ArgDef>>)
    requires args.Some?
    ensures OptArgsTokens(args) == Mark('(') + (ArgsTokens(args.value) + Mark(')'))
    ensures |OptArgsTokens(args)| == |ArgsTokens(args.value)| + 2
    ensures args == Some(args.value)
  {}

  lemma NoneGiven(toks: seq<Token>, pos: nat, args: Option<seq<ArgDef>>)
    requires args.None? && !IsAt(toks, pos + |OptArgsTokens(args)|, '(')
    ensures !IsAt(toks, pos, '(') && ArgsOf(args) == [] && OptArgsTokens(args) == []
  {}

  function FieldOf(f: FieldDef): Field { Field(f.name, ArgsOf(f.args), f.typ) }

  lemma FieldParses(toks: seq<Token>, pos: nat, f: FieldDef, kind: Kind)
    requires Stand(toks, pos, FieldTokens(f)) && FieldFits(f, kind) && Stops(toks, pos + |FieldTokens(f)|)
    ensures Cursor(toks, pos) && (toks[pos].Name? || toks[pos].Str?)
    ensures ParseField(toks, pos, kind) == Some((FieldOf(f), pos + |FieldTokens(f)|))
  {
    hide Tokens, TailTokens, Stand, TypeAndTail, TailFits, ArgsFit, OptArgsTokens, ParseArgs, ArgsOf;
    var w, args := Tokens(f.typ) + TailTokens(f.tail), OptArgsTokens(f.args);
    var p := pos + |Description(f.described)| + 1;
    DescriptionStands(toks, pos, f.described, f.name, args + (Mark(':') + w));
    StandSplit(toks, p, args, Mark(':') + w);
    OneStands(toks, p + |args|, Punct(':'), w);
    OptArgsParse(toks, p, f.args);
    TailParses(toks, p + |args| + 1, f.typ, f.tail);
  }

  lemma FieldsOfOne(fs: seq<FieldDef>)
    requires fs != []
    ensures FieldsOf(Some(fs)) == [FieldOf(fs[0])] + FieldsOf(Some(fs[1..]))
  {}

  lemma FieldsUnfold(toks: seq<Token>, pos: nat, kind: Kind, f: Field, q: nat, rest: seq<Field>, end: nat)
    requires Cursor(toks, pos) && !IsAt(toks, pos, '}') && Cursor(toks, q)
    requires ParseField(toks, pos, kind) == Some((f, q)) && ParseFields(toks, q, kind) == Some((rest, end))
    ensures ParseFields(toks, pos, kind) == Some(([f] + rest, end))
  {
    hide ParseField;
  }

  lemma NoFields(toks: seq<Token>, pos: nat, kind: Kind)
    requires Stand(toks, pos, FieldsTokens([])) && IsAt(toks, pos + |FieldsTokens([])|, '}')
    ensures ParseFields(toks, pos, kind) == Some((FieldsOf(Some([])), pos + |FieldsTokens([])| + 1)) && Stops(toks, pos)
  {
    assert FieldsOf(Some([])) == [];
  }

  lemma FieldsWritten(fs: seq<FieldDef>)
    requires fs != []
    ensures FieldsTokens(fs) == FieldTokens(fs[0]) + FieldsTokens(fs[1..])
  {}

  lemma {:induction false} FieldsParse(toks: seq<Token>, pos: nat, fs: seq<FieldDef>, kind: Kind)
    requires Stand(toks, pos, FieldsTokens(fs)) && IsAt(toks, pos + |FieldsTokens(fs)|, '}')
    requires forall i | 0 <= i < |fs| :: FieldFits(fs[i], kind)
    ensures ParseFields(toks, pos, kind) == Some((FieldsOf(Some(fs)), pos + |FieldsTokens(fs)| + 1))
    ensures Stops(toks, pos)
    decreases |fs|
  {
    hide *;
    if fs == [] {
      NoFields(toks, pos, kind);
    } else {
      var w, rest := FieldTokens(fs[0]), FieldsTokens(fs[1..]);
      FieldsWritten(fs);
      StandSplit(toks, pos, w, rest);
      FieldsParse(toks, pos + |w|, fs[1..], kind);
      FieldParses(toks, pos, fs[0], kind);
      Stopped(toks, pos);
      StandsWithin(toks, pos + |w|, rest);
      FieldsUnfold(toks, pos, kind, FieldOf(fs[0]), pos + |w|, FieldsOf(Some(fs[1..])), pos + |w| + |rest| + 1);
      FieldsOfOne(fs);
    }
  }

  // ---- Names, enum values and root types ----

  lemma {:induction false} NamesParse(toks: seq<Token>, pos: nat, names: seq<string>, sep: char)
    requires names != [] && Stand(toks, pos, NamesTokens(names, sep)) && !IsAt(toks, pos + |NamesTokens(names, sep)|, sep)
    ensures ParseNames(toks, pos, sep) == Some((names, pos + |NamesTokens(names, sep)|)) && toks[pos].Name?
    decreases |names|
  {
    if |names| == 1 {
      StandEach(toks, pos, [Name(names[0])]);
      assert names == [names[0]];
    } else {
      var rest := NamesTokens(names[1..], sep);
      assert [Name(names[0]), Punct(sep)] + rest == [Name(names[0])] + ([Punct(sep)] + rest);
      OneStands(toks, pos, Name(names[0]), [Punct(sep)] + rest);
      OneStands(toks, pos + 1, Punct(sep), rest);
      NamesParse(toks, pos + 2, names[1..], sep);
      assert names == [names[0]] + names[1..];
    }
  }

  lemma RowParses(toks: seq<Token>, pos: nat, r: Row, sep: char)
    requires r.names != [] && Stand(toks, pos, RowTokens(r, sep)) && !IsAt(toks, pos + |RowTokens(r, sep)|, sep)
    ensures ParseNames(toks, Accept(toks, pos, sep), sep) == Some((r.names, pos + |RowTokens(r, sep)|))
  {
    hide NamesTokens, ParseNames;
    var lead := if r.led then Mark(sep) else [];
    StandSplit(toks, pos, lead, NamesTokens(r.names, sep));
    if r.led { StandEach(toks, pos, Mark(sep)); }
    NamesParse(toks, pos + |lead|, r.names, sep);
  }

  lemma ItemsOfOne(es: seq<EnumItem>)
    requires es != []
    ensures ItemsOf(Some(es)) == [es[0].name] + ItemsOf(Some(es[1..]))
  {}

  lemma ItemParses(toks: seq<Token>, pos: nat, e: EnumItem)
    requires Stand(toks, pos, ItemTokens(e)) && DirectivesFit(e.directives) && Stops(toks, pos + |ItemTokens(e)|)
    ensures Cursor(toks, pos) && (toks[pos].Name? || toks[pos].Str?)
    ensures var p := AcceptDescription(toks, pos);
            ExpectName(toks, p) == Some((e.name, p + 1)) && SkipDirectives(toks, p + 1) == Some(pos + |ItemTokens(e)|)
  {
    hide Stand, DirectivesTokens, SkipDirectives, DirectivesFit;
    DescriptionStands(toks, pos, e.described, e.name, DirectivesTokens(e.directives));
    DirectivesSkip(toks, pos + |Description(e.described)| + 1, e.directives);
  }

  lemma EnumUnfold(toks: seq<Token>, pos: nat, name: string, q: nat, rest: seq<string>, end: nat)
    requires Cursor(toks, pos) && !IsAt(toks, pos, '}') && Cursor(toks, q)
    requires var p := AcceptDescription(toks, pos); ExpectName(toks, p) == Some((name, p + 1)) && SkipDirectives(toks, p + 1) == Some(q)
    requires ParseEnumValues(toks, q) == Some((rest, end))
    ensures ParseEnumValues(toks, pos) == Some(([name] + rest, end))
  {
    hide AcceptDescription, ExpectName, SkipDirectives;
  }

  lemma NoItems(toks: seq<Token>, pos: nat)
    requires Stand(toks, pos, EnumTokens([])) && IsAt(toks, pos + |EnumTokens([])|, '}')
    ensures ParseEnumValues(toks, pos) == Some((ItemsOf(Some([])), pos + |EnumTokens([])| + 1)) && Stops(toks, pos)
  {
    assert ItemsOf(Some([])) == [];
  }

  lemma ItemsWritten(es: seq<EnumItem>)
    requires es != []
    ensures EnumTokens(es) == ItemTokens(es[0]) + EnumTokens(es[1..])
  {}

  lemma {:induction false} EnumParses(toks: seq<Token>, pos: nat, es: seq<EnumItem>)
    requires Stand(toks, pos, EnumTokens(es)) && IsAt(toks, pos + |EnumTokens(es)|, '}')
    requires forall i | 0 <= i < |es| :: DirectivesFit(es[i].directives)
    ensures ParseEnumValues(toks, pos) == Some((ItemsOf(Some(es)), pos + |EnumTokens(es)| + 1))
    ensures Stops(toks, pos)
    decreases |es|
  {
    hide *;
    if es == [] {
      NoItems(toks, pos);
    } else {
      var w, rest := ItemTokens(es[0]), EnumTokens(es[1..]);
      ItemsWritten(es);
      StandSplit(toks, pos, w, rest);
      EnumParses(toks, pos + |w|, es[1..]);
      ItemParses(toks, pos, es[0]);
      Stopped(toks, pos);
      StandsWithin(toks, pos + |w|, rest);
      EnumUnfold(toks, pos, es[0].name, pos + |w|, ItemsOf(Some(es[1..])), pos + |w| + |rest| + 1);
      ItemsOfOne(es);
    }
  }

  lemma {:induction false} RootsParse(toks: seq<Token>, pos: nat, s: Schema, rs: seq<(string, string)>)
    requires Stand(toks, pos, RootsTokens(rs)) && IsAt(toks, pos + |RootsTokens(rs)|, '}')
    ensures ParseRoots(toks, pos, s)
            == if WithRoots(s, rs).None? then None else Some((WithRoots(s, rs).value, pos + |RootsTokens(rs)| + 1))
    decreases |rs|
  {
    if rs != [] {
      hide NameColon;
      var rest := RootsTokens(rs[1..]);
      assert [Name(rs[0].0), Punct(':'), Name(rs[0].1)] + rest == [Name(rs[0].0), Punct(':')] + ([Name(rs[0].1)] + rest);
      NameColonStands(toks, pos, rs[0].0, [Name(rs[0].1)] + rest);
      OneStands(toks, pos + 2, Name(rs[0].1), rest);
      if rs[0].0 == "query" { RootsParse(toks, pos + 3, s.(query := rs[0].1), rs[1..]); }
      else if rs[0].0 == "mutation" { RootsParse(toks, pos + 3, s.(mutation := rs[0].1), rs[1..]); }
      else if rs[0].0 == "subscription" { RootsParse(toks, pos + 3, s.(subscription := rs[0].1), rs[1..]); }
    }
  }

  // ---- Definitions ----

  const STARTS: set<string> := {"schema", "type", "interface", "input", "enum", "union", "scalar", "directive", "extend"}

  /** Where a definition ends: at the next one, or at the end of the document. */
  predicate Boundary(toks: seq<Token>, pos: nat) {
    pos < |toks| && (toks[pos].Eof? || toks[pos].Str? || (toks[pos].Name? && toks[pos].s in STARTS))
  }

  lemma BoundaryIs(toks: seq<Token>, pos: nat)
    requires Boundary(toks, pos)
    ensures forall c :: !IsAt(toks, pos, c)
    ensures !IsKeyword(toks, pos, "implements") && NoDirective(toks, pos)
  {}

  /** Directives, and after them a block, an equals sign or the end. */
  lemma DirectivesThen(toks: seq<Token>, pos: nat, ds: seq<Directive>, rest: seq<Token>)
    requires Stand(toks, pos, DirectivesTokens(ds) + rest) && DirectivesFit(ds)
    requires if rest == [] then Boundary(toks, pos + |DirectivesTokens(ds) + rest|) else rest[0] == Punct('{') || rest[0] == Punct('=')
    ensures var p := pos + |DirectivesTokens(ds)|;
            SkipDirectives(toks, pos) == Some(p) && Stand(toks, p, rest) && (rest == [] ==> Boundary(toks, p))
    ensures !IsAt(toks, pos, '&') && !IsKeyword(toks, pos, "implements")
  {
    hide DirectivesTokens, SkipDirectives, DirectivesFit, Boundary;
    var p := pos + |DirectivesTokens(ds)|;
    StandSplit(toks, pos, DirectivesTokens(ds), rest);
    if rest == [] { BoundaryIs(toks, p); } else { StandEach(toks, p, rest); assert toks[p + 0] == rest[0]; }
    DirectivesSkip(toks, pos, ds);
    if ds == [] { NoneWritten(); }
  }

  lemma Bracketed(toks: seq<Token>, pos: nat, w: seq<Token>)
    requires Stand(toks, pos, Braced(w))
    ensures IsAt(toks, pos, '{') && Stand(toks, pos + 1, w) && IsAt(toks, pos + 1 + |w|, '}') && Cursor(toks, pos + 2 + |w|)
    ensures |Braced(w)| == |w| + 2
  {
    Enclosed(toks, pos, '{', w, '}');
  }

  function InterfacesTokens(r: Option<Row>): seq<Token> { if r.None? then [] else [Name("implements")] + RowTokens(r.value, '&') }

  lemma InterfacesSkip(toks: seq<Token>, pos: nat, kind: Kind, r: Option<Row>, rest: seq<Token>)
    requires Stand(toks, pos, InterfacesTokens(r) + rest) && (r.Some? ==> r.value.names != [] && !kind.Input?)
    requires var p := pos + |InterfacesTokens(r)|; !IsAt(toks, p, '&') && !IsKeyword(toks, p, "implements")
    ensures var p := pos + |InterfacesTokens(r)|; SkipImplements(toks, pos, kind) == Some(p) && Stand(toks, p, rest)
  {
    hide RowTokens, ParseNames;
    StandSplit(toks, pos, InterfacesTokens(r), rest);
    if r.Some? {
      OneStands(toks, pos, Name("implements"), RowTokens(r.value, '&'));
      RowParses(toks, pos + 1, r.value, '&');
    }
  }

  function FieldBlock(fs: Option<seq<FieldDef>>): seq<Token> { if fs.None? then [] else Braced(FieldsTokens(fs.value)) }

  lemma FieldBlockParses(toks: seq<Token>, pos: nat, fs: Option<seq<FieldDef>>, kind: Kind)
    requires Stand(toks, pos, FieldBlock(fs)) && (fs.None? ==> Boundary(toks, pos))
    requires fs.Some? ==> forall i | 0 <= i < |fs.value| :: FieldFits(fs.value[i], kind)
    ensures IsAt(toks, pos, '{') <==> fs.Some?
    ensures fs.Some? ==> ParseFields(toks, pos + 1, kind) == Some((FieldsOf(fs), pos + |FieldBlock(fs)|))
    ensures fs.None? ==> FieldsOf(fs) == [] && FieldBlock(fs) == []
  {
    hide FieldsTokens, ParseFields, FieldFits, FieldsOf, Stand;
    if fs.Some? {
      Bracketed(toks, pos, FieldsTokens(fs.value));
      FieldsParse(toks, pos + 1, fs.value, kind);
      assert fs == Some(fs.value);
    } else {
      BoundaryIs(toks, pos);
      NoFieldsOf();
    }
  }

  lemma NoFieldsOf()
    ensures FieldsOf(None) == [] && ItemsOf(None) == []
  {}

  lemma CompositeParses(toks: seq<Token>, pos: nat, s: Schema, b: Body, extend: bool, w: seq<Token>)
    requires b.Composite? && BodyFits(b) && w == [Name(b.name)] + (InterfacesTokens(b.interfaces) + (DirectivesTokens(b.directives) + FieldBlock(b.fields)))
    requires Stand(toks, pos, w) && Boundary(toks, pos + |w|)
    ensures ParseCompositeDef(toks, pos, s, b.kind, extend)
            == Registered(s, Type(b.kind, b.name, FieldsOf(b.fields), [], []), extend, pos + |w|)
  {
    hide InterfacesTokens, DirectivesTokens, Stand, Boundary, SkipImplements, SkipDirectives, ParseFields, FieldFits, FieldsOf,
         Registered, DirectivesFit, FieldsTokens;
    var ifs, ds, fs := InterfacesTokens(b.interfaces), DirectivesTokens(b.directives), FieldBlock(b.fields);
    var p := pos + 1 + |ifs|;
    OneStands(toks, pos, Name(b.name), ifs + (ds + fs));
    StandSplit(toks, pos + 1, ifs, ds + fs);
    DirectivesThen(toks, p, b.directives, fs);
    InterfacesSkip(toks, pos + 1, b.kind, b.interfaces, ds + fs);
    FieldBlockParses(toks, p + |ds|, b.fields, b.kind);
  }

  function ItemBlock(es: Option<seq<EnumItem>>): seq<Token> { if es.None? then [] else Braced(EnumTokens(es.value)) }

  lemma EnumerationParses(toks: seq<Token>, pos: nat, s: Schema, b: Body, extend: bool, w: seq<Token>)
    requires b.Enumeration? && BodyFits(b) && w == [Name(b.name)] + (DirectivesTokens(b.directives) + ItemBlock(b.items))
    requires Stand(toks, pos, w) && Boundary(toks, pos + |w|)
    ensures ParseEnumDef(toks, pos, s, extend) == Registered(s, Type(Enum, b.name, [], ItemsOf(b.items), []), extend, pos + |w|)
  {
    hide DirectivesTokens, Stand, Boundary, SkipDirectives, ParseEnumValues, ItemsOf, Registered, DirectivesFit, EnumTokens;
    var ds, es := DirectivesTokens(b.directives), ItemBlock(b.items);
    var p := pos + 1 + |ds|;
    OneStands(toks, pos, Name(b.name), ds + es);
    DirectivesThen(toks, pos + 1, b.directives, es);
    if b.items.Some? {
      Bracketed(toks, p, EnumTokens(b.items.value));
      EnumParses(toks, p + 1, b.items.value);
      assert b.items == Some(b.items.value);
    } else {
      BoundaryIs(toks, p);
      NoFieldsOf();
    }
  }

  function MembersRow(r: Option<Row>): seq<Token> { if r.None? then [] else Mark('=') + RowTokens(r.value, '|') }

  lemma UnionParses(toks: seq<Token>, pos: nat, s: Schema, b: Body, extend: bool, w: seq<Token>)
    requires b.UnionOf? && BodyFits(b) && w == [Name(b.name)] + (DirectivesTokens(b.directives) + MembersRow(b.members))
    requires Stand(toks, pos, w) && Boundary(toks, pos + |w|)
    ensures ParseUnionDef(toks, pos, s, extend) == Registered(s, Type(Union, b.name, [], [], NamesOf(b.members)), extend, pos + |w|)
  {
    hide DirectivesTokens, Stand, Boundary, SkipDirectives, ParseNames, Registered, DirectivesFit, RowTokens;
    var ds, ms := DirectivesTokens(b.directives), MembersRow(b.members);
    var p := pos + 1 + |ds|;
    OneStands(toks, pos, Name(b.name), ds + ms);
    DirectivesThen(toks, pos + 1, b.directives, ms);
    BoundaryIs(toks, pos + |w|);
    if b.members.Some? {
      OneStands(toks, p, Punct('='), RowTokens(b.members.value, '|'));
      RowParses(toks, p + 1, b.members.value, '|');
    } else {
      BoundaryIs(toks, p);
    }
  }

  lemma ScalarParses(toks: seq<Token>, pos: nat, s: Schema, b: Body, extend: bool, w: seq<Token>)
    requires b.ScalarType? && BodyFits(b) && w == [Name(b.name)] + DirectivesTokens(b.directives)
    requires Stand(toks, pos, w) && Boundary(toks, pos + |w|)
    ensures ParseScalarDef(toks, pos, s, extend)
            == if TypeOf(b).None? then Some((s, pos + |w|)) else Registered(s, TypeOf(b).value, extend, pos + |w|)
  {
    hide DirectivesTokens, Stand, Boundary, SkipDirectives, Registered, DirectivesFit;
    var ds := DirectivesTokens(b.directives);
    assert ds + [] == ds;
    OneStands(toks, pos, Name(b.name), ds);
    DirectivesThen(toks, pos + 1, b.directives, []);
  }

  lemma SchemaParses(toks: seq<Token>, pos: nat, s: Schema, b: Body, w: seq<Token>)
    requires b.Roots? && BodyFits(b)
    requires w == DirectivesTokens(b.directives) + (if b.roots.None? then [] else Braced(RootsTokens(b.roots.value)))
    requires Stand(toks, pos, w) && Boundary(toks, pos + |w|)
    ensures var after := if b.roots.None? then Some(s) else WithRoots(s, b.roots.value);
            ParseSchemaDef(toks, pos, s) == if after.None? then None else Some((after.value, pos + |w|))
  {
    hide DirectivesTokens, Stand, Boundary, SkipDirectives, DirectivesFit, RootsTokens, WithRoots, ParseRoots;
    var ds := DirectivesTokens(b.directives);
    var p := pos + |ds|;
    if b.roots.Some? {
      DirectivesThen(toks, pos, b.directives, Braced(RootsTokens(b.roots.value)));
      Bracketed(toks, p, RootsTokens(b.roots.value));
      RootsParse(toks, p + 1, s, b.roots.value);
    } else {
      DirectivesThen(toks, pos, b.directives, []);
      BoundaryIs(toks, p);
    }
  }

  lemma DirectiveParses(toks: seq<Token>, pos: nat, s: Schema, b: Body, w: seq<Token>)
    requires b.DirectiveType? && BodyFits(b)
    requires w == Mark('@') + ([Name(b.name)] + (OptArgsTokens(b.args)
                  + ((if b.repeatable then [Name("repeatable")] else []) + ([Name("on")] + RowTokens(b.places, '|')))))
    requires Stand(toks, pos, w) && Boundary(toks, pos + |w|)
    ensures ParseDirectiveDef(toks, pos, s) == Some((s, pos + |w|))
  {
    hide OptArgsTokens, Stand, Boundary, ParseArgs, ParseNames, RowTokens, ArgsFit, ArgsOf;
    var row := [Name("on")] + RowTokens(b.places, '|');
    var again := if b.repeatable then [Name("repeatable")] else [];
    var p := pos + 2 + |OptArgsTokens(b.args)|;
    OneStands(toks, pos, Punct('@'), [Name(b.name)] + (OptArgsTokens(b.args) + (again + row)));
    OneStands(toks, pos + 1, Name(b.name), OptArgsTokens(b.args) + (again + row));
    StandSplit(toks, pos + 2, OptArgsTokens(b.args), again + row);
    if b.repeatable {
      OneStands(toks, p, Name("repeatable"), row);
    } else {
      assert again + row == row;
    }
    OneStands(toks, p + |again|, Name("on"), RowTokens(b.places, '|'));
    OptArgsParse(toks, pos + 2, b.args);
    BoundaryIs(toks, pos + |w|);
    RowParses(toks, p + |again| + 1, b.places, '|');
  }

  /** The schema after a definition, and where the next one starts. */
  function Reached(after: Option<Schema>, pos: nat): Option<(Schema, nat)> { if after.None? then None else Some((after.value, pos)) }

  /** Which parser a keyword calls. */
  lemma Dispatch(toks: seq<Token>, pos: nat, s: Schema, extend: bool, word: string)
    requires Cursor(toks, pos) && Cursor(toks, pos + 1) && toks[pos] == Name(word)
    ensures word == "schema" ==> ParseDefinition(toks, pos, s, extend) == ParseSchemaDef(toks, pos + 1, s)
    ensures word == "type" ==> ParseDefinition(toks, pos, s, extend) == ParseCompositeDef(toks, pos + 1, s, Object, extend)
    ensures word == "interface" ==> ParseDefinition(toks, pos, s, extend) == ParseCompositeDef(toks, pos + 1, s, Interface, extend)
    ensures word == "input" ==> ParseDefinition(toks, pos, s, extend) == ParseCompositeDef(toks, pos + 1, s, Input, extend)
    ensures word == "enum" ==> ParseDefinition(toks, pos, s, extend) == ParseEnumDef(toks, pos + 1, s, extend)
    ensures word == "union" ==> ParseDefinition(toks, pos, s, extend) == ParseUnionDef(toks, pos + 1, s, extend)
    ensures word == "scalar" ==> ParseDefinition(toks, pos, s, extend) == ParseScalarDef(toks, pos + 1, s, extend)
    ensures word == "directive" ==> ParseDefinition(toks, pos, s, extend) == ParseDirectiveDef(toks, pos + 1, s)
    ensures word == "extend" && !extend ==> ParseDefinition(toks, pos, s, extend) == ParseDefinition(toks, pos + 1, s, true)
  {
    hide ParseSchemaDef, ParseCompositeDef, ParseEnumDef, ParseUnionDef, ParseScalarDef, ParseDirectiveDef;
  }

  lemma Registers(s: Schema, b: Body, extend: bool, pos: nat)
    requires TypeOf(b).Some? && !b.Roots?
    ensures Registered(s, TypeOf(b).value, extend, pos) == Reached(Declared(s, b, extend), pos)
  {
    hide Register, TypeOf;
  }

  lemma CompositeWritten(b: Body)
    requires b.Composite? && BodyFits(b)
    ensures b.kind.Object? || b.kind.Interface? || b.kind.Input?
    ensures BodyTokens(b)
            == [Name(Keyword(b.kind))] + ([Name(b.name)] + (InterfacesTokens(b.interfaces) + (DirectivesTokens(b.directives) + FieldBlock(b.fields))))
    ensures TypeOf(b) == Some(Type(b.kind, b.name, FieldsOf(b.fields), [], []))
  {
    hide DirectivesTokens, FieldsTokens, RowTokens, FieldsOf;
  }

  lemma KeywordOf(kind: Kind)
    ensures kind.Object? ==> Keyword(kind) == "type"
    ensures kind.Interface? ==> Keyword(kind) == "interface"
    ensures kind.Input? ==> Keyword(kind) == "input"
  {}

  lemma CompositeDefinition(toks: seq<Token>, pos: nat, s: Schema, b: Body, extend: bool)
    requires b.Composite? && BodyFits(b) && Stand(toks, pos, BodyTokens(b)) && Boundary(toks, pos + |BodyTokens(b)|)
    ensures Cursor(toks, pos) && ParseDefinition(toks, pos, s, extend) == Reached(Declared(s, b, extend), pos + |BodyTokens(b)|)
  {
    hide *;
    var w := [Name(b.name)] + (InterfacesTokens(b.interfaces) + (DirectivesTokens(b.directives) + FieldBlock(b.fields)));
    CompositeWritten(b);
    OneStands(toks, pos, Name(Keyword(b.kind)), w);
    StandsWithin(toks, pos + 1, w);
    KeywordOf(b.kind);
    Dispatch(toks, pos, s, extend, Keyword(b.kind));
    CompositeParses(toks, pos + 1, s, b, extend, w);
    Registers(s, b, extend, pos + 1 + |w|);
  }

  lemma EnumWritten(b: Body)
    requires b.Enumeration?
    ensures BodyTokens(b) == [Name("enum")] + ([Name(b.name)] + (DirectivesTokens(b.directives) + ItemBlock(b.items)))
    ensures TypeOf(b) == Some(Type(Enum, b.name, [], ItemsOf(b.items), []))
  {
    hide DirectivesTokens, EnumTokens, ItemsOf;
  }

  lemma EnumDefinition(toks: seq<Token>, pos: nat, s: Schema, b: Body, extend: bool)
    requires b.Enumeration? && BodyFits(b) && Stand(toks, pos, BodyTokens(b)) && Boundary(toks, pos + |BodyTokens(b)|)
    ensures Cursor(toks, pos) && ParseDefinition(toks, pos, s, extend) == Reached(Declared(s, b, extend), pos + |BodyTokens(b)|)
  {
    hide *;
    var w := [Name(b.name)] + (DirectivesTokens(b.directives) + ItemBlock(b.items));
    EnumWritten(b);
    OneStands(toks, pos, Name("enum"), w);
    StandsWithin(toks, pos + 1, w);
    Dispatch(toks, pos, s, extend, "enum");
    EnumerationParses(toks, pos + 1, s, b, extend, w);
    Registers(s, b, extend, pos + 1 + |w|);
  }

  lemma UnionWritten(b: Body)
    requires b.UnionOf?
    ensures BodyTokens(b) == [Name("union")] + ([Name(b.name)] + (DirectivesTokens(b.directives) + MembersRow(b.members)))
    ensures TypeOf(b) == Some(Type(Union, b.name, [], [], NamesOf(b.members)))
  {
    hide DirectivesTokens, RowTokens;
  }

  lemma UnionDefinition(toks: seq<Token>, pos: nat, s: Schema, b: Body, extend: bool)
    requires b.UnionOf? && BodyFits(b) && Stand(toks, pos, BodyTokens(b)) && Boundary(toks, pos + |BodyTokens(b)|)
    ensures Cursor(toks, pos) && ParseDefinition(toks, pos, s, extend) == Reached(Declared(s, b, extend), pos + |BodyTokens(b)|)
  {
    hide *;
    var w := [Name(b.name)] + (DirectivesTokens(b.directives) + MembersRow(b.members));
    UnionWritten(b);
    OneStands(toks, pos, Name("union"), w);
    StandsWithin(toks, pos + 1, w);
    Dispatch(toks, pos, s, extend, "union");
    UnionParses(toks, pos + 1, s, b, extend, w);
    Registers(s, b, extend, pos + 1 + |w|);
  }

  lemma ScalarWritten(b: Body)
    requires b.ScalarType?
    ensures BodyTokens(b) == [Name("scalar")] + ([Name(b.name)] + DirectivesTokens(b.directives))
  {
    hide DirectivesTokens;
  }

  lemma NotDeclared(s: Schema, b: Body, extend: bool, pos: nat)
    requires TypeOf(b).None? && !b.Roots?
    ensures Some((s, pos)) == Reached(Declared(s, b, extend), pos)
  {}

  lemma ScalarDefinition(toks: seq<Token>, pos: nat, s: Schema, b: Body, extend: bool)
    requires b.ScalarType? && BodyFits(b) && Stand(toks, pos, BodyTokens(b)) && Boundary(toks, pos + |BodyTokens(b)|)
    ensures Cursor(toks, pos) && ParseDefinition(toks, pos, s, extend) == Reached(Declared(s, b, extend), pos + |BodyTokens(b)|)
  {
    hide *;
    var w := [Name(b.name)] + DirectivesTokens(b.directives);
    ScalarWritten(b);
    OneStands(toks, pos, Name("scalar"), w);
    StandsWithin(toks, pos + 1, w);
    Dispatch(toks, pos, s, extend, "scalar");
    ScalarParses(toks, pos + 1, s, b, extend, w);
    if TypeOf(b).Some? { Registers(s, b, extend, pos + 1 + |w|); } else { NotDeclared(s, b, extend, pos + 1 + |w|); }
  }

  function RootBlock(roots: Option<seq<(string, string)>>): seq<Token> { if roots.None? then [] else Braced(RootsTokens(roots.value)) }

  lemma SchemaWritten(s: Schema, b: Body, extend: bool)
    requires b.Roots?
    ensures BodyTokens(b) == [Name("schema")] + (DirectivesTokens(b.directives) + RootBlock(b.roots))
    ensures RootBlock(b.roots) == if b.roots.None? then [] else Braced(RootsTokens(b.roots.value))
    ensures Declared(s, b, extend) == if b.roots.None? then Some(s) else WithRoots(s, b.roots.value)
  {
    hide DirectivesTokens, RootsTokens, WithRoots;
  }

  lemma ReachedIs(after: Option<Schema>, pos: nat)
    ensures Reached(after, pos) == if after.None? then None else Some((after.value, pos))
  {}

  lemma SchemaDefinition(toks: seq<Token>, pos: nat, s: Schema, b: Body, extend: bool)
    requires b.Roots? && BodyFits(b) && Stand(toks, pos, BodyTokens(b)) && Boundary(toks, pos + |BodyTokens(b)|)
    ensures Cursor(toks, pos) && ParseDefinition(toks, pos, s, extend) == Reached(Declared(s, b, extend), pos + |BodyTokens(b)|)
  {
    hide *;
    var w := DirectivesTokens(b.directives) + RootBlock(b.roots);
    SchemaWritten(s, b, extend);
    OneStands(toks, pos, Name("schema"), w);
    StandsWithin(toks, pos + 1, w);
    Dispatch(toks, pos, s, extend, "schema");
    SchemaParses(toks, pos + 1, s, b, w);
    ReachedIs(Declared(s, b, extend), pos + 1 + |w|);
  }

  function DirectiveRest(b: Body): seq<Token>
    requires b.DirectiveType?
  {
    Mark('@') + ([Name(b.name)] + (OptArgsTokens(b.args)
      + ((if b.repeatable then [Name("repeatable")] else []) + ([Name("on")] + RowTokens(b.places, '|')))))
  }

  lemma DirectiveWritten(b: Body)
    requires b.DirectiveType?
    ensures BodyTokens(b) == [Name("directive")] + DirectiveRest(b) && TypeOf(b).None?
  {
    hide OptArgsTokens, RowTokens;
  }

  lemma DirectiveRestIs(b: Body)
    requires b.DirectiveType?
    ensures DirectiveRest(b) == Mark('@') + ([Name(b.name)] + (OptArgsTokens(b.args)
              + ((if b.repeatable then [Name("repeatable")] else []) + ([Name("on")] + RowTokens(b.places, '|')))))
  {}

  lemma DirectiveDefinition(toks: seq<Token>, pos: nat, s: Schema, b: Body, extend: bool)
    requires b.DirectiveType? && BodyFits(b) && Stand(toks, pos, BodyTokens(b)) && Boundary(toks, pos + |BodyTokens(b)|)
    ensures Cursor(toks, pos) && ParseDefinition(toks, pos, s, extend) == Reached(Declared(s, b, extend), pos + |BodyTokens(b)|)
  {
    hide *;
    var w := DirectiveRest(b);
    DirectiveWritten(b);
    DirectiveRestIs(b);
    OneStands(toks, pos, Name("directive"), w);
    StandsWithin(toks, pos + 1, w);
    Dispatch(toks, pos, s, extend, "directive");
    DirectiveParses(toks, pos + 1, s, b, w);
    NotDeclared(s, b, extend, pos + 1 + |w|);
  }

  lemma BodyParses(toks: seq<Token>, pos: nat, s: Schema, b: Body, extend: bool)
    requires BodyFits(b) && Stand(toks, pos, BodyTokens(b)) && Boundary(toks, pos + |BodyTokens(b)|)
    ensures Cursor(toks, pos) && ParseDefinition(toks, pos, s, extend) == Reached(Declared(s, b, extend), pos + |BodyTokens(b)|)
  {
    hide *;
    match b
    case Roots(_, _) => SchemaDefinition(toks, pos, s, b, extend);
    case Composite(_, _, _, _, _) => CompositeDefinition(toks, pos, s, b, extend);
    case Enumeration(_, _, _) => EnumDefinition(toks, pos, s, b, extend);
    case UnionOf(_, _, _) => UnionDefinition(toks, pos, s, b, extend);
    case ScalarType(_, _) => ScalarDefinition(toks, pos, s, b, extend);
    case DirectiveType(_, _, _, _) => DirectiveDefinition(toks, pos, s, b, extend);
  }

  lemma BodyStart(b: Body)
    ensures BodyTokens(b) != [] && BodyTokens(b)[0].Name? && BodyTokens(b)[0].s in STARTS
  {}

  lemma DefinitionStart(d: Definition)
    ensures var w := DefinitionTokens(d); w != [] && (w[0].Str? || (w[0].Name? && w[0].s in STARTS))
  {
    hide BodyTokens;
    BodyStart(d.body);
  }

  function Extension(extend: bool): seq<Token> { if extend then [Name("extend")] else [] }

  lemma DefinitionWritten(d: Definition)
    ensures DefinitionTokens(d) == Description(d.described) + (Extension(d.extend) + BodyTokens(d.body))
    ensures Extension(true) == [Name("extend")] && Extension(false) == [] && Description(true) == [Str] && Description(false) == []
  {
    hide BodyTokens;
  }

  lemma DescriptionTaken(toks: seq<Token>, pos: nat)
    requires Cursor(toks, pos) && Cursor(toks, pos + 1)
    ensures AcceptDescription(toks, pos) == if toks[pos].Str? then pos + 1 else pos
  {}

  lemma DefinitionParses(toks: seq<Token>, pos: nat, s: Schema, d: Definition)
    requires BodyFits(d.body) && Stand(toks, pos, DefinitionTokens(d)) && Boundary(toks, pos + |DefinitionTokens(d)|)
    ensures Cursor(toks, pos)
    ensures ParseDefinition(toks, AcceptDescription(toks, pos), s, false)
            == Reached(Declared(s, d.body, d.extend), pos + |DefinitionTokens(d)|)
  {
    hide *;
    var body, ext, p := BodyTokens(d.body), Extension(d.extend), pos + |Description(d.described)|;
    DefinitionWritten(d);
    BodyStart(d.body);
    StandSplit(toks, pos, Description(d.described), ext + body);
    StandSplit(toks, p, ext, body);
    StandHere(toks, p + |ext|, body);
    BodyParses(toks, p + |ext|, s, d.body, d.extend);
    if d.extend {
      OneStands(toks, p, Name("extend"), body);
      Dispatch(toks, p, s, false, "extend");
    }
    if d.described { OneStands(toks, pos, Str, ext + body); }
    AfterBody(toks, pos + |DefinitionTokens(d)|);
    DescriptionTaken(toks, pos);
  }

  lemma AfterBody(toks: seq<Token>, pos: nat)
    requires Boundary(toks, pos)
    ensures pos < |toks|
  {}

  lemma StandHere(toks: seq<Token>, pos: nat, w: seq<Token>)
    requires Stand(toks, pos, w) && w != []
    ensures Cursor(toks, pos) && toks[pos] == w[0]
  {}

  lemma DocumentWritten(ds: seq<Definition>)
    requires ds != []
    ensures DocumentTokens(ds) == DefinitionTokens(ds[0]) + DocumentTokens(ds[1..])
  {}

  lemma DefinitionsUnfold(toks: seq<Token>, pos: nat, s: Schema, ds: seq<Definition>, q: nat)
    requires ds != [] && Cursor(toks, pos) && !toks[pos].Eof? && Cursor(toks, q)
    requires ParseDefinition(toks, AcceptDescription(toks, pos), s, false) == Reached(Declared(s, ds[0].body, ds[0].extend), q)
    requires var next := Declared(s, ds[0].body, ds[0].extend); next.Some? ==> ParseDefinitions(toks, q, next.value) == Meaning(next.value, ds[1..])
    ensures ParseDefinitions(toks, pos, s) == Meaning(s, ds)
  {
    hide ParseDefinition, Declared, AcceptDescription;
  }

  lemma NoDefinitions(toks: seq<Token>, pos: nat, s: Schema)
    requires Stand(toks, pos, DocumentTokens([])) && toks[pos + |DocumentTokens([])|].Eof?
    ensures Cursor(toks, pos) && ParseDefinitions(toks, pos, s) == Meaning(s, []) && Boundary(toks, pos)
  {}

  lemma Bounds(toks: seq<Token>, pos: nat, w: seq<Token>)
    requires Stand(toks, pos, w) && w != [] && (w[0].Str? || (w[0].Name? && w[0].s in STARTS))
    ensures Cursor(toks, pos) && !toks[pos].Eof? && Boundary(toks, pos)
  {}

  /** The tokens of a document parse to what it declares. */
  lemma {:induction false} DocumentParses(toks: seq<Token>, pos: nat, s: Schema, ds: seq<Definition>)
    requires (forall i | 0 <= i < |ds| :: BodyFits(ds[i].body)) && Stand(toks, pos, DocumentTokens(ds))
    requires toks[pos + |DocumentTokens(ds)|].Eof?
    ensures Cursor(toks, pos) && ParseDefinitions(toks, pos, s) == Meaning(s, ds) && Boundary(toks, pos)
    decreases |ds|
  {
    hide *;
    if ds == [] {
      NoDefinitions(toks, pos, s);
    } else {
      var w, rest, next := DefinitionTokens(ds[0]), DocumentTokens(ds[1..]), Declared(s, ds[0].body, ds[0].extend);
      DocumentWritten(ds);
      StandSplit(toks, pos, w, rest);
      DefinitionStart(ds[0]);
      Bounds(toks, pos, w);
      DocumentParses(toks, pos + |w|, if next.Some? then next.value else s, ds[1..]);
      DefinitionParses(toks, pos, s, ds[0]);
      DefinitionsUnfold(toks, pos, s, ds, pos + |w|);
    }
  }
}
