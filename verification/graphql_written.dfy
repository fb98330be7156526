/** The other way round: what the parser accepts is the tokens of a document. With the texts that
    spell tokens this says exactly which texts are accepted, and as what. */
module GraphQLWritten {
  import opened GraphQL
  import opened GraphQLAccepted
  import opened GraphQLGrammar
  import opened GraphQLSpelling
  import opened GraphQLTypeRef
  import opened Text

  /** From `p` up to `e` the tokens are `w`. */
  predicate Between(toks: seq<Token>, p: nat, e: nat, w: seq<Token>) { p <= e <= |toks| && toks[p..e] == w }

  lemma Nothing(toks: seq<Token>, p: nat)
    requires p <= |toks|
    ensures Between(toks, p, p, [])
  {}

  lemma One(toks: seq<Token>, p: nat, t: Token)
    requires p < |toks| && toks[p] == t
    ensures Between(toks, p, p + 1, [t])
  {}

  lemma Join(toks: seq<Token>, a: nat, b: nat, c: nat, u: seq<Token>, v: seq<Token>)
    requires Between(toks, a, b, u) && Between(toks, b, c, v)
    ensures Between(toks, a, c, u + v)
  {}

  lemma After(toks: seq<Token>, p: nat, e: nat, t: Token, w: seq<Token>)
    requires p < |toks| && toks[p] == t && Between(toks, p + 1, e, w)
    ensures Between(toks, p, e, [t] + w)
  {
    One(toks, p, t);
    Join(toks, p, p + 1, e, [t], w);
  }

  lemma Within(toks: seq<Token>, p: nat, e: nat, open: char, w: seq<Token>, close: char)
    requires IsAt(toks, p, open) && Between(toks, p + 1, e, w) && IsAt(toks, e, close)
    ensures Between(toks, p, e + 1, Mark(open) + (w + Mark(close)))
  {
    One(toks, e, Punct(close));
    Join(toks, p + 1, e, e + 1, w, Mark(close));
    After(toks, p, e + 1, Punct(open), w + Mark(close));
  }

  lemma NameColonWritten(toks: seq<Token>, p: nat, e: nat, w: seq<Token>)
    requires Cursor(toks, p) && NameColon(toks, p).Some? && Between(toks, p + 2, e, w)
    ensures Between(toks, p, e, [Name(NameColon(toks, p).value.0), Punct(':')] + w)
  {
    One(toks, p, Name(NameColon(toks, p).value.0));
    One(toks, p + 1, Punct(':'));
    Join(toks, p, p + 1, p + 2, [Name(NameColon(toks, p).value.0)], [Punct(':')]);
    Join(toks, p, p + 2, e, [Name(NameColon(toks, p).value.0), Punct(':')], w);
  }

  lemma DescriptionWritten(toks: seq<Token>, p: nat) returns (described: bool)
    requires Cursor(toks, p)
    ensures Between(toks, p, AcceptDescription(toks, p), Description(described))
  {
    described := toks[p].Str?;
    if described { One(toks, p, Str); } else { Nothing(toks, p); }
  }

  // ---- Values ----

  lemma {:induction false} ValueWritten(toks: seq<Token>, pos: nat, depth: nat) returns (v: Value)
    requires Cursor(toks, pos) && SkipValue(toks, pos, depth).Some?
    ensures ValueFits(v, depth) && Between(toks, pos, SkipValue(toks, pos, depth).value, ValueTokens(v))
    decreases |toks| - pos, 0
  {
    hide Between, SkipList, SkipObject;
    var e := SkipValue(toks, pos, depth).value;
    if IsAt(toks, pos, '[') {
      var items := ListWritten(toks, pos + 1, depth);
      hide ItemsTokens;
      Within(toks, pos, e - 1, '[', ItemsTokens(items), ']');
      v := Values(items);
    } else if IsAt(toks, pos, '{') {
      var members := ObjectWritten(toks, pos + 1, depth);
      hide MembersTokens;
      Within(toks, pos, e - 1, '{', MembersTokens(members), '}');
      v := Members(members);
    } else if IsAt(toks, pos, '$') {
      One(toks, pos + 1, toks[pos + 1]);
      After(toks, pos, pos + 2, Punct('$'), [toks[pos + 1]]);
      v := Variable(toks[pos + 1].s);
    } else {
      One(toks, pos, toks[pos]);
      v := Literal(toks[pos]);
    }
  }

  lemma ItemsMore(v: Value, vs: seq<Value>)
    ensures ItemsTokens([v] + vs) == ValueTokens(v) + ItemsTokens(vs)
  {}

  lemma {:induction false} ListWritten(toks: seq<Token>, pos: nat, depth: nat) returns (items: seq<Value>)
    requires Cursor(toks, pos) && SkipList(toks, pos, depth).Some?
    ensures forall i | 0 <= i < |items| :: ValueFits(items[i], depth + 1)
    ensures var e := SkipList(toks, pos, depth).value;
            e > pos && Between(toks, pos, e - 1, ItemsTokens(items)) && IsAt(toks, e - 1, ']')
    decreases |toks| - pos, 1
  {
    hide Between, SkipValue, ValueFits, ValueTokens;
    if IsAt(toks, pos, ']') {
      Nothing(toks, pos);
      items := [];
    } else {
      var v := ValueWritten(toks, pos, depth + 1);
      var q := SkipValue(toks, pos, depth + 1).value;
      var rest := ListWritten(toks, q, depth);
      Join(toks, pos, q, SkipList(toks, pos, depth).value - 1, ValueTokens(v), ItemsTokens(rest));
      ItemsMore(v, rest);
      items := [v] + rest;
    }
  }

  lemma MembersMore(m: Member, ms: seq<Member>)
    ensures MembersTokens([m] + ms) == [Name(m.name), Punct(':')] + (ValueTokens(m.value) + MembersTokens(ms))
  {}

  lemma {:induction false} ObjectWritten(toks: seq<Token>, pos: nat, depth: nat) returns (members: seq<Member>)
    requires Cursor(toks, pos) && SkipObject(toks, pos, depth).Some?
    ensures forall i | 0 <= i < |members| :: ValueFits(members[i].value, depth + 1)
    ensures var e := SkipObject(toks, pos, depth).value;
            e > pos && Between(toks, pos, e - 1, MembersTokens(members)) && IsAt(toks, e - 1, '}')
    decreases |toks| - pos, 1
  {
    hide Between, SkipValue, ValueFits, ValueTokens, NameColon;
    if IsAt(toks, pos, '}') {
      Nothing(toks, pos);
      members := [];
    } else {
      var name := NameColon(toks, pos).value.0;
      var v := ValueWritten(toks, pos + 2, depth + 1);
      var q, e := SkipValue(toks, pos + 2, depth + 1).value, SkipObject(toks, pos, depth).value - 1;
      var rest := ObjectWritten(toks, q, depth);
      Join(toks, pos + 2, q, e, ValueTokens(v), MembersTokens(rest));
      NameColonWritten(toks, pos, e, ValueTokens(v) + MembersTokens(rest));
      MembersMore(Member(name, v), rest);
      members := [Member(name, v)] + rest;
    }
  }

  // ---- Directives ----

  lemma {:induction false} DirectiveArgsWritten(toks: seq<Token>, pos: nat) returns (members: seq<Member>)
    requires Cursor(toks, pos) && SkipArgs(toks, pos).Some?
    ensures forall i | 0 <= i < |members| :: ValueFits(members[i].value, 0)
    ensures var e := SkipArgs(toks, pos).value;
            e > pos && Between(toks, pos, e - 1, MembersTokens(members)) && IsAt(toks, e - 1, ')')
    decreases |toks| - pos
  {
    hide Between, SkipValue, ValueFits, ValueTokens, NameColon;
    if IsAt(toks, pos, ')') {
      Nothing(toks, pos);
      members := [];
    } else {
      var name := NameColon(toks, pos).value.0;
      var v := ValueWritten(toks, pos + 2, 0);
      var q, e := SkipValue(toks, pos + 2, 0).value, SkipArgs(toks, pos).value - 1;
      var rest := DirectiveArgsWritten(toks, q);
      Join(toks, pos + 2, q, e, ValueTokens(v), MembersTokens(rest));
      NameColonWritten(toks, pos, e, ValueTokens(v) + MembersTokens(rest));
      MembersMore(Member(name, v), rest);
      members := [Member(name, v)] + rest;
    }
  }

  lemma DirectivesMore(d: Directive, ds: seq<Directive>)
    ensures DirectivesTokens([d] + ds) == DirectiveTokens(d) + DirectivesTokens(ds)
    ensures DirectivesFit([d] + ds) <==> DirectiveFits(d) && DirectivesFit(ds)
  {
    hide DirectiveTokens, DirectiveFits;
    assert ([d] + ds)[1..] == ds;
    assert DirectivesFit([d] + ds) ==> DirectiveFits(([d] + ds)[0]);
    assert forall i | 0 <= i < |ds| :: ds[i] == ([d] + ds)[i + 1];
  }

  /** Where a directive at `pos` ends. */
  function DirectiveEnd(toks: seq<Token>, pos: nat): Option<nat>
    requires Cursor(toks, pos)
  {
    if !IsAt(toks, pos, '@') || !toks[pos + 1].Name? then None
    else if IsAt(toks, pos + 2, '(') then SkipArgs(toks, pos + 3)
    else Some(pos + 2)
  }

  lemma OneDirectiveWritten(toks: seq<Token>, pos: nat) returns (d: Directive)
    requires Cursor(toks, pos) && DirectiveEnd(toks, pos).Some?
    ensures DirectiveFits(d) && Between(toks, pos, DirectiveEnd(toks, pos).value, DirectiveTokens(d))
  {
    hide Between, MembersTokens, ValueFits, SkipArgs;
    var name, e := toks[pos + 1].s, DirectiveEnd(toks, pos).value;
    if IsAt(toks, pos + 2, '(') {
      var members := DirectiveArgsWritten(toks, pos + 3);
      Within(toks, pos + 2, e - 1, '(', MembersTokens(members), ')');
      After(toks, pos + 1, e, Name(name), Mark('(') + (MembersTokens(members) + Mark(')')));
      After(toks, pos, e, Punct('@'), [Name(name)] + (Mark('(') + (MembersTokens(members) + Mark(')'))));
      d := Directive(name, Some(members));
    } else {
      Nothing(toks, pos + 2);
      After(toks, pos + 1, pos + 2, Name(name), []);
      After(toks, pos, pos + 2, Punct('@'), [Name(name)] + []);
      d := Directive(name, None);
    }
  }

  lemma NextDirective(toks: seq<Token>, pos: nat)
    requires Cursor(toks, pos) && SkipDirectives(toks, pos).Some? && IsAt(toks, pos, '@')
    ensures DirectiveEnd(toks, pos).Some?
    ensures var q := DirectiveEnd(toks, pos).value;
            pos < q && Cursor(toks, q) && SkipDirectives(toks, q) == SkipDirectives(toks, pos)
  {
    hide SkipArgs;
  }

  lemma {:induction false} DirectivesWritten(toks: seq<Token>, pos: nat) returns (ds: seq<Directive>)
    requires Cursor(toks, pos) && SkipDirectives(toks, pos).Some?
    ensures DirectivesFit(ds) && Between(toks, pos, SkipDirectives(toks, pos).value, DirectivesTokens(ds))
    decreases |toks| - pos
  {
    hide Between, DirectiveFits, DirectiveTokens, DirectiveEnd;
    if IsAt(toks, pos, '@') {
      NextDirective(toks, pos);
      var q := DirectiveEnd(toks, pos).value;
      var d := OneDirectiveWritten(toks, pos);
      var rest := DirectivesWritten(toks, q);
      Join(toks, pos, q, SkipDirectives(toks, pos).value, DirectiveTokens(d), DirectivesTokens(rest));
      DirectivesMore(d, rest);
      ds := [d] + rest;
    } else {
      Nothing(toks, pos);
      ds := [];
    }
  }

  // ---- Types and what follows them ----

  lemma BangWritten(toks: seq<Token>, p: nat)
    requires Cursor(toks, p)
    ensures Between(toks, p, Accept(toks, p, '!'), BangToken(IsAt(toks, p, '!')))
  {
    if IsAt(toks, p, '!') { One(toks, p, Punct('!')); } else { Nothing(toks, p); }
  }

  lemma {:induction false} TypeRefWritten(toks: seq<Token>, pos: nat, depth: nat)
    requires Cursor(toks, pos) && ParseTypeRef(toks, pos, depth).Some?
    ensures var r := ParseTypeRef(toks, pos, depth).value;
            depth + Depth(r.0) <= MAX_DEPTH && Between(toks, pos, r.1, Tokens(r.0))
    decreases |toks| - pos
  {
    hide Between, Accept, BangToken;
    var r := ParseTypeRef(toks, pos, depth).value;
    if IsAt(toks, pos, '[') {
      TypeRefWritten(toks, pos + 1, depth + 1);
      var elem := ParseTypeRef(toks, pos + 1, depth + 1).value;
      var p := elem.1 + 1;
      BangWritten(toks, p);
      After(toks, elem.1, r.1, Punct(']'), BangToken(r.0.nonNull));
      Join(toks, pos + 1, elem.1, r.1, Tokens(elem.0), [Punct(']')] + BangToken(r.0.nonNull));
      After(toks, pos, r.1, Punct('['), Tokens(elem.0) + ([Punct(']')] + BangToken(r.0.nonNull)));
    } else {
      BangWritten(toks, pos + 1);
      After(toks, pos, r.1, toks[pos], BangToken(r.0.nonNull));
    }
  }

  lemma DefaultWritten(toks: seq<Token>, p: nat) returns (initial: Option<Value>)
    requires Cursor(toks, p) && (IsAt(toks, p, '=') ==> SkipValue(toks, p + 1, 0).Some?)
    ensures initial.Some? ==> ValueFits(initial.value, 0)
    ensures Between(toks, p, if IsAt(toks, p, '=') then SkipValue(toks, p + 1, 0).value else p,
                    if initial.None? then [] else Mark('=') + ValueTokens(initial.value))
  {
    hide Between, SkipValue, ValueFits, ValueTokens;
    if IsAt(toks, p, '=') {
      var v := ValueWritten(toks, p + 1, 0);
      After(toks, p, SkipValue(toks, p + 1, 0).value, Punct('='), ValueTokens(v));
      initial := Some(v);
    } else {
      Nothing(toks, p);
      initial := None;
    }
  }

  lemma TypeAndTailWritten(toks: seq<Token>, pos: nat) returns (tail: Tail)
    requires Cursor(toks, pos) && TypeAndTail(toks, pos).Some?
    ensures var r := TypeAndTail(toks, pos).value;
            Depth(r.0) <= MAX_DEPTH && TailFits(tail) && Between(toks, pos, r.1, Tokens(r.0) + TailTokens(tail))
  {
    hide Between, SkipValue, ValueFits, ValueTokens, SkipDirectives, DirectivesTokens, DirectivesFit, ParseTypeRef, Tokens;
    var r := TypeAndTail(toks, pos).value;
    var p := ParseTypeRef(toks, pos, 0).value.1;
    TypeRefWritten(toks, pos, 0);
    var initial := DefaultWritten(toks, p);
    var q := if IsAt(toks, p, '=') then SkipValue(toks, p + 1, 0).value else p;
    var ds := DirectivesWritten(toks, q);
    var first := if initial.None? then [] else Mark('=') + ValueTokens(initial.value);
    Join(toks, p, q, r.1, first, DirectivesTokens(ds));
    Join(toks, pos, p, r.1, Tokens(r.0), first + DirectivesTokens(ds));
    tail := Tail(initial, ds);
  }

  // ---- Arguments and fields ----

  lemma ArgsMore(a: ArgDef, args: seq<ArgDef>)
    ensures ArgsTokens([a] + args) == ArgTokens(a) + ArgsTokens(args)
    ensures ArgFits(a) && ArgsFit(Some(args)) ==> ArgsFit(Some([a] + args))
  {
    hide ArgTokens, ArgFits;
    assert ([a] + args)[1..] == args;
  }

  /** Where an argument definition ends. */
  function ArgEnd(toks: seq<Token>, pos: nat): Option<nat>
    requires Cursor(toks, pos)
  {
    var name := NameColon(toks, AcceptDescription(toks, pos));
    if name.None? then None
    else
      var typ := TypeAndTail(toks, name.value.1);
      if typ.None? then None else Some(typ.value.1)
  }

  lemma ArgWritten(toks: seq<Token>, pos: nat) returns (a: ArgDef)
    requires Cursor(toks, pos) && ArgEnd(toks, pos).Some?
    ensures ArgFits(a) && Between(toks, pos, ArgEnd(toks, pos).value, ArgTokens(a))
  {
    hide Between, TypeAndTail, AcceptDescription, TailTokens, TailFits, Tokens, NameColon;
    var p, e := AcceptDescription(toks, pos), ArgEnd(toks, pos).value;
    var described := DescriptionWritten(toks, pos);
    var name, typ := NameColon(toks, p).value.0, TypeAndTail(toks, p + 2).value.0;
    var tail := TypeAndTailWritten(toks, p + 2);
    NameColonWritten(toks, p, e, Tokens(typ) + TailTokens(tail));
    Join(toks, pos, p, e, Description(described), [Name(name), Punct(':')] + (Tokens(typ) + TailTokens(tail)));
    a := ArgDef(described, name, typ, tail);
  }

  lemma NextArg(toks: seq<Token>, pos: nat)
    requires Cursor(toks, pos) && ParseArgs(toks, pos).Some? && !IsAt(toks, pos, ')')
    ensures ArgEnd(toks, pos).Some?
    ensures var q := ArgEnd(toks, pos).value;
            pos < q && Cursor(toks, q) && ParseArgs(toks, q).Some? && ParseArgs(toks, q).value.1 == ParseArgs(toks, pos).value.1
  {
    hide TypeAndTail, NameColon, AcceptDescription;
  }

  lemma NoArgs(toks: seq<Token>, pos: nat)
    requires Cursor(toks, pos) && IsAt(toks, pos, ')')
    ensures ParseArgs(toks, pos) == Some(([], pos + 1)) && ArgsTokens([]) == [] && ArgsFit(Some([]))
  {}

  lemma {:induction false} ArgsWritten(toks: seq<Token>, pos: nat) returns (args: seq<ArgDef>)
    requires Cursor(toks, pos) && ParseArgs(toks, pos).Some?
    ensures ArgsFit(Some(args))
    ensures var e := ParseArgs(toks, pos).value.1;
            e > pos && Between(toks, pos, e - 1, ArgsTokens(args)) && IsAt(toks, e - 1, ')')
    decreases |toks| - pos
  {
    hide Between, ArgFits, ArgTokens, ArgEnd, NameColon, TypeAndTail, AcceptDescription;
    if IsAt(toks, pos, ')') {
      NoArgs(toks, pos);
      Nothing(toks, pos);
      args := [];
    } else {
      NextArg(toks, pos);
      var q := ArgEnd(toks, pos).value;
      var a := ArgWritten(toks, pos);
      var rest := ArgsWritten(toks, q);
      Join(toks, pos, q, ParseArgs(toks, pos).value.1 - 1, ArgTokens(a), ArgsTokens(rest));
      ArgsMore(a, rest);
      args := [a] + rest;
    }
  }

  /** Arguments in parentheses, where there are some. */
  lemma OptArgsWritten(toks: seq<Token>, p: nat, wanted: bool) returns (args: Option<seq<ArgDef>>)
    requires Cursor(toks, p) && (wanted && IsAt(toks, p, '(') ==> ParseArgs(toks, p + 1).Some?)
    ensures ArgsFit(args) && (args.Some? ==> wanted)
    ensures Between(toks, p, if wanted && IsAt(toks, p, '(') then ParseArgs(toks, p + 1).value.1 else p, OptArgsTokens(args))
  {
    hide Between, ArgsTokens, ParseArgs, ArgFits;
    if wanted && IsAt(toks, p, '(') {
      var inner := ArgsWritten(toks, p + 1);
      Within(toks, p, ParseArgs(toks, p + 1).value.1 - 1, '(', ArgsTokens(inner), ')');
      args := Some(inner);
    } else {
      Nothing(toks, p);
      args := None;
    }
  }

  lemma FieldWritten(toks: seq<Token>, pos: nat, kind: Kind) returns (f: FieldDef)
    requires Cursor(toks, pos) && ParseField(toks, pos, kind).Some?
    ensures FieldFits(f, kind) && Between(toks, pos, ParseField(toks, pos, kind).value.1, FieldTokens(f))
  {
    hide Between, TypeAndTail, AcceptDescription, TailTokens, TailFits, Tokens, ParseArgs, OptArgsTokens, ArgsFit;
    var p, e := AcceptDescription(toks, pos), ParseField(toks, pos, kind).value.1;
    var described := DescriptionWritten(toks, pos);
    var name := toks[p].s;
    var args := OptArgsWritten(toks, p + 1, !kind.Input?);
    var q := if !kind.Input? && IsAt(toks, p + 1, '(') then ParseArgs(toks, p + 2).value.1 else p + 1;
    var typ := TypeAndTail(toks, q + 1).value.0;
    var tail := TypeAndTailWritten(toks, q + 1);
    var w := Tokens(typ) + TailTokens(tail);
    After(toks, q, e, Punct(':'), w);
    Join(toks, p + 1, q, e, OptArgsTokens(args), Mark(':') + w);
    After(toks, p, e, Name(name), OptArgsTokens(args) + (Mark(':') + w));
    Join(toks, pos, p, e, Description(described), [Name(name)] + (OptArgsTokens(args) + (Mark(':') + w)));
    f := FieldDef(described, name, args, typ, tail);
  }

  lemma FieldsMore(f: FieldDef, fs: seq<FieldDef>)
    ensures FieldsTokens([f] + fs) == FieldTokens(f) + FieldsTokens(fs)
  {
    hide FieldTokens;
    assert ([f] + fs)[1..] == fs;
  }

  lemma {:induction false} FieldsWritten(toks: seq<Token>, pos: nat, kind: Kind) returns (fs: seq<FieldDef>)
    requires Cursor(toks, pos) && ParseFields(toks, pos, kind).Some?
    ensures forall i | 0 <= i < |fs| :: FieldFits(fs[i], kind)
    ensures var e := ParseFields(toks, pos, kind).value.1;
            e > pos && Between(toks, pos, e - 1, FieldsTokens(fs)) && IsAt(toks, e - 1, '}')
    decreases |toks| - pos
  {
    hide Between, FieldFits, FieldTokens, ParseField;
    if IsAt(toks, pos, '}') {
      Nothing(toks, pos);
      fs := [];
    } else {
      var q := ParseField(toks, pos, kind).value.1;
      var f := FieldWritten(toks, pos, kind);
      var rest := FieldsWritten(toks, q, kind);
      Join(toks, pos, q, ParseFields(toks, pos, kind).value.1 - 1, FieldTokens(f), FieldsTokens(rest));
      FieldsMore(f, rest);
      fs := [f] + rest;
    }
  }

  lemma {:induction false} NamesWritten(toks: seq<Token>, pos: nat, sep: char)
    requires Cursor(toks, pos) && ParseNames(toks, pos, sep).Some?
    ensures var r := ParseNames(toks, pos, sep).value;
            r.0 != [] && Between(toks, pos, r.1, NamesTokens(r.0, sep))
    decreases |toks| - pos
  {
    hide Between;
    var r := ParseNames(toks, pos, sep).value;
    One(toks, pos, toks[pos]);
    if IsAt(toks, pos + 1, sep) {
      NamesWritten(toks, pos + 2, sep);
      var rest := ParseNames(toks, pos + 2, sep).value.0;
      One(toks, pos + 1, Punct(sep));
      Join(toks, pos, pos + 1, pos + 2, [toks[pos]], [Punct(sep)]);
      Join(toks, pos, pos + 2, r.1, [toks[pos], Punct(sep)], NamesTokens(rest, sep));
      assert r.0[1..] == rest;
    }
  }

  lemma RowWritten(toks: seq<Token>, pos: nat, sep: char) returns (row: Row)
    requires Cursor(toks, pos) && ParseNames(toks, Accept(toks, pos, sep), sep).Some?
    ensures row.names != [] && Between(toks, pos, ParseNames(toks, Accept(toks, pos, sep), sep).value.1, RowTokens(row, sep))
  {
    hide Between, ParseNames, NamesTokens;
    var p := Accept(toks, pos, sep);
    var r := ParseNames(toks, p, sep).value;
    NamesWritten(toks, p, sep);
    if IsAt(toks, pos, sep) { One(toks, pos, Punct(sep)); } else { Nothing(toks, pos); }
    Join(toks, pos, p, r.1, if IsAt(toks, pos, sep) then Mark(sep) else [], NamesTokens(r.0, sep));
    row := Row(IsAt(toks, pos, sep), r.0);
  }

  lemma EnumMore(e: EnumItem, es: seq<EnumItem>)
    ensures EnumTokens([e] + es) == ItemTokens(e) + EnumTokens(es)
    ensures DirectivesFit(e.directives) && ItemsFit(es) ==> ItemsFit([e] + es)
  {
    hide ItemTokens, DirectivesFit;
    assert ([e] + es)[1..] == es;
  }

  /** Where an enum item ends. */
  function ItemEnd(toks: seq<Token>, pos: nat): Option<nat>
    requires Cursor(toks, pos)
  {
    var name := ExpectName(toks, AcceptDescription(toks, pos));
    if name.None? then None else SkipDirectives(toks, name.value.1)
  }

  lemma ItemWritten(toks: seq<Token>, pos: nat) returns (item: EnumItem)
    requires Cursor(toks, pos) && ItemEnd(toks, pos).Some?
    ensures DirectivesFit(item.directives) && Between(toks, pos, ItemEnd(toks, pos).value, ItemTokens(item))
  {
    hide Between, DirectivesFit, DirectivesTokens, SkipDirectives, AcceptDescription;
    var p, q := AcceptDescription(toks, pos), ItemEnd(toks, pos).value;
    var described := DescriptionWritten(toks, pos);
    var ds := DirectivesWritten(toks, p + 1);
    After(toks, p, q, toks[p], DirectivesTokens(ds));
    Join(toks, pos, p, q, Description(described), [toks[p]] + DirectivesTokens(ds));
    item := EnumItem(described, toks[p].s, ds);
  }

  lemma NextItem(toks: seq<Token>, pos: nat)
    requires Cursor(toks, pos) && ParseEnumValues(toks, pos).Some? && !IsAt(toks, pos, '}')
    ensures ItemEnd(toks, pos).Some?
    ensures var q := ItemEnd(toks, pos).value;
            pos < q && Cursor(toks, q) && ParseEnumValues(toks, q).Some?
            && ParseEnumValues(toks, q).value.1 == ParseEnumValues(toks, pos).value.1
  {
    hide SkipDirectives, AcceptDescription;
  }

  lemma NoItems(toks: seq<Token>, pos: nat)
    requires Cursor(toks, pos) && IsAt(toks, pos, '}')
    ensures ParseEnumValues(toks, pos) == Some(([], pos + 1)) && EnumTokens([]) == [] && ItemsFit([])
  {}

  predicate ItemsFit(es: seq<EnumItem>) { forall i | 0 <= i < |es| :: DirectivesFit(es[i].directives) }

  lemma {:induction false} EnumItemsWritten(toks: seq<Token>, pos: nat) returns (es: seq<EnumItem>)
    requires Cursor(toks, pos) && ParseEnumValues(toks, pos).Some?
    ensures ItemsFit(es)
    ensures var e := ParseEnumValues(toks, pos).value.1;
            e > pos && Between(toks, pos, e - 1, EnumTokens(es)) && IsAt(toks, e - 1, '}')
    decreases |toks| - pos
  {
    hide Between, ItemsFit, ItemTokens, ItemEnd, SkipDirectives, AcceptDescription;
    if IsAt(toks, pos, '}') {
      NoItems(toks, pos);
      Nothing(toks, pos);
      es := [];
    } else {
      NextItem(toks, pos);
      var q := ItemEnd(toks, pos).value;
      var item := ItemWritten(toks, pos);
      var rest := EnumItemsWritten(toks, q);
      Join(toks, pos, q, ParseEnumValues(toks, pos).value.1 - 1, ItemTokens(item), EnumTokens(rest));
      EnumMore(item, rest);
      es := [item] + rest;
    }
  }

  lemma RootsMore(r: (string, string), rs: seq<(string, string)>)
    ensures RootsTokens([r] + rs) == [Name(r.0), Punct(':'), Name(r.1)] + RootsTokens(rs)
  {
    assert ([r] + rs)[1..] == rs;
  }

  lemma NextRoot(toks: seq<Token>, pos: nat, s: Schema) returns (s': Schema)
    requires Cursor(toks, pos) && ParseRoots(toks, pos, s).Some? && !IsAt(toks, pos, '}')
    ensures toks[pos].Name? && NameColon(toks, pos) == Some((toks[pos].s, pos + 2)) && Cursor(toks, pos + 2) && toks[pos + 2].Name? && Cursor(toks, pos + 3)
    ensures ParseRoots(toks, pos + 3, s') == ParseRoots(toks, pos, s)
  {
    var op, name := toks[pos].s, toks[pos + 2].s;
    s' := if op == "query" then s.(query := name) else if op == "mutation" then s.(mutation := name) else s.(subscription := name);
  }

  lemma RootWritten(toks: seq<Token>, pos: nat)
    requires Cursor(toks, pos) && NameColon(toks, pos).Some? && pos + 2 < |toks| && toks[pos + 2].Name?
    ensures Between(toks, pos, pos + 3, [Name(NameColon(toks, pos).value.0), Punct(':'), Name(toks[pos + 2].s)])
  {
    hide Between, NameColon;
    var op, name := NameColon(toks, pos).value.0, toks[pos + 2].s;
    One(toks, pos + 2, Name(name));
    NameColonWritten(toks, pos, pos + 3, [Name(name)]);
    assert [Name(op), Punct(':')] + [Name(name)] == [Name(op), Punct(':'), Name(name)];
  }

  lemma NoRoots(toks: seq<Token>, pos: nat, s: Schema)
    requires Cursor(toks, pos) && IsAt(toks, pos, '}')
    ensures ParseRoots(toks, pos, s) == Some((s, pos + 1)) && RootsTokens([]) == []
  {}

  lemma {:induction false} RootsWritten(toks: seq<Token>, pos: nat, s: Schema) returns (rs: seq<(string, string)>)
    requires Cursor(toks, pos) && ParseRoots(toks, pos, s).Some?
    ensures var e := ParseRoots(toks, pos, s).value.1;
            e > pos && Between(toks, pos, e - 1, RootsTokens(rs)) && IsAt(toks, e - 1, '}')
    decreases |toks| - pos
  {
    hide Between, NameColon, RootsTokens;
    if IsAt(toks, pos, '}') {
      NoRoots(toks, pos, s);
      Nothing(toks, pos);
      rs := [];
    } else {
      var s' := NextRoot(toks, pos, s);
      RootWritten(toks, pos);
      var r := (toks[pos].s, toks[pos + 2].s);
      var rest := RootsWritten(toks, pos + 3, s');
      Join(toks, pos, pos + 3, ParseRoots(toks, pos, s).value.1 - 1, [Name(r.0), Punct(':'), Name(r.1)], RootsTokens(rest));
      RootsMore(r, rest);
      rs := [r] + rest;
    }
  }

  // ---- Definitions ----

  lemma FieldBlockWritten(toks: seq<Token>, p: nat, kind: Kind) returns (fields: Option<seq<FieldDef>>)
    requires Cursor(toks, p) && (IsAt(toks, p, '{') ==> ParseFields(toks, p + 1, kind).Some?)
    ensures fields.Some? ==> forall i | 0 <= i < |fields.value| :: FieldFits(fields.value[i], kind)
    ensures Between(toks, p, if IsAt(toks, p, '{') then ParseFields(toks, p + 1, kind).value.1 else p, FieldBlock(fields))
  {
    hide Between, FieldsTokens, ParseFields, FieldFits;
    if IsAt(toks, p, '{') {
      var fs := FieldsWritten(toks, p + 1, kind);
      Within(toks, p, ParseFields(toks, p + 1, kind).value.1 - 1, '{', FieldsTokens(fs), '}');
      fields := Some(fs);
    } else {
      Nothing(toks, p);
      fields := None;
    }
  }

  lemma InterfacesWritten(toks: seq<Token>, p: nat, kind: Kind) returns (interfaces: Option<Row>)
    requires Cursor(toks, p) && SkipImplements(toks, p, kind).Some?
    ensures interfaces.Some? ==> interfaces.value.names != [] && !kind.Input?
    ensures Between(toks, p, SkipImplements(toks, p, kind).value, InterfacesTokens(interfaces))
  {
    hide Between, RowTokens, ParseNames, Accept;
    if kind.Input? || !IsKeyword(toks, p, "implements") {
      Nothing(toks, p);
      interfaces := None;
    } else {
      var row := RowWritten(toks, p + 1, '&');
      After(toks, p, SkipImplements(toks, p, kind).value, Name("implements"), RowTokens(row, '&'));
      interfaces := Some(row);
    }
  }

  /** From `p` up to `e` a body is written. */
  predicate Writes(toks: seq<Token>, p: nat, e: nat, b: Body) { BodyFits(b) && Between(toks, p, e, BodyTokens(b)) }

  lemma CompositeFits(b: Body)
    requires b.Composite? && (b.kind.Object? || b.kind.Interface? || b.kind.Input?) && DirectivesFit(b.directives)
    requires b.interfaces.Some? ==> b.interfaces.value.names != [] && !b.kind.Input?
    requires b.fields.Some? ==> forall i | 0 <= i < |b.fields.value| :: FieldFits(b.fields.value[i], b.kind)
    ensures BodyFits(b)
  {
    hide FieldFits, DirectivesFit;
  }

  lemma CompositeSteps(toks: seq<Token>, pos: nat, s: Schema, kind: Kind, extend: bool) returns (p: nat, q: nat)
    requires Cursor(toks, pos) && ParseCompositeDef(toks, pos, s, kind, extend).Some?
    ensures pos < |toks| && toks[pos].Name? && Cursor(toks, pos + 1) && Cursor(toks, p) && Cursor(toks, q)
    ensures SkipImplements(toks, pos + 1, kind) == Some(p) && SkipDirectives(toks, p) == Some(q)
    ensures IsAt(toks, q, '{') ==> Cursor(toks, q + 1) && ParseFields(toks, q + 1, kind).Some?
    ensures ParseCompositeDef(toks, pos, s, kind, extend).value.1 == if IsAt(toks, q, '{') then ParseFields(toks, q + 1, kind).value.1 else q
  {
    hide SkipImplements, SkipDirectives, ParseFields, Register;
    p := SkipImplements(toks, pos + 1, kind).value;
    q := SkipDirectives(toks, p).value;
  }

  lemma CompositeRead(toks: seq<Token>, pos: nat, s: Schema, kind: Kind, extend: bool) returns (b: Body)
    requires pos < |toks| && toks[pos] == Name(Keyword(kind)) && (kind.Object? || kind.Interface? || kind.Input?)
    requires Cursor(toks, pos + 1) && ParseCompositeDef(toks, pos + 1, s, kind, extend).Some?
    ensures Writes(toks, pos, ParseCompositeDef(toks, pos + 1, s, kind, extend).value.1, b)
  {
    hide *;
    var e := ParseCompositeDef(toks, pos + 1, s, kind, extend).value.1;
    var p, q := CompositeSteps(toks, pos + 1, s, kind, extend);
    var interfaces := InterfacesWritten(toks, pos + 2, kind);
    var ds := DirectivesWritten(toks, p);
    var fields := FieldBlockWritten(toks, q, kind);
    b := Composite(kind, toks[pos + 1].s, interfaces, ds, fields);
    CompositeFits(b);
    CompositeWritten(b);
    var w := DirectivesTokens(ds) + FieldBlock(fields);
    Join(toks, p, q, e, DirectivesTokens(ds), FieldBlock(fields));
    Join(toks, pos + 2, p, e, InterfacesTokens(interfaces), w);
    HeadWritten(toks, pos, e, InterfacesTokens(interfaces) + w);
    WritesIs(toks, pos, e, b);
  }

  /** A keyword and a name before the rest of a body. */
  lemma HeadWritten(toks: seq<Token>, pos: nat, e: nat, w: seq<Token>)
    requires pos + 1 < |toks| && Between(toks, pos + 2, e, w)
    ensures Between(toks, pos, e, [toks[pos]] + ([toks[pos + 1]] + w))
  {
    After(toks, pos + 1, e, toks[pos + 1], w);
    After(toks, pos, e, toks[pos], [toks[pos + 1]] + w);
  }

  lemma WritesIs(toks: seq<Token>, p: nat, e: nat, b: Body)
    requires BodyFits(b) && Between(toks, p, e, BodyTokens(b))
    ensures Writes(toks, p, e, b)
  {}

  lemma ItemBlockWritten(toks: seq<Token>, p: nat) returns (items: Option<seq<EnumItem>>)
    requires Cursor(toks, p) && (IsAt(toks, p, '{') ==> ParseEnumValues(toks, p + 1).Some?)
    ensures items.Some? ==> ItemsFit(items.value)
    ensures Between(toks, p, if IsAt(toks, p, '{') then ParseEnumValues(toks, p + 1).value.1 else p, ItemBlock(items))
  {
    hide Between, EnumTokens, ParseEnumValues, DirectivesFit;
    if IsAt(toks, p, '{') {
      var es := EnumItemsWritten(toks, p + 1);
      Within(toks, p, ParseEnumValues(toks, p + 1).value.1 - 1, '{', EnumTokens(es), '}');
      items := Some(es);
    } else {
      Nothing(toks, p);
      items := None;
    }
  }

  lemma EnumFits(b: Body)
    requires b.Enumeration? && DirectivesFit(b.directives)
    requires b.items.Some? ==> ItemsFit(b.items.value)
    ensures BodyFits(b)
  {
    hide DirectivesFit;
  }

  lemma EnumSteps(toks: seq<Token>, pos: nat, s: Schema, extend: bool) returns (q: nat)
    requires Cursor(toks, pos) && ParseEnumDef(toks, pos, s, extend).Some?
    ensures pos < |toks| && toks[pos].Name? && Cursor(toks, pos + 1) && Cursor(toks, q) && SkipDirectives(toks, pos + 1) == Some(q)
    ensures IsAt(toks, q, '{') ==> Cursor(toks, q + 1) && ParseEnumValues(toks, q + 1).Some?
    ensures ParseEnumDef(toks, pos, s, extend).value.1 == if IsAt(toks, q, '{') then ParseEnumValues(toks, q + 1).value.1 else q
  {
    hide SkipDirectives, ParseEnumValues, Register;
    q := SkipDirectives(toks, pos + 1).value;
  }

  lemma EnumRead(toks: seq<Token>, pos: nat, s: Schema, extend: bool) returns (b: Body)
    requires pos < |toks| && toks[pos] == Name("enum") && Cursor(toks, pos + 1) && ParseEnumDef(toks, pos + 1, s, extend).Some?
    ensures Writes(toks, pos, ParseEnumDef(toks, pos + 1, s, extend).value.1, b)
  {
    hide *;
    var e := ParseEnumDef(toks, pos + 1, s, extend).value.1;
    var q := EnumSteps(toks, pos + 1, s, extend);
    var ds := DirectivesWritten(toks, pos + 2);
    var items := ItemBlockWritten(toks, q);
    b := Enumeration(toks[pos + 1].s, ds, items);
    EnumFits(b);
    EnumWritten(b);
    Join(toks, pos + 2, q, e, DirectivesTokens(ds), ItemBlock(items));
    HeadWritten(toks, pos, e, DirectivesTokens(ds) + ItemBlock(items));
    WritesIs(toks, pos, e, b);
  }

  lemma MembersRowWritten(toks: seq<Token>, p: nat) returns (members: Option<Row>)
    requires Cursor(toks, p) && (IsAt(toks, p, '=') ==> ParseNames(toks, Accept(toks, p + 1, '|'), '|').Some?)
    ensures members.Some? ==> members.value.names != []
    ensures Between(toks, p, if IsAt(toks, p, '=') then ParseNames(toks, Accept(toks, p + 1, '|'), '|').value.1 else p, MembersRow(members))
  {
    hide Between, RowTokens, ParseNames, Accept;
    if IsAt(toks, p, '=') {
      var row := RowWritten(toks, p + 1, '|');
      After(toks, p, ParseNames(toks, Accept(toks, p + 1, '|'), '|').value.1, Punct('='), RowTokens(row, '|'));
      members := Some(row);
    } else {
      Nothing(toks, p);
      members := None;
    }
  }

  lemma UnionFits(b: Body)
    requires b.UnionOf? && DirectivesFit(b.directives) && (b.members.Some? ==> b.members.value.names != [])
    ensures BodyFits(b)
  {}

  lemma UnionSteps(toks: seq<Token>, pos: nat, s: Schema, extend: bool) returns (q: nat)
    requires Cursor(toks, pos) && ParseUnionDef(toks, pos, s, extend).Some?
    ensures pos < |toks| && toks[pos].Name? && Cursor(toks, pos + 1) && Cursor(toks, q) && SkipDirectives(toks, pos + 1) == Some(q)
    ensures IsAt(toks, q, '=') ==> Cursor(toks, q + 1) && ParseNames(toks, Accept(toks, q + 1, '|'), '|').Some?
    ensures ParseUnionDef(toks, pos, s, extend).value.1
            == if IsAt(toks, q, '=') then ParseNames(toks, Accept(toks, q + 1, '|'), '|').value.1 else q
  {
    hide SkipDirectives, ParseNames, Accept, Register;
    q := SkipDirectives(toks, pos + 1).value;
  }

  lemma UnionRead(toks: seq<Token>, pos: nat, s: Schema, extend: bool) returns (b: Body)
    requires pos < |toks| && toks[pos] == Name("union") && Cursor(toks, pos + 1) && ParseUnionDef(toks, pos + 1, s, extend).Some?
    ensures Writes(toks, pos, ParseUnionDef(toks, pos + 1, s, extend).value.1, b)
  {
    hide *;
    var e := ParseUnionDef(toks, pos + 1, s, extend).value.1;
    var q := UnionSteps(toks, pos + 1, s, extend);
    var ds := DirectivesWritten(toks, pos + 2);
    var members := MembersRowWritten(toks, q);
    b := UnionOf(toks[pos + 1].s, ds, members);
    UnionFits(b);
    UnionWritten(b);
    Join(toks, pos + 2, q, e, DirectivesTokens(ds), MembersRow(members));
    HeadWritten(toks, pos, e, DirectivesTokens(ds) + MembersRow(members));
    WritesIs(toks, pos, e, b);
  }

  lemma ScalarFits(b: Body)
    requires b.ScalarType? && DirectivesFit(b.directives)
    ensures BodyFits(b)
  {}

  lemma ScalarSteps(toks: seq<Token>, pos: nat, s: Schema, extend: bool)
    requires Cursor(toks, pos) && ParseScalarDef(toks, pos, s, extend).Some?
    ensures pos < |toks| && toks[pos].Name? && Cursor(toks, pos + 1)
    ensures SkipDirectives(toks, pos + 1) == Some(ParseScalarDef(toks, pos, s, extend).value.1)
  {
    hide SkipDirectives, Register;
  }

  lemma ScalarRead(toks: seq<Token>, pos: nat, s: Schema, extend: bool) returns (b: Body)
    requires pos < |toks| && toks[pos] == Name("scalar") && Cursor(toks, pos + 1) && ParseScalarDef(toks, pos + 1, s, extend).Some?
    ensures Writes(toks, pos, ParseScalarDef(toks, pos + 1, s, extend).value.1, b)
  {
    hide *;
    var e := ParseScalarDef(toks, pos + 1, s, extend).value.1;
    ScalarSteps(toks, pos + 1, s, extend);
    var ds := DirectivesWritten(toks, pos + 2);
    b := ScalarType(toks[pos + 1].s, ds);
    ScalarFits(b);
    ScalarWritten(b);
    HeadWritten(toks, pos, e, DirectivesTokens(ds));
    WritesIs(toks, pos, e, b);
  }

  lemma RootBlockWritten(toks: seq<Token>, p: nat, s: Schema) returns (roots: Option<seq<(string, string)>>)
    requires Cursor(toks, p) && (IsAt(toks, p, '{') ==> ParseRoots(toks, p + 1, s).Some?)
    ensures Between(toks, p, if IsAt(toks, p, '{') then ParseRoots(toks, p + 1, s).value.1 else p, RootBlock(roots))
  {
    hide Between, RootsTokens, ParseRoots;
    if IsAt(toks, p, '{') {
      var rs := RootsWritten(toks, p + 1, s);
      Within(toks, p, ParseRoots(toks, p + 1, s).value.1 - 1, '{', RootsTokens(rs), '}');
      roots := Some(rs);
    } else {
      Nothing(toks, p);
      roots := None;
    }
  }

  lemma RootsFit(b: Body)
    requires b.Roots? && DirectivesFit(b.directives)
    ensures BodyFits(b)
  {}

  lemma SchemaSteps(toks: seq<Token>, pos: nat, s: Schema) returns (q: nat)
    requires Cursor(toks, pos) && ParseSchemaDef(toks, pos, s).Some?
    ensures Cursor(toks, q) && SkipDirectives(toks, pos) == Some(q)
    ensures IsAt(toks, q, '{') ==> Cursor(toks, q + 1) && ParseRoots(toks, q + 1, s).Some?
    ensures ParseSchemaDef(toks, pos, s).value.1 == if IsAt(toks, q, '{') then ParseRoots(toks, q + 1, s).value.1 else q
  {
    hide SkipDirectives, ParseRoots;
    q := SkipDirectives(toks, pos).value;
  }

  lemma SchemaRead(toks: seq<Token>, pos: nat, s: Schema) returns (b: Body)
    requires pos < |toks| && toks[pos] == Name("schema") && Cursor(toks, pos + 1) && ParseSchemaDef(toks, pos + 1, s).Some?
    ensures Writes(toks, pos, ParseSchemaDef(toks, pos + 1, s).value.1, b)
  {
    hide *;
    var e := ParseSchemaDef(toks, pos + 1, s).value.1;
    var q := SchemaSteps(toks, pos + 1, s);
    var ds := DirectivesWritten(toks, pos + 1);
    var roots := RootBlockWritten(toks, q, s);
    b := Roots(ds, roots);
    RootsFit(b);
    SchemaWritten(s, b, false);
    Join(toks, pos + 1, q, e, DirectivesTokens(ds), RootBlock(roots));
    After(toks, pos, e, toks[pos], DirectivesTokens(ds) + RootBlock(roots));
    WritesIs(toks, pos, e, b);
  }

  lemma DirectiveTypeFits(b: Body)
    requires b.DirectiveType? && ArgsFit(b.args) && b.places.names != []
    ensures BodyFits(b)
  {}

  /** Where the arguments end, and the word "on" stands. */
  lemma DirectiveSteps(toks: seq<Token>, pos: nat, s: Schema) returns (q: nat, p: nat)
    requires Cursor(toks, pos) && ParseDirectiveDef(toks, pos, s).Some?
    ensures toks[pos] == Punct('@') && Cursor(toks, pos + 2) && toks[pos + 1].Name? && Cursor(toks, q)
    ensures IsAt(toks, pos + 2, '(') ==> Cursor(toks, pos + 3) && ParseArgs(toks, pos + 3).Some?
    ensures q == if IsAt(toks, pos + 2, '(') then ParseArgs(toks, pos + 3).value.1 else pos + 2
    ensures p == q || (p == q + 1 && q < |toks| && toks[q] == Name("repeatable"))
    ensures Cursor(toks, p) && toks[p] == Name("on") && Cursor(toks, p + 1) && ParseNames(toks, Accept(toks, p + 1, '|'), '|').Some?
    ensures ParseDirectiveDef(toks, pos, s).value.1 == ParseNames(toks, Accept(toks, p + 1, '|'), '|').value.1
  {
    hide ParseArgs, ParseNames, Accept;
    q := if IsAt(toks, pos + 2, '(') then ParseArgs(toks, pos + 3).value.1 else pos + 2;
    p := if IsKeyword(toks, q, "repeatable") then q + 1 else q;
  }

  /** What follows the arguments. */
  lemma PlacesWritten(toks: seq<Token>, q: nat, p: nat) returns (row: Row)
    requires p == q || (p == q + 1 && q < |toks| && toks[q] == Name("repeatable"))
    requires Cursor(toks, p) && toks[p] == Name("on") && Cursor(toks, p + 1) && ParseNames(toks, Accept(toks, p + 1, '|'), '|').Some?
    ensures row.names != []
    ensures Between(toks, q, ParseNames(toks, Accept(toks, p + 1, '|'), '|').value.1,
                    (if p > q then [Name("repeatable")] else []) + ([Name("on")] + RowTokens(row, '|')))
  {
    hide Between, ParseNames, Accept, RowTokens;
    var e := ParseNames(toks, Accept(toks, p + 1, '|'), '|').value.1;
    row := RowWritten(toks, p + 1, '|');
    After(toks, p, e, toks[p], RowTokens(row, '|'));
    if p > q { One(toks, q, Name("repeatable")); } else { Nothing(toks, q); }
    Join(toks, q, p, e, if p > q then [Name("repeatable")] else [], [Name("on")] + RowTokens(row, '|'));
  }

  lemma DirectiveRead(toks: seq<Token>, pos: nat, s: Schema) returns (b: Body)
    requires pos < |toks| && toks[pos] == Name("directive") && Cursor(toks, pos + 1) && ParseDirectiveDef(toks, pos + 1, s).Some?
    ensures Writes(toks, pos, ParseDirectiveDef(toks, pos + 1, s).value.1, b)
  {
    hide *;
    var e := ParseDirectiveDef(toks, pos + 1, s).value.1;
    var q, p := DirectiveSteps(toks, pos + 1, s);
    var args := OptArgsWritten(toks, pos + 3, true);
    var row := PlacesWritten(toks, q, p);
    var w := (if p > q then [Name("repeatable")] else []) + ([Name("on")] + RowTokens(row, '|'));
    Join(toks, pos + 3, q, e, OptArgsTokens(args), w);
    b := DirectiveType(toks[pos + 2].s, args, p > q, row);
    DirectiveTypeFits(b);
    DirectiveWritten(b);
    DirectiveRestIs(b);
    HeadWritten(toks, pos + 1, e, OptArgsTokens(args) + w);
    MarkIs('@');
    After(toks, pos, e, toks[pos], DirectiveRest(b));
    WritesIs(toks, pos, e, b);
  }

  lemma MarkIs(c: char)
    ensures Mark(c) == [Punct(c)]
  {}

  // ---- Documents ----

  /** A keyword leads to its parser. */
  lemma KeywordRead(toks: seq<Token>, pos: nat, s: Schema, extend: bool)
    requires Cursor(toks, pos) && ParseDefinition(toks, pos, s, extend).Some?
    ensures pos < |toks| && toks[pos].Name? && Cursor(toks, pos + 1)
    ensures toks[pos].s in {"schema", "type", "interface", "input", "enum", "union", "scalar", "directive"}
            || (toks[pos].s == "extend" && !extend)
  {
    hide ParseSchemaDef, ParseCompositeDef, ParseEnumDef, ParseUnionDef, ParseScalarDef, ParseDirectiveDef;
  }

  lemma BodyRead(toks: seq<Token>, pos: nat, s: Schema, extend: bool) returns (b: Body)
    requires Cursor(toks, pos) && ParseDefinition(toks, pos, s, extend).Some? && toks[pos] != Name("extend")
    ensures Writes(toks, pos, ParseDefinition(toks, pos, s, extend).value.1, b)
  {
    KeywordRead(toks, pos, s, extend);
    var word := toks[pos].s;
    assert toks[pos] == Name(word) && pos < |toks|;
    hide *;
    Dispatch(toks, pos, s, extend, word);
    KeywordOf(Object);
    KeywordOf(Interface);
    KeywordOf(Input);
    if word == "schema" { b := SchemaRead(toks, pos, s); }
    else if word == "type" { b := CompositeRead(toks, pos, s, Object, extend); }
    else if word == "interface" { b := CompositeRead(toks, pos, s, Interface, extend); }
    else if word == "input" { b := CompositeRead(toks, pos, s, Input, extend); }
    else if word == "enum" { b := EnumRead(toks, pos, s, extend); }
    else if word == "union" { b := UnionRead(toks, pos, s, extend); }
    else if word == "scalar" { b := ScalarRead(toks, pos, s, extend); }
    else { b := DirectiveRead(toks, pos, s); }
  }

  lemma BodyBetween(toks: seq<Token>, p: nat, e: nat, b: Body)
    requires Writes(toks, p, e, b)
    ensures BodyFits(b) && Between(toks, p, e, BodyTokens(b))
  {}

  lemma DefinitionRead(toks: seq<Token>, pos: nat, s: Schema) returns (d: Definition)
    requires Cursor(toks, pos) && ParseDefinition(toks, AcceptDescription(toks, pos), s, false).Some?
    ensures BodyFits(d.body)
    ensures Between(toks, pos, ParseDefinition(toks, AcceptDescription(toks, pos), s, false).value.1, DefinitionTokens(d))
  {
    hide *;
    var p := AcceptDescription(toks, pos);
    var e := ParseDefinition(toks, p, s, false).value.1;
    KeywordRead(toks, p, s, false);
    var described := DescriptionWritten(toks, pos);
    var b;
    if toks[p].s == "extend" {
      Dispatch(toks, p, s, false, "extend");
      KeywordRead(toks, p + 1, s, true);
      b := BodyRead(toks, p + 1, s, true);
      BodyBetween(toks, p + 1, e, b);
      One(toks, p, Name("extend"));
      Join(toks, p, p + 1, e, [Name("extend")], BodyTokens(b));
      d := Definition(described, true, b);
    } else {
      b := BodyRead(toks, p, s, false);
      BodyBetween(toks, p, e, b);
      assert [] + BodyTokens(b) == BodyTokens(b);
      d := Definition(described, false, b);
    }
    DefinitionWritten(d);
    Join(toks, pos, p, e, Description(described), Extension(d.extend) + BodyTokens(b));
  }

  predicate AllFit(ds: seq<Definition>) { forall i | 0 <= i < |ds| :: BodyFits(ds[i].body) }

  lemma DocumentMore(d: Definition, ds: seq<Definition>)
    ensures DocumentTokens([d] + ds) == DefinitionTokens(d) + DocumentTokens(ds)
    ensures BodyFits(d.body) && AllFit(ds) ==> AllFit([d] + ds)
  {
    hide DefinitionTokens, BodyFits;
    assert ([d] + ds)[1..] == ds;
  }

  lemma DocumentEnds(toks: seq<Token>, pos: nat)
    requires Cursor(toks, pos) && toks[pos].Eof?
    ensures pos == |toks| - 1 && DocumentTokens([]) == [] && Between(toks, pos, pos, []) && AllFit([])
  {}

  lemma NextDefinition(toks: seq<Token>, pos: nat, s: Schema)
    requires Cursor(toks, pos) && !toks[pos].Eof? && ParseDefinitions(toks, pos, s).Some?
    ensures ParseDefinition(toks, AcceptDescription(toks, pos), s, false).Some?
    ensures var d := ParseDefinition(toks, AcceptDescription(toks, pos), s, false).value;
            pos < d.1 && Cursor(toks, d.1) && ParseDefinitions(toks, d.1, d.0).Some?
  {
    hide ParseDefinition, AcceptDescription;
  }

  /** Tokens the parser accepts are those of a document. */
  lemma {:induction false} DocumentRead(toks: seq<Token>, pos: nat, s: Schema) returns (ds: seq<Definition>)
    requires Cursor(toks, pos) && ParseDefinitions(toks, pos, s).Some?
    ensures AllFit(ds) && Between(toks, pos, |toks| - 1, DocumentTokens(ds))
    decreases |toks| - pos
  {
    hide Between, AllFit, BodyFits, DefinitionTokens, ParseDefinition, AcceptDescription;
    if toks[pos].Eof? {
      DocumentEnds(toks, pos);
      ds := [];
    } else {
      NextDefinition(toks, pos, s);
      var r := ParseDefinition(toks, AcceptDescription(toks, pos), s, false).value;
      var d := DefinitionRead(toks, pos, s);
      var rest := DocumentRead(toks, r.1, r.0);
      Join(toks, pos, r.1, |toks| - 1, DefinitionTokens(d), DocumentTokens(rest));
      DocumentMore(d, rest);
      ds := [d] + rest;
    }
  }

  // ---- Texts ----

  /** The text spells the document, within the limits. */
  ghost predicate SpellsDocument(src: string, ds: seq<Definition>) {
    && AllFit(ds) && |DocumentTokens(ds)| <= MAX_TOKENS
    && exists mark, ps :: SpeltBy(src, mark, ps) && TokensIn(ps) == DocumentTokens(ds)
  }

  /** A schema with a query or a mutation field. */
  predicate HasRoots(s: Schema) { RootFields(s, s.query, "Query") != [] || RootFields(s, s.mutation, "Mutation") != [] }

  lemma SDLSteps(src: string)
    requires ParseSDL(src).Some?
    ensures Lex(src).Some? && Cursor(Lex(src).value, 0) && ParseDefinitions(Lex(src).value, 0, NO_SCHEMA) == ParseSDL(src)
    ensures HasRoots(ParseSDL(src).value)
  {
    hide Lex, ParseDefinitions, RootFields;
  }

  lemma TokensBefore(toks: seq<Token>, w: seq<Token>, u: seq<Token>)
    requires toks == u + [Eof] && Between(toks, 0, |toks| - 1, w)
    ensures w == u
  {
    assert toks[0..|toks| - 1] == u;
  }

  lemma TextRead(src: string, toks: seq<Token>) returns (mark: bool, ps: seq<Piece>)
    requires Lex(src) == Some(toks)
    ensures SpeltBy(src, mark, ps) && |TokensIn(ps)| <= MAX_TOKENS && toks == TokensIn(ps) + [Eof]
  {
    LexedIff(src, toks);
    hide SpeltBy, TokensIn;
    mark, ps :| SpeltBy(src, mark, ps) && |TokensIn(ps)| <= MAX_TOKENS && toks == TokensIn(ps) + [Eof];
  }

  lemma Spells(src: string, ds: seq<Definition>, mark: bool, ps: seq<Piece>)
    requires AllFit(ds) && |DocumentTokens(ds)| <= MAX_TOKENS && SpeltBy(src, mark, ps) && TokensIn(ps) == DocumentTokens(ds)
    ensures SpellsDocument(src, ds)
  {}

  lemma SDLRead(src: string) returns (ds: seq<Definition>)
    requires ParseSDL(src).Some?
    ensures SpellsDocument(src, ds)
  {
    hide *;
    SDLSteps(src);
    var toks := Lex(src).value;
    var mark, ps := TextRead(src, toks);
    ds := DocumentRead(toks, 0, NO_SCHEMA);
    TokensBefore(toks, DocumentTokens(ds), TokensIn(ps));
    Spells(src, ds, mark, ps);
  }

  lemma SDLAccepts(src: string, ds: seq<Definition>)
    requires SpellsDocument(src, ds)
    ensures Meaning(NO_SCHEMA, ds).None? ==> ParseSDL(src).None?
    ensures Meaning(NO_SCHEMA, ds).Some? ==>
              ParseSDL(src) == if HasRoots(Meaning(NO_SCHEMA, ds).value) then Meaning(NO_SCHEMA, ds) else None
  {
    hide Spelled, BodyFits, ParseSDL, Meaning, RootFields, DocumentTokens, TokensIn;
    var mark, ps :| SpeltBy(src, mark, ps) && TokensIn(ps) == DocumentTokens(ds);
    TextParses(src, mark, ps, ds);
  }

  /** A schema text is accepted as a schema exactly if it spells a document that declares it,
      with a query or a mutation field. */
  lemma ParsesExactly(src: string, s: Schema)
    ensures ParseSDL(src) == Some(s)
            <==> exists ds :: SpellsDocument(src, ds) && Meaning(NO_SCHEMA, ds) == Some(s) && HasRoots(s)
  {
    hide SpellsDocument, ParseSDL, Meaning, HasRoots;
    if ParseSDL(src).Some? {
      var ds := SDLRead(src);
      SDLAccepts(src, ds);
      assert SpellsDocument(src, ds);
    }
    forall ds | SpellsDocument(src, ds) && Meaning(NO_SCHEMA, ds) == Some(s) && HasRoots(s) ensures ParseSDL(src) == Some(s) {
      SDLAccepts(src, ds);
    }
  }
}
