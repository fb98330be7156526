/** What the OpenAPI document of a schema holds, entry by entry, said of the schema alone. */
module GraphQLDocument {
  import opened GraphQL
  import opened GraphQLOpenApi
  import opened Text

  // ---- Type references ----

  /** How many lists a reference nests, and the name inside them all. */
  function ListsOf(r: TypeRef): nat { if r.ListOf? then 1 + ListsOf(r.elem) else 0 }

  function NameIn(r: TypeRef): string { if r.ListOf? then NameIn(r.elem) else r.name }

  /** `n` arrays around a shape. */
  predicate Arrays(x: Shape, n: nat, leaf: Shape) {
    if n == 0 then x == leaf else x.ArrayOf? && Arrays(x.items, n - 1, leaf)
  }

  /** The shape of a name: a built-in scalar by its JSON type, a type of the schema by reference,
      and anything else as a string with the name for its format. */
  ghost predicate IsShapeOf(s: Schema, name: string, x: Shape) {
    && (name in {"String", "ID"} ==> x == Plain("string", ""))
    && (name == "Int" ==> x == Plain("integer", ""))
    && (name == "Float" ==> x == Plain("number", ""))
    && (name == "Boolean" ==> x == Plain("boolean", ""))
    && (name !in {"String", "ID", "Int", "Float", "Boolean"} ==>
          x == if name in s.byName then RefTo(name) else Plain("string", name))
  }

  /** A reference becomes as many arrays as it nests lists, around the shape of its name. */
  ghost predicate Spells(s: Schema, r: TypeRef, x: Shape) {
    exists leaf :: Arrays(x, ListsOf(r), leaf) && IsShapeOf(s, NameIn(r), leaf)
  }

  lemma {:induction false} TypeRefSpells(s: Schema, r: TypeRef)
    ensures Spells(s, r, TypeRefShape(s, r))
  {
    if r.ListOf? {
      TypeRefSpells(s, r.elem);
      var leaf :| Arrays(TypeRefShape(s, r.elem), ListsOf(r.elem), leaf) && IsShapeOf(s, NameIn(r.elem), leaf);
      assert Arrays(TypeRefShape(s, r), ListsOf(r), leaf);
    } else {
      var x := TypeRefShape(s, r);
      assert Arrays(x, ListsOf(r), x) && IsShapeOf(s, NameIn(r), x);
    }
  }

  // ---- Keys set one after another ----

  function Find<T>(m: seq<(string, T)>, k: string): Option<T> {
    if m == [] then None else if m[0].0 == k then Some(m[0].1) else Find(m[1..], k)
  }

  lemma {:induction false} FindSet<T>(m: seq<(string, T)>, k: string, v: T, x: string)
    ensures Find(SetKey(m, k, v), x) == if x == k then Some(v) else Find(m, x)
  {
    if m != [] && m[0].0 != k {
      FindSet(m[1..], k, v, x);
      assert ([m[0]] + SetKey(m[1..], k, v))[1..] == SetKey(m[1..], k, v);
    } else if m != [] {
      assert ([(k, v)] + m[1..])[1..] == m[1..];
    }
  }

  /** The last field of a name, which is the one that counts. */
  predicate LastField(fs: seq<Field>, name: string, i: nat) {
    i < |fs| && fs[i].name == name && forall j | i < j < |fs| :: fs[j].name != name
  }

  predicate LastArg(args: seq<Arg>, name: string, i: nat) {
    i < |args| && args[i].name == name && forall j | i < j < |args| :: args[j].name != name
  }

  ghost predicate NoField(fs: seq<Field>, name: string) { forall j | 0 <= j < |fs| :: fs[j].name != name }

  // ---- Components ----

  /** The properties are those of the fields, the required ones those that may not be null. */
  ghost predicate HasFields(s: Schema, fs: seq<Field>, props: seq<(string, Shape)>) {
    && (forall name: string, i: nat | LastField(fs, name, i) :: Find(props, name).Some? && Spells(s, fs[i].typ, Find(props, name).value))
    && (forall name | NoField(fs, name) :: Find(props, name).None?)
  }

  ghost predicate HasArgs(s: Schema, args: seq<Arg>, props: seq<(string, Shape)>) {
    && (forall name: string, i: nat | LastArg(args, name, i) :: Find(props, name).Some? && Spells(s, args[i].typ, Find(props, name).value))
    && (forall name | (forall j | 0 <= j < |args| :: args[j].name != name) :: Find(props, name).None?)
  }

  function NonNullFields(fs: seq<Field>): set<nat> { set k: nat | k < |fs| && fs[k].typ.nonNull }

  function NonNullArgs(args: seq<Arg>): set<nat> { set k: nat | k < |args| && args[k].typ.nonNull }

  /** The required names are those of the fields that may not be null, in order. */
  ghost predicate RequiresFields(fs: seq<Field>, required: seq<string>) {
    exists at: seq<nat> :: Picks(at, NonNullFields(fs)) && NamesFields(fs, at, required)
  }

  ghost predicate NamesFields(fs: seq<Field>, at: seq<nat>, required: seq<string>) {
    |at| == |required| && forall i | 0 <= i < |at| :: at[i] < |fs| && required[i] == fs[at[i]].name
  }

  ghost predicate RequiresArgs(args: seq<Arg>, required: seq<string>) {
    exists at: seq<nat> :: Picks(at, NonNullArgs(args)) && NamesArgs(args, at, required)
  }

  ghost predicate NamesArgs(args: seq<Arg>, at: seq<nat>, required: seq<string>) {
    |at| == |required| && forall i | 0 <= i < |at| :: at[i] < |args| && required[i] == args[at[i]].name
  }

  /** References to the members that are types of the schema, in order. */
  ghost predicate RefersTo(s: Schema, ms: seq<string>, choices: seq<Shape>) {
    exists at: seq<nat> :: Picks(at, KnownAt(s, ms)) && NamesMembers(ms, at, choices)
  }

  ghost predicate NamesMembers(ms: seq<string>, at: seq<nat>, choices: seq<Shape>) {
    |at| == |choices| && forall i | 0 <= i < |at| :: at[i] < |ms| && choices[i] == RefTo(ms[at[i]])
  }

  ghost predicate ComponentIs(s: Schema, t: Type, x: Shape) {
    match t.kind
    case Object => x.ObjectOf? && HasFields(s, t.fields, x.props) && x.required == []
    case Interface => x.ObjectOf? && HasFields(s, t.fields, x.props) && x.required == []
    case Input => x.ObjectOf? && HasFields(s, t.fields, x.props) && RequiresFields(t.fields, x.required)
    case Enum => x == EnumOf(t.enumValues)
    case Scalar => x == Plain("string", t.name)
    case Union =>
      if forall i | 0 <= i < |t.members| :: t.members[i] !in s.byName then x == Plain("object", "")
      else x.OneOf? && RefersTo(s, t.members, x.choices)
  }

  lemma {:induction false} FieldPropsAre(s: Schema, fs: seq<Field>)
    ensures HasFields(s, fs, FieldProps(s, fs))
  {
    if fs != [] {
      var f, props := Last(fs), FieldProps(s, Front(fs));
      FieldPropsAre(s, Front(fs));
      TypeRefSpells(s, f.typ);
      hide Spells;
      forall name: string, i: nat | LastField(fs, name, i)
        ensures Find(FieldProps(s, fs), name).Some? && Spells(s, fs[i].typ, Find(FieldProps(s, fs), name).value)
      {
        FindSet(props, f.name, TypeRefShape(s, f.typ), name);
        if name != f.name { assert LastField(Front(fs), name, i); } else { assert fs[|fs| - 1].name == name; }
      }
      forall name | NoField(fs, name) ensures Find(FieldProps(s, fs), name).None? {
        FindSet(props, f.name, TypeRefShape(s, f.typ), name);
        assert fs[|fs| - 1].name != name && NoField(Front(fs), name);
      }
    }
  }

  lemma {:induction false} ArgPropsAre(s: Schema, args: seq<Arg>)
    ensures HasArgs(s, args, ArgProps(s, args))
  {
    if args != [] {
      var a, props := Last(args), ArgProps(s, Front(args));
      ArgPropsAre(s, Front(args));
      TypeRefSpells(s, a.typ);
      hide Spells;
      forall name: string, i: nat | LastArg(args, name, i)
        ensures Find(ArgProps(s, args), name).Some? && Spells(s, args[i].typ, Find(ArgProps(s, args), name).value)
      {
        FindSet(props, a.name, TypeRefShape(s, a.typ), name);
        if name != a.name { assert LastArg(Front(args), name, i); } else { assert args[|args| - 1].name == name; }
      }
      forall name | (forall j | 0 <= j < |args| :: args[j].name != name) ensures Find(ArgProps(s, args), name).None? {
        FindSet(props, a.name, TypeRefShape(s, a.typ), name);
        assert args[|args| - 1].name != name && forall j | 0 <= j < |Front(args)| :: Front(args)[j].name != name;
      }
    }
  }

  lemma {:induction false} RequiredFieldsAre(fs: seq<Field>)
    ensures RequiresFields(fs, RequiredFields(fs))
  {
    if fs == [] {
      assert Picks([], NonNullFields(fs)) && NamesFields(fs, [], []);
    } else {
      RequiredFieldsAre(Front(fs));
      var at: seq<nat> :| Picks(at, NonNullFields(Front(fs))) && NamesFields(Front(fs), at, RequiredFields(Front(fs)));
      var n := |fs| - 1;
      assert NonNullFields(fs) == NonNullFields(Front(fs)) + if Last(fs).typ.nonNull then {n} else {};
      PicksOneMore(at, NonNullFields(Front(fs)), n, NonNullFields(fs));
      if Last(fs).typ.nonNull {
        assert NamesFields(fs, at + [n], RequiredFields(fs));
      } else {
        assert NonNullFields(fs) == NonNullFields(Front(fs)) && NamesFields(fs, at, RequiredFields(fs));
      }
    }
  }

  lemma {:induction false} RequiredArgsAre(args: seq<Arg>)
    ensures RequiresArgs(args, RequiredArgs(args))
  {
    if args == [] {
      assert Picks([], NonNullArgs(args)) && NamesArgs(args, [], []);
    } else {
      RequiredArgsAre(Front(args));
      var at: seq<nat> :| Picks(at, NonNullArgs(Front(args))) && NamesArgs(Front(args), at, RequiredArgs(Front(args)));
      var n := |args| - 1;
      assert NonNullArgs(args) == NonNullArgs(Front(args)) + if Last(args).typ.nonNull then {n} else {};
      PicksOneMore(at, NonNullArgs(Front(args)), n, NonNullArgs(args));
      if Last(args).typ.nonNull {
        assert NamesArgs(args, at + [n], RequiredArgs(args));
      } else {
        assert NonNullArgs(args) == NonNullArgs(Front(args)) && NamesArgs(args, at, RequiredArgs(args));
      }
    }
  }

  lemma {:induction false} SomeRequired(args: seq<Arg>)
    ensures RequiredArgs(args) != [] <==> exists k | 0 <= k < |args| :: args[k].typ.nonNull
  {
    if args != [] {
      SomeRequired(Front(args));
      assert args[|args| - 1] == Last(args) && forall k | 0 <= k < |args| - 1 :: args[k] == Front(args)[k];
    }
  }

  function KnownAt(s: Schema, ms: seq<string>): set<nat> { set k: nat | k < |ms| && ms[k] in s.byName }

  lemma {:induction false} MembersAre(s: Schema, ms: seq<string>)
    ensures RefersTo(s, ms, KnownMembers(s, ms))
  {
    if ms == [] {
      assert Picks([], KnownAt(s, ms)) && NamesMembers(ms, [], []);
    } else {
      MembersAre(s, Front(ms));
      var at: seq<nat> :| Picks(at, KnownAt(s, Front(ms))) && NamesMembers(Front(ms), at, KnownMembers(s, Front(ms)));
      var n := |ms| - 1;
      assert KnownAt(s, ms) == KnownAt(s, Front(ms)) + if Last(ms) in s.byName then {n} else {};
      PicksOneMore(at, KnownAt(s, Front(ms)), n, KnownAt(s, ms));
      if Last(ms) in s.byName {
        assert NamesMembers(ms, at + [n], KnownMembers(s, ms));
      } else {
        assert KnownAt(s, ms) == KnownAt(s, Front(ms)) && NamesMembers(ms, at, KnownMembers(s, ms));
      }
    }
  }

  lemma {:induction false} SomeMember(s: Schema, ms: seq<string>)
    ensures KnownMembers(s, ms) == [] <==> forall i | 0 <= i < |ms| :: ms[i] !in s.byName
  {
    if ms != [] {
      SomeMember(s, Front(ms));
      assert ms[|ms| - 1] == Last(ms) && forall k | 0 <= k < |ms| - 1 :: ms[k] == Front(ms)[k];
    }
  }

  lemma ComponentShapeIs(s: Schema, t: Type)
    ensures ComponentIs(s, t, ComponentShape(s, t))
  {
    hide HasFields, RequiresFields, RefersTo;
    FieldPropsAre(s, t.fields);
    RequiredFieldsAre(t.fields);
    MembersAre(s, t.members);
    SomeMember(s, t.members);
  }

  // ---- Operations ----

  /** A query parameter can be made of a built-in scalar, of an enum or scalar of the schema, and
      of a name the schema does not know; not of a list, an object, an interface or a union. */
  predicate Usable(s: Schema, r: TypeRef) {
    && r.Named?
    && (r.name in {"String", "ID", "Int", "Float", "Boolean"} || r.name !in s.byName
        || (s.byName[r.name] < |s.types| && s.types[s.byName[r.name]].kind in {Enum, Scalar}))
  }

  function UsableAt(s: Schema, args: seq<Arg>): set<nat> { set k: nat | k < |args| && Usable(s, args[k].typ) }

  ghost predicate ParamsAt(s: Schema, args: seq<Arg>, at: seq<nat>, params: seq<Param>) {
    |at| == |params| && forall i | 0 <= i < |at| ::
      && at[i] < |args| && params[i].name == args[at[i]].name && params[i].required == args[at[i]].typ.nonNull
      && IsShapeOf(s, NameIn(args[at[i]].typ), params[i].shape)
  }

  /** The parameters are the arguments that can be ones, in order. */
  ghost predicate ParamsAre(s: Schema, args: seq<Arg>, params: seq<Param>) {
    exists at: seq<nat> :: Picks(at, UsableAt(s, args)) && ParamsAt(s, args, at, params)
  }

  lemma ParamIs(s: Schema, r: TypeRef)
    ensures ParamShape(s, r).Some? <==> Usable(s, r)
    ensures ParamShape(s, r).Some? ==> IsShapeOf(s, NameIn(r), ParamShape(s, r).value)
  {}

  lemma {:induction false} ParamsOf(s: Schema, args: seq<Arg>)
    ensures ParamsAre(s, args, Params(s, args))
  {
    hide Usable, IsShapeOf, ParamShape;
    if args == [] {
      assert Picks([], UsableAt(s, args)) && ParamsAt(s, args, [], []);
    } else {
      ParamsOf(s, Front(args));
      var at: seq<nat> :| Picks(at, UsableAt(s, Front(args))) && ParamsAt(s, Front(args), at, Params(s, Front(args)));
      var n := |args| - 1;
      ParamIs(s, Last(args).typ);
      assert UsableAt(s, args) == UsableAt(s, Front(args)) + if Usable(s, Last(args).typ) then {n} else {};
      PicksOneMore(at, UsableAt(s, Front(args)), n, UsableAt(s, args));
      if Usable(s, Last(args).typ) {
        assert ParamsAt(s, args, at + [n], Params(s, args));
      } else {
        assert UsableAt(s, args) == UsableAt(s, Front(args)) && ParamsAt(s, args, at, Params(s, args));
      }
    }
  }

  /** A query field: its arguments as parameters, its type as the response. */
  ghost predicate QueryIs(s: Schema, f: Field, o: Operation) {
    ParamsAre(s, f.args, o.params) && o.body.None? && !o.bodyRequired && o.response.Some? && Spells(s, f.typ, o.response.value)
  }

  /** The only argument is an input type of the schema. */
  predicate OneInput(s: Schema, args: seq<Arg>) {
    && |args| == 1 && args[0].typ.Named? && args[0].typ.name in s.byName
    && s.byName[args[0].typ.name] < |s.types| && s.types[s.byName[args[0].typ.name]].kind == Input
  }

  /** A mutation field: no body without arguments, the input type itself as the body if it is the
      only argument, and otherwise an object of the arguments. */
  ghost predicate MutationIs(s: Schema, f: Field, o: Operation) {
    && o.params == [] && o.response.Some? && Spells(s, f.typ, o.response.value)
    && if f.args == [] then o.body.None? && !o.bodyRequired
       else if OneInput(s, f.args) then o.body == Some(RefTo(f.args[0].typ.name)) && o.bodyRequired == f.args[0].typ.nonNull
       else
         && o.body.Some? && o.body.value.ObjectOf? && HasArgs(s, f.args, o.body.value.props)
         && RequiresArgs(f.args, o.body.value.required)
         && (o.bodyRequired <==> exists k | 0 <= k < |f.args| :: f.args[k].typ.nonNull)
  }

  /** A subscription field: its type as the body that is sent. */
  ghost predicate WebhookIs(s: Schema, f: Field, o: Operation) {
    o.params == [] && o.body.Some? && Spells(s, f.typ, o.body.value) && !o.bodyRequired && o.response.None?
  }

  lemma QueryOperationIs(s: Schema, f: Field)
    ensures QueryIs(s, f, QueryOperation(s, f)) && WebhookIs(s, f, Webhook(s, f))
  {
    hide Spells, ParamsAre;
    ParamsOf(s, f.args);
    TypeRefSpells(s, f.typ);
  }

  lemma MutationOperationIs(s: Schema, f: Field)
    requires InStep(s)
    ensures MutationIs(s, f, MutationOperation(s, f))
  {
    hide Spells, HasArgs, RequiresArgs;
    ArgPropsAre(s, f.args);
    RequiredArgsAre(f.args);
    SomeRequired(f.args);
    TypeRefSpells(s, f.typ);
  }

  // ---- The document ----

  ghost predicate QueryAt(s: Schema, fs: seq<Field>, m: seq<(string, Operation)>, name: string, i: nat) {
    LastField(fs, name, i) ==>
      var o := Find(m, "/graphql/query/" + name);
      o.Some? && QueryIs(s, fs[i], o.value)
  }

  ghost predicate MutationAt(s: Schema, fs: seq<Field>, m: seq<(string, Operation)>, name: string, i: nat) {
    LastField(fs, name, i) ==>
      var o := Find(m, "/graphql/mutation/" + name);
      o.Some? && MutationIs(s, fs[i], o.value)
  }

  ghost predicate WebhookAt(s: Schema, fs: seq<Field>, m: seq<(string, Operation)>, name: string, i: nat) {
    LastField(fs, name, i) ==>
      var o := Find(m, name);
      o.Some? && WebhookIs(s, fs[i], o.value)
  }

  ghost predicate HasQueries(s: Schema, fs: seq<Field>, m: seq<(string, Operation)>) {
    forall name: string, i: nat :: QueryAt(s, fs, m, name, i)
  }

  ghost predicate HasMutations(s: Schema, fs: seq<Field>, m: seq<(string, Operation)>) {
    forall name: string, i: nat :: MutationAt(s, fs, m, name, i)
  }

  ghost predicate HasWebhooks(s: Schema, fs: seq<Field>, m: seq<(string, Operation)>) {
    forall name: string, i: nat :: WebhookAt(s, fs, m, name, i)
  }

  function Named(fs: seq<Field>): set<string> { set i | 0 <= i < |fs| :: fs[i].name }

  function Prefixed(prefix: string, names: set<string>): set<string> { set n | n in names :: prefix + n }

  lemma NamedLast(fs: seq<Field>, prefix: string)
    requires fs != []
    ensures Named(fs) == Named(Front(fs)) + {Last(fs).name}
    ensures Prefixed(prefix, Named(fs)) == Prefixed(prefix, Named(Front(fs))) + {prefix + Last(fs).name}
  {
    assert Named(fs) == Named(Front(fs)) + {Last(fs).name};
  }

  lemma PrefixApart(a: string, b: string)
    ensures "/graphql/query/" + a != "/graphql/mutation/" + b
    ensures "/graphql" != "/graphql/query/" + a && "/graphql" != "/graphql/mutation/" + b
    ensures "/graphql/query/" + a == "/graphql/query/" + b ==> a == b
    ensures "/graphql/mutation/" + a == "/graphql/mutation/" + b ==> a == b
  {
    var q, m := "/graphql/query/" + a, "/graphql/mutation/" + b;
    assert q[9] == 'q' && m[9] == 'm';
    assert |"/graphql"| == 8 < |q| && 8 < |m|;
    assert ("/graphql/query/" + a)[15..] == a && ("/graphql/query/" + b)[15..] == b;
    assert ("/graphql/mutation/" + a)[18..] == a && ("/graphql/mutation/" + b)[18..] == b;
  }

  lemma NothingListed(s: Schema, m: seq<(string, Operation)>)
    ensures HasQueries(s, [], m) && HasMutations(s, [], m) && HasWebhooks(s, [], m)
    ensures Named([]) == {} && Prefixed("/graphql/query/", {}) == {} && Prefixed("/graphql/mutation/", {}) == {}
  {}

  lemma QuerySet(s: Schema, fs: seq<Field>, m: seq<(string, Operation)>, name: string, i: nat)
    requires fs != [] && QueryAt(s, Front(fs), m, name, i)
    ensures QueryAt(s, fs, SetKey(m, "/graphql/query/" + Last(fs).name, QueryOperation(s, Last(fs))), name, i)
  {
    hide QueryIs, QueryOperation;
    var f := Last(fs);
    PrefixApart(f.name, name);
    QueryOperationIs(s, f);
    FindSet(m, "/graphql/query/" + f.name, QueryOperation(s, f), "/graphql/query/" + name);
  }

  lemma QueryKept(s: Schema, fs: seq<Field>, m: seq<(string, Operation)>, other: string, o: Operation, name: string, i: nat)
    requires QueryAt(s, fs, m, name, i)
    ensures QueryAt(s, fs, SetKey(m, "/graphql/mutation/" + other, o), name, i)
  {
    hide QueryIs;
    PrefixApart(name, other);
    FindSet(m, "/graphql/mutation/" + other, o, "/graphql/query/" + name);
  }

  lemma MutationSet(s: Schema, fs: seq<Field>, m: seq<(string, Operation)>, name: string, i: nat)
    requires InStep(s) && fs != [] && MutationAt(s, Front(fs), m, name, i)
    ensures MutationAt(s, fs, SetKey(m, "/graphql/mutation/" + Last(fs).name, MutationOperation(s, Last(fs))), name, i)
  {
    hide MutationIs, MutationOperation, InStep;
    var f := Last(fs);
    PrefixApart(f.name, name);
    MutationOperationIs(s, f);
    FindSet(m, "/graphql/mutation/" + f.name, MutationOperation(s, f), "/graphql/mutation/" + name);
  }

  lemma WebhookSet(s: Schema, fs: seq<Field>, m: seq<(string, Operation)>, name: string, i: nat)
    requires fs != [] && WebhookAt(s, Front(fs), m, name, i)
    ensures WebhookAt(s, fs, SetKey(m, Last(fs).name, Webhook(s, Last(fs))), name, i)
  {
    hide WebhookIs, Webhook;
    var f := Last(fs);
    QueryOperationIs(s, f);
    FindSet(m, f.name, Webhook(s, f), name);
  }

  lemma CatchAllKept(m: seq<(string, Operation)>, name: string, o: Operation)
    ensures Find(SetKey(m, "/graphql/query/" + name, o), "/graphql") == Find(m, "/graphql")
    ensures Find(SetKey(m, "/graphql/mutation/" + name, o), "/graphql") == Find(m, "/graphql")
  {
    hide Find;
    PrefixApart(name, name);
    FindSet(m, "/graphql/query/" + name, o, "/graphql");
    FindSet(m, "/graphql/mutation/" + name, o, "/graphql");
  }

  lemma {:induction false} QueriesAre(s: Schema, fs: seq<Field>)
    ensures HasQueries(s, fs, QueryPaths(s, fs)) && Find(QueryPaths(s, fs), "/graphql") == Some(CATCH_ALL)
    ensures KeysOf(QueryPaths(s, fs)) == {"/graphql"} + Prefixed("/graphql/query/", Named(fs))
  {
    if fs == [] {
      NothingListed(s, QueryPaths(s, fs));
      assert QueryPaths(s, fs)[0].0 == "/graphql";
    } else {
      hide QueryAt, QueryOperation, Find, KeysOf, Named, Prefixed;
      var f, m := Last(fs), QueryPaths(s, Front(fs));
      var k, o := "/graphql/query/" + f.name, QueryOperation(s, f);
      QueriesAre(s, Front(fs));
      SetKeyKeys(m, k, o);
      NamedLast(fs, "/graphql/query/");
      CatchAllKept(m, f.name, o);
      forall name: string, i: nat ensures QueryAt(s, fs, SetKey(m, k, o), name, i) { QuerySet(s, fs, m, name, i); }
    }
  }

  lemma {:induction false} MutationsAre(s: Schema, qs: seq<Field>, fs: seq<Field>)
    requires InStep(s)
    ensures var m := MutationPaths(s, QueryPaths(s, qs), fs);
            && HasQueries(s, qs, m) && HasMutations(s, fs, m) && Find(m, "/graphql") == Some(CATCH_ALL)
            && KeysOf(m) == {"/graphql"} + Prefixed("/graphql/query/", Named(qs)) + Prefixed("/graphql/mutation/", Named(fs))
  {
    hide QueryAt, MutationAt, MutationOperation, Find, KeysOf, Named, Prefixed, InStep, QueryPaths;
    if fs == [] {
      NothingListed(s, QueryPaths(s, qs));
      QueriesAre(s, qs);
    } else {
      var f, m := Last(fs), MutationPaths(s, QueryPaths(s, qs), Front(fs));
      var k, o := "/graphql/mutation/" + f.name, MutationOperation(s, f);
      MutationsAre(s, qs, Front(fs));
      SetKeyKeys(m, k, o);
      NamedLast(fs, "/graphql/mutation/");
      CatchAllKept(m, f.name, o);
      forall name: string, i: nat ensures QueryAt(s, qs, SetKey(m, k, o), name, i) { QueryKept(s, qs, m, f.name, o, name, i); }
      forall name: string, i: nat ensures MutationAt(s, fs, SetKey(m, k, o), name, i) { MutationSet(s, fs, m, name, i); }
    }
  }

  lemma {:induction false} WebhooksAre(s: Schema, fs: seq<Field>)
    ensures HasWebhooks(s, fs, Webhooks(s, fs)) && KeysOf(Webhooks(s, fs)) == Named(fs)
  {
    if fs == [] {
      NothingListed(s, []);
    } else {
      hide WebhookAt, Webhook, KeysOf, Named;
      var f, m := Last(fs), Webhooks(s, Front(fs));
      WebhooksAre(s, Front(fs));
      SetKeyKeys(m, f.name, Webhook(s, f));
      NamedLast(fs, "");
      forall name: string, i: nat ensures WebhookAt(s, fs, SetKey(m, f.name, Webhook(s, f)), name, i) { WebhookSet(s, fs, m, name, i); }
    }
  }

  /** Every type has its component, and types have different names. */
  ghost predicate HasComponents(s: Schema, ts: seq<Type>, m: seq<(string, Shape)>) {
    forall i | 0 <= i < |ts| :: Find(m, ts[i].name).Some? && ComponentIs(s, ts[i], Find(m, ts[i].name).value)
  }

  lemma {:induction false} ComponentsAre(s: Schema, ts: seq<Type>)
    requires forall i, j | 0 <= i < j < |ts| :: ts[i].name != ts[j].name
    ensures HasComponents(s, ts, Components(s, ts)) && KeysOf(Components(s, ts)) == Names(ts)
  {
    hide ComponentIs, ComponentShape;
    if ts != [] {
      var t, m := Last(ts), Components(s, Front(ts));
      ComponentsAre(s, Front(ts));
      ComponentShapeIs(s, t);
      SetKeyKeys(m, t.name, ComponentShape(s, t));
      NamesLast(ts);
      forall i | 0 <= i < |ts|
        ensures Find(Components(s, ts), ts[i].name).Some? && ComponentIs(s, ts[i], Find(Components(s, ts), ts[i].name).value)
      {
        FindSet(m, t.name, ComponentShape(s, t), ts[i].name);
        if i < |ts| - 1 { assert Front(ts)[i] == ts[i]; }
      }
    }
  }

  /** The fields of a root: those of the declared type or else of the conventional one, if it is
      an object type of the schema. */
  ghost predicate RootIs(s: Schema, declared: string, conventional: string, fs: seq<Field>) {
    var root := if declared == "" then conventional else declared;
    if root in s.byName && s.byName[root] < |s.types| && s.types[s.byName[root]].kind == Object
    then fs == s.types[s.byName[root]].fields
    else fs == []
  }

  /** The document has the catch-all, one path for each query and mutation field, one webhook for
      each subscription field, one component for each type, and nothing else. */
  lemma DocumentIs(s: Schema, qs: seq<Field>, ms: seq<Field>, ws: seq<Field>)
    requires InStep(s)
    requires RootIs(s, s.query, "Query", qs) && RootIs(s, s.mutation, "Mutation", ms) && RootIs(s, s.subscription, "Subscription", ws)
    ensures var d := ToOpenApi(s);
            && Find(d.paths, "/graphql") == Some(CATCH_ALL) && HasQueries(s, qs, d.paths) && HasMutations(s, ms, d.paths)
            && KeysOf(d.paths) == {"/graphql"} + Prefixed("/graphql/query/", Named(qs)) + Prefixed("/graphql/mutation/", Named(ms))
            && HasWebhooks(s, ws, d.webhooks) && KeysOf(d.webhooks) == Named(ws)
            && HasComponents(s, s.types, d.components) && KeysOf(d.components) == Names(s.types)
  {
    TypesDiffer(s);
    RootsAre(s, s.query, "Query", qs);
    RootsAre(s, s.mutation, "Mutation", ms);
    RootsAre(s, s.subscription, "Subscription", ws);
    hide *;
    Made(s);
    MutationsAre(s, qs, ms);
    WebhooksAre(s, ws);
    ComponentsAre(s, s.types);
  }

  lemma TypesDiffer(s: Schema)
    requires InStep(s)
    ensures forall i, j | 0 <= i < j < |s.types| :: s.types[i].name != s.types[j].name
  {
    forall i, j | 0 <= i < j < |s.types| ensures s.types[i].name != s.types[j].name {
      assert s.byName[s.types[i].name] == i && s.byName[s.types[j].name] == j;
    }
  }

  lemma RootsAre(s: Schema, declared: string, conventional: string, fs: seq<Field>)
    requires RootIs(s, declared, conventional, fs)
    ensures RootFields(s, declared, conventional) == fs
  {}

  lemma Made(s: Schema)
    ensures var qs, ms := RootFields(s, s.query, "Query"), RootFields(s, s.mutation, "Mutation");
            ToOpenApi(s) == Document(MutationPaths(s, QueryPaths(s, qs), ms), Webhooks(s, RootFields(s, s.subscription, "Subscription")),
                                     Components(s, s.types))
  {}
}
