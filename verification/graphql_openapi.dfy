/** The OpenAPI document made from a schema: every reference in it leads to a component. */
module GraphQLOpenApi {
  import opened GraphQL
  import opened Text

  /** The schemas the emitters write. */
  datatype Shape =
    | RefTo(name: string)                              // "#/components/schemas/" and the name
    | Plain(typ: string, format: string)
    | ArrayOf(items: Shape)
    | ObjectOf(props: seq<(string, Shape)>, required: seq<string>)
    | EnumOf(values: seq<string>)
    | OneOf(choices: seq<Shape>)

  datatype Param = Param(name: string, required: bool, shape: Shape)

  datatype Operation = Operation(params: seq<Param>, body: Option<Shape>, bodyRequired: bool, response: Option<Shape>)

  datatype Document = Document(
    paths: seq<(string, Operation)>, webhooks: seq<(string, Operation)>, components: seq<(string, Shape)>)

  /** `OrdMap.Set`: a key set again keeps its place. */
  function SetKey<T>(m: seq<(string, T)>, k: string, v: T): seq<(string, T)> {
    if m == [] then [(k, v)] else if m[0].0 == k then [(k, v)] + m[1..] else [m[0]] + SetKey(m[1..], k, v)
  }

  function ScalarType(name: string): string {
    if name == "String" || name == "ID" then "string"
    else if name == "Int" then "integer"
    else if name == "Float" then "number"
    else if name == "Boolean" then "boolean"
    else ""
  }

  // ---- The emitters ----

  function TypeRefShape(s: Schema, r: TypeRef): Shape {
    match r
    case ListOf(elem, _) => ArrayOf(TypeRefShape(s, elem))
    case Named(name, _) =>
      if name in BUILTIN_SCALARS then Plain(ScalarType(name), "")
      else if name in s.byName then RefTo(name)
      else Plain("string", name)
  }

  /** An argument that can be a query parameter, or nothing. */
  function ParamShape(s: Schema, r: TypeRef): Option<Shape> {
    if r.ListOf? then None
    else if r.name in BUILTIN_SCALARS then Some(Plain(ScalarType(r.name), ""))
    else if r.name in s.byName then
      var t := TypeNamed(s, r.name);
      if t.Some? && (t.value.kind.Enum? || t.value.kind.Scalar?) then Some(RefTo(r.name)) else None
    else Some(Plain("string", r.name))
  }

  function Params(s: Schema, args: seq<Arg>): seq<Param> {
    if args == [] then []
    else
      var shape := ParamShape(s, Last(args).typ);
      Params(s, Front(args)) + if shape.Some? then [Param(Last(args).name, Last(args).typ.nonNull, shape.value)] else []
  }

  function ArgProps(s: Schema, args: seq<Arg>): seq<(string, Shape)> {
    if args == [] then [] else SetKey(ArgProps(s, Front(args)), Last(args).name, TypeRefShape(s, Last(args).typ))
  }

  function RequiredArgs(args: seq<Arg>): seq<string> {
    if args == [] then [] else RequiredArgs(Front(args)) + if Last(args).typ.nonNull then [Last(args).name] else []
  }

  /** The one input object a mutation may take as its whole body. */
  function SingleInput(s: Schema, args: seq<Arg>): Option<string> {
    if |args| != 1 || args[0].typ.ListOf? then None
    else
      var t := TypeNamed(s, args[0].typ.name);
      if t.None? || !t.value.kind.Input? then None else Some(t.value.name)
  }

  function QueryOperation(s: Schema, f: Field): Operation {
    Operation(Params(s, f.args), None, false, Some(TypeRefShape(s, f.typ)))
  }

  function MutationOperation(s: Schema, f: Field): Operation {
    var response := Some(TypeRefShape(s, f.typ));
    if f.args == [] then Operation([], None, false, response)
    else
      var input := SingleInput(s, f.args);
      if input.Some? then Operation([], Some(RefTo(input.value)), f.args[0].typ.nonNull, response)
      else Operation([], Some(ObjectOf(ArgProps(s, f.args), RequiredArgs(f.args))), RequiredArgs(f.args) != [], response)
  }

  function Webhook(s: Schema, f: Field): Operation { Operation([], Some(TypeRefShape(s, f.typ)), false, None) }

  function FieldProps(s: Schema, fs: seq<Field>): seq<(string, Shape)> {
    if fs == [] then [] else SetKey(FieldProps(s, Front(fs)), Last(fs).name, TypeRefShape(s, Last(fs).typ))
  }

  function RequiredFields(fs: seq<Field>): seq<string> {
    if fs == [] then [] else RequiredFields(Front(fs)) + if Last(fs).typ.nonNull then [Last(fs).name] else []
  }

  function KnownMembers(s: Schema, ms: seq<string>): seq<Shape> {
    if ms == [] then [] else KnownMembers(s, Front(ms)) + if Last(ms) in s.byName then [RefTo(Last(ms))] else []
  }

  function ComponentShape(s: Schema, t: Type): Shape {
    match t.kind
    case Enum => EnumOf(t.enumValues)
    case Union => if KnownMembers(s, t.members) != [] then OneOf(KnownMembers(s, t.members)) else Plain("object", "")
    case Scalar => Plain("string", t.name)
    case _ => ObjectOf(FieldProps(s, t.fields), if t.kind.Input? then RequiredFields(t.fields) else [])
  }

  /** The catch-all endpoint. */
  const CATCH_ALL: Operation := Operation(
    [], Some(ObjectOf([("query", Plain("string", "")), ("variables", Plain("object", ""))], ["query"])), true,
    Some(ObjectOf([("data", Plain("object", ""))], [])))

  function QueryPaths(s: Schema, fs: seq<Field>): seq<(string, Operation)> {
    if fs == [] then [("/graphql", CATCH_ALL)]
    else SetKey(QueryPaths(s, Front(fs)), "/graphql/query/" + Last(fs).name, QueryOperation(s, Last(fs)))
  }

  function MutationPaths(s: Schema, before: seq<(string, Operation)>, fs: seq<Field>): seq<(string, Operation)> {
    if fs == [] then before
    else SetKey(MutationPaths(s, before, Front(fs)), "/graphql/mutation/" + Last(fs).name, MutationOperation(s, Last(fs)))
  }

  function Webhooks(s: Schema, fs: seq<Field>): seq<(string, Operation)> {
    if fs == [] then [] else SetKey(Webhooks(s, Front(fs)), Last(fs).name, Webhook(s, Last(fs)))
  }

  function Components(s: Schema, ts: seq<Type>): seq<(string, Shape)> {
    if ts == [] then [] else SetKey(Components(s, Front(ts)), Last(ts).name, ComponentShape(s, Last(ts)))
  }

  function ToOpenApi(s: Schema): Document {
    var queries := QueryPaths(s, RootFields(s, s.query, "Query"));
    Document(
      MutationPaths(s, queries, RootFields(s, s.mutation, "Mutation")),
      Webhooks(s, RootFields(s, s.subscription, "Subscription")),
      Components(s, s.types))
  }

  // ---- The references in a document ----

  /** Every reference in the shape is to one of the names. */
  predicate Within(x: Shape, names: set<string>) {
    match x
    case RefTo(name) => name in names
    case Plain(_, _) => true
    case ArrayOf(items) => Within(items, names)
    case ObjectOf(props, _) => forall i | 0 <= i < |props| :: Within(props[i].1, names)
    case EnumOf(_) => true
    case OneOf(choices) => forall i | 0 <= i < |choices| :: Within(choices[i], names)
  }

  predicate OperationWithin(o: Operation, names: set<string>) {
    && (forall i | 0 <= i < |o.params| :: Within(o.params[i].shape, names))
    && (o.body.Some? ==> Within(o.body.value, names))
    && (o.response.Some? ==> Within(o.response.value, names))
  }

  ghost predicate AllWithin(ps: seq<(string, Operation)>, names: set<string>) {
    forall i | 0 <= i < |ps| :: OperationWithin(ps[i].1, names)
  }

  ghost predicate ShapesWithin(ps: seq<(string, Shape)>, names: set<string>) {
    forall i | 0 <= i < |ps| :: Within(ps[i].1, names)
  }

  function KeysOf<T>(m: seq<(string, T)>): set<string> { set i | 0 <= i < |m| :: m[i].0 }

  /** Every reference in the document is to one of its components. */
  ghost predicate NoDangling(d: Document) {
    var names := KeysOf(d.components);
    AllWithin(d.paths, names) && AllWithin(d.webhooks, names) && ShapesWithin(d.components, names)
  }

  lemma {:induction false} SetOperation(ps: seq<(string, Operation)>, k: string, o: Operation, names: set<string>)
    requires AllWithin(ps, names) && OperationWithin(o, names)
    ensures AllWithin(SetKey(ps, k, o), names)
  {
    hide OperationWithin;
    if ps != [] && ps[0].0 != k {
      SetOperation(ps[1..], k, o, names);
      var rest := SetKey(ps[1..], k, o);
      assert forall i | 0 <= i < |rest| :: ([ps[0]] + rest)[i + 1] == rest[i];
    }
  }

  lemma {:induction false} SetShape(ps: seq<(string, Shape)>, k: string, x: Shape, names: set<string>)
    requires ShapesWithin(ps, names) && Within(x, names)
    ensures ShapesWithin(SetKey(ps, k, x), names)
  {
    hide Within;
    if ps != [] && ps[0].0 != k {
      SetShape(ps[1..], k, x, names);
      var rest := SetKey(ps[1..], k, x);
      assert forall i | 0 <= i < |rest| :: ([ps[0]] + rest)[i + 1] == rest[i];
    }
  }

  lemma {:induction false} SetKeyKeys<T>(m: seq<(string, T)>, k: string, v: T)
    ensures KeysOf(SetKey(m, k, v)) == KeysOf(m) + {k}
  {
    if m == [] {
      KeysSplit((k, v), []);
      assert [(k, v)] + [] == [(k, v)];
    } else {
      KeysSplit(m[0], m[1..]);
      assert m == [m[0]] + m[1..];
      if m[0].0 == k {
        KeysSplit((k, v), m[1..]);
      } else {
        SetKeyKeys(m[1..], k, v);
        KeysSplit(m[0], SetKey(m[1..], k, v));
      }
    }
  }

  lemma KeysSplit<T>(x: (string, T), m: seq<(string, T)>)
    ensures KeysOf([x] + m) == {x.0} + KeysOf(m)
  {
    forall k ensures k in KeysOf([x] + m) <==> k in {x.0} + KeysOf(m) {
      if k in KeysOf(m) {
        var i :| 0 <= i < |m| && m[i].0 == k;
        assert ([x] + m)[i + 1].0 == k;
      }
      assert ([x] + m)[0].0 == x.0;
    }
  }

  // ---- Nothing dangles ----

  lemma {:induction false} TypeRefWithin(s: Schema, r: TypeRef)
    ensures Within(TypeRefShape(s, r), s.byName.Keys)
  {
    if r.ListOf? { TypeRefWithin(s, r.elem); }
  }

  lemma {:induction false} ParamsWithin(s: Schema, args: seq<Arg>)
    ensures forall i | 0 <= i < |Params(s, args)| :: Within(Params(s, args)[i].shape, s.byName.Keys)
  {
    if args != [] { ParamsWithin(s, Front(args)); }
  }

  lemma {:induction false} ArgPropsWithin(s: Schema, args: seq<Arg>)
    ensures ShapesWithin(ArgProps(s, args), s.byName.Keys)
  {
    if args != [] {
      hide ShapesWithin, Within;
      ArgPropsWithin(s, Front(args));
      TypeRefWithin(s, Last(args).typ);
      SetShape(ArgProps(s, Front(args)), Last(args).name, TypeRefShape(s, Last(args).typ), s.byName.Keys);
    } else {
      assert ShapesWithin([], s.byName.Keys);
    }
  }

  lemma {:induction false} FieldPropsWithin(s: Schema, fs: seq<Field>)
    ensures ShapesWithin(FieldProps(s, fs), s.byName.Keys)
  {
    if fs != [] {
      hide ShapesWithin, Within;
      FieldPropsWithin(s, Front(fs));
      TypeRefWithin(s, Last(fs).typ);
      SetShape(FieldProps(s, Front(fs)), Last(fs).name, TypeRefShape(s, Last(fs).typ), s.byName.Keys);
    } else {
      assert ShapesWithin([], s.byName.Keys);
    }
  }

  lemma {:induction false} MembersWithin(s: Schema, ms: seq<string>)
    ensures forall i | 0 <= i < |KnownMembers(s, ms)| :: Within(KnownMembers(s, ms)[i], s.byName.Keys)
  {
    if ms != [] { MembersWithin(s, Front(ms)); }
  }

  lemma MutationWithin(s: Schema, f: Field)
    requires InStep(s)
    ensures OperationWithin(MutationOperation(s, f), s.byName.Keys)
  {
    TypeRefWithin(s, f.typ);
    ArgPropsWithin(s, f.args);
  }

  lemma QueryWithin(s: Schema, f: Field)
    ensures OperationWithin(QueryOperation(s, f), s.byName.Keys) && OperationWithin(Webhook(s, f), s.byName.Keys)
  {
    TypeRefWithin(s, f.typ);
    ParamsWithin(s, f.args);
  }

  lemma ComponentWithin(s: Schema, t: Type)
    ensures Within(ComponentShape(s, t), s.byName.Keys)
  {
    FieldPropsWithin(s, t.fields);
    MembersWithin(s, t.members);
  }

  lemma CatchAllWithin(names: set<string>)
    ensures OperationWithin(CATCH_ALL, names)
  {}

  lemma {:induction false} QueryPathsWithin(s: Schema, fs: seq<Field>)
    ensures AllWithin(QueryPaths(s, fs), s.byName.Keys)
  {
    if fs != [] {
      hide AllWithin, OperationWithin;
      QueryPathsWithin(s, Front(fs));
      QueryWithin(s, Last(fs));
      SetOperation(QueryPaths(s, Front(fs)), "/graphql/query/" + Last(fs).name, QueryOperation(s, Last(fs)), s.byName.Keys);
    } else {
      CatchAllWithin(s.byName.Keys);
    }
  }

  lemma {:induction false} MutationPathsWithin(s: Schema, before: seq<(string, Operation)>, fs: seq<Field>)
    requires InStep(s) && AllWithin(before, s.byName.Keys)
    ensures AllWithin(MutationPaths(s, before, fs), s.byName.Keys)
  {
    if fs != [] {
      hide AllWithin, OperationWithin, InStep;
      MutationPathsWithin(s, before, Front(fs));
      MutationWithin(s, Last(fs));
      SetOperation(MutationPaths(s, before, Front(fs)), "/graphql/mutation/" + Last(fs).name, MutationOperation(s, Last(fs)), s.byName.Keys);
    }
  }

  lemma {:induction false} WebhooksWithin(s: Schema, fs: seq<Field>)
    ensures AllWithin(Webhooks(s, fs), s.byName.Keys)
  {
    if fs != [] {
      hide OperationWithin;
      WebhooksWithin(s, Front(fs));
      hide AllWithin;
      QueryWithin(s, Last(fs));
      SetOperation(Webhooks(s, Front(fs)), Last(fs).name, Webhook(s, Last(fs)), s.byName.Keys);
    }
  }

  function Names(ts: seq<Type>): set<string> { set i | 0 <= i < |ts| :: ts[i].name }

  lemma {:induction false} ComponentsWithin(s: Schema, ts: seq<Type>)
    ensures ShapesWithin(Components(s, ts), s.byName.Keys) && KeysOf(Components(s, ts)) == Names(ts)
  {
    if ts != [] {
      hide ShapesWithin, Within, ComponentShape, KeysOf;
      ComponentsWithin(s, Front(ts));
      ComponentWithin(s, Last(ts));
      SetShape(Components(s, Front(ts)), Last(ts).name, ComponentShape(s, Last(ts)), s.byName.Keys);
      SetKeyKeys(Components(s, Front(ts)), Last(ts).name, ComponentShape(s, Last(ts)));
      NamesLast(ts);
    } else {
      assert KeysOf<Shape>([]) == {};
    }
  }

  lemma NamesLast(ts: seq<Type>)
    requires ts != []
    ensures Names(ts) == Names(Front(ts)) + {Last(ts).name}
  {}

  /** The document of a schema whose names and types are in step has no dangling reference. */
  lemma DocumentSound(s: Schema)
    requires InStep(s)
    ensures NoDangling(ToOpenApi(s)) && KeysOf(ToOpenApi(s).components) == s.byName.Keys
  {
    ComponentsWithin(s, s.types);
    assert Names(s.types) == s.byName.Keys by {
      forall n | n in s.byName ensures n in Names(s.types) { assert s.types[s.byName[n]].name == n; }
    }
    hide AllWithin, ShapesWithin, InStep, RootFields, KeysOf;
    QueryPathsWithin(s, RootFields(s, s.query, "Query"));
    MutationPathsWithin(s, QueryPaths(s, RootFields(s, s.query, "Query")), RootFields(s, s.mutation, "Mutation"));
    WebhooksWithin(s, RootFields(s, s.subscription, "Subscription"));
  }

  /** Every schema text the front end accepts becomes a document without dangling references. */
  lemma AcceptedDocumentSound(src: string)
    requires ParseSDL(src).Some?
    ensures NoDangling(ToOpenApi(ParseSDL(src).value))
  {
    hide ParseSDL, InStep, NoDangling, ToOpenApi;
    ParsedInStep(src);
    DocumentSound(ParseSDL(src).value);
  }

  // ---- Introspection ----

  /** The types of an introspection result that are not skipped, in order: a name given twice
      is refused. */
  function Introspect(ts: seq<Type>): Option<Schema> {
    if ts == [] then Some(NO_SCHEMA)
    else
      var s := Introspect(Front(ts));
      if s.None? || Last(ts).name in s.value.byName then None else Register(s.value, Last(ts), false)
  }

  lemma {:induction false} IntrospectedInStep(ts: seq<Type>)
    requires Introspect(ts).Some?
    ensures InStep(Introspect(ts).value)
  {
    if ts != [] {
      hide Register, InStep;
      IntrospectedInStep(Front(ts));
      RegisterKeepsStep(Introspect(Front(ts)).value, Last(ts), false);
    }
  }

  /** The same for introspection, whatever root types it names. */
  lemma IntrospectedDocumentSound(ts: seq<Type>, query: string, mutation: string, subscription: string)
    requires Introspect(ts).Some?
    ensures NoDangling(ToOpenApi(Introspect(ts).value.(query := query, mutation := mutation, subscription := subscription)))
  {
    IntrospectedInStep(ts);
    hide Introspect, NoDangling, ToOpenApi;
    DocumentSound(Introspect(ts).value.(query := query, mutation := mutation, subscription := subscription));
  }
}
