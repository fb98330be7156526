/** What a schema document declares, said of its definitions: the types by name, with what the
    extensions add, and the root types named last. */
module GraphQLMeaning {
  import opened GraphQL
  import opened GraphQLGrammar
  import opened Text

  predicate Declares(d: Definition, name: string) { TypeOf(d.body).Some? && TypeOf(d.body).value.name == name }

  function DeclaredType(d: Definition): Type
    requires TypeOf(d.body).Some?
  {
    TypeOf(d.body).value
  }

  /** All the fields, values and members that definitions of a name list, in order. */
  function FieldsNamed(ds: seq<Definition>, name: string): seq<Field> {
    if ds == [] then [] else FieldsNamed(Front(ds), name) + if Declares(Last(ds), name) then DeclaredType(Last(ds)).fields else []
  }

  function ValuesNamed(ds: seq<Definition>, name: string): seq<string> {
    if ds == [] then [] else ValuesNamed(Front(ds), name) + if Declares(Last(ds), name) then DeclaredType(Last(ds)).enumValues else []
  }

  function MembersNamed(ds: seq<Definition>, name: string): seq<string> {
    if ds == [] then [] else MembersNamed(Front(ds), name) + if Declares(Last(ds), name) then DeclaredType(Last(ds)).members else []
  }

  /** The type stands for all the definitions of its name, which are of its kind. */
  ghost predicate Gathers(t: Type, ds: seq<Definition>) {
    && t.fields == FieldsNamed(ds, t.name) && t.enumValues == ValuesNamed(ds, t.name) && t.members == MembersNamed(ds, t.name)
    && forall i | 0 <= i < |ds| && Declares(ds[i], t.name) :: DeclaredType(ds[i]).kind == t.kind
  }

  ghost predicate FirstOf(ds: seq<Definition>, name: string, i: nat) {
    i < |ds| && Declares(ds[i], name) && forall j | 0 <= j < i :: !Declares(ds[j], name)
  }

  /** The pairs of a schema definition, one after another over the document. */
  function AllRoots(ds: seq<Definition>): seq<(string, string)> {
    if ds == [] then []
    else AllRoots(Front(ds)) + if Last(ds).body.Roots? && Last(ds).body.roots.Some? then Last(ds).body.roots.value else []
  }

  /** The name is the last one given for the operation, or the one there before. */
  ghost predicate NamedLast(rs: seq<(string, string)>, op: string, before: string, name: string) {
    && (forall i | 0 <= i < |rs| && rs[i].0 == op && (forall j | i < j < |rs| :: rs[j].0 != op) :: name == rs[i].1)
    && ((forall i | 0 <= i < |rs| :: rs[i].0 != op) ==> name == before)
  }

  ghost predicate HasTypes(s: Schema, ds: seq<Definition>) {
    && InStep(s)
    && (forall name :: name in s.byName <==> exists i | 0 <= i < |ds| :: Declares(ds[i], name))
    && (forall k | 0 <= k < |s.types| :: Gathers(s.types[k], ds))
    && (forall k, l, i: nat, j: nat | 0 <= k < l < |s.types| && FirstOf(ds, s.types[k].name, i) && FirstOf(ds, s.types[l].name, j) :: i < j)
  }

  /** After the first, a name is only extended. */
  ghost predicate ExtendsOnly(ds: seq<Definition>) {
    forall i, j | 0 <= i < j < |ds| && TypeOf(ds[i].body).Some? && Declares(ds[j], DeclaredType(ds[i]).name) :: ds[j].extend
  }

  ghost predicate HasRoots(s: Schema, ds: seq<Definition>) {
    && NamedLast(AllRoots(ds), "query", "", s.query) && NamedLast(AllRoots(ds), "mutation", "", s.mutation)
    && NamedLast(AllRoots(ds), "subscription", "", s.subscription)
  }

  // ---- One definition more ----

  lemma {:induction false} MeaningSnoc(s: Schema, ds: seq<Definition>)
    requires ds != []
    ensures var before := Meaning(s, Front(ds));
            Meaning(s, ds) == if before.None? then None else Declared(before.value, Last(ds).body, Last(ds).extend)
    decreases |ds|
  {
    hide Declared;
    var next := Declared(s, ds[0].body, ds[0].extend);
    if |ds| == 1 {
      assert Front(ds) == [];
      if next.Some? { assert Meaning(next.value, ds[1..]) == next; }
    } else if next.Some? {
      assert Front(ds)[1..] == Front(ds[1..]) && Front(ds)[0] == ds[0];
      MeaningSnoc(next.value, ds[1..]);
    }
  }

  lemma {:induction false} RootsKeepTypes(s: Schema, rs: seq<(string, string)>)
    requires WithRoots(s, rs).Some?
    ensures var s' := WithRoots(s, rs).value;
            && s'.types == s.types && s'.byName == s.byName
            && NamedLast(rs, "query", s.query, s'.query) && NamedLast(rs, "mutation", s.mutation, s'.mutation)
            && NamedLast(rs, "subscription", s.subscription, s'.subscription)
    decreases |rs|
  {
    if rs != [] {
      var next := if rs[0].0 == "query" then s.(query := rs[0].1)
                  else if rs[0].0 == "mutation" then s.(mutation := rs[0].1) else s.(subscription := rs[0].1);
      RootsKeepTypes(next, rs[1..]);
      assert forall i | 1 <= i < |rs| :: rs[i] == rs[1..][i - 1];
      LastStays(rs, "query", s.query, next.query, WithRoots(s, rs).value.query);
      LastStays(rs, "mutation", s.mutation, next.mutation, WithRoots(s, rs).value.mutation);
      LastStays(rs, "subscription", s.subscription, next.subscription, WithRoots(s, rs).value.subscription);
    }
  }

  lemma LastStays(rs: seq<(string, string)>, op: string, before: string, first: string, name: string)
    requires rs != [] && NamedLast(rs[1..], op, first, name) && first == if rs[0].0 == op then rs[0].1 else before
    ensures NamedLast(rs, op, before, name)
  {
    var rest := rs[1..];
    assert forall i | 1 <= i < |rs| :: rs[i] == rest[i - 1];
    forall i | 0 <= i < |rs| && rs[i].0 == op && (forall j | i < j < |rs| :: rs[j].0 != op) ensures name == rs[i].1 {
      if i > 0 {
        assert rest[i - 1].0 == op && forall j | i - 1 < j < |rest| :: rest[j].0 != op;
      } else {
        assert forall j | 0 <= j < |rest| :: rest[j].0 != op;
      }
    }
    if forall i | 0 <= i < |rs| :: rs[i].0 != op { assert forall i | 0 <= i < |rest| :: rest[i].0 != op; }
  }

  lemma LastJoined(a: seq<(string, string)>, b: seq<(string, string)>, op: string, before: string, middle: string, name: string)
    requires NamedLast(a, op, before, middle) && NamedLast(b, op, middle, name)
    ensures NamedLast(a + b, op, before, name)
  {
    var all := a + b;
    assert (forall i | 0 <= i < |a| :: all[i] == a[i]) && forall i | 0 <= i < |b| :: all[|a| + i] == b[i];
    forall i | 0 <= i < |all| && all[i].0 == op && (forall j | i < j < |all| :: all[j].0 != op) ensures name == all[i].1 {
      if i < |a| {
        assert forall j | 0 <= j < |b| :: b[j].0 != op by { forall j | 0 <= j < |b| ensures b[j].0 != op { assert all[|a| + j] == b[j]; } }
        assert forall j | i < j < |a| :: a[j].0 != op;
      } else {
        assert forall j | i - |a| < j < |b| :: b[j].0 != op by {
          forall j | i - |a| < j < |b| ensures b[j].0 != op { assert all[|a| + j] == b[j]; }
        }
      }
    }
    if forall i | 0 <= i < |all| :: all[i].0 != op {
      forall i | 0 <= i < |a| ensures a[i].0 != op { assert all[i] == a[i]; }
      forall i | 0 <= i < |b| ensures b[i].0 != op { assert all[|a| + i] == b[i]; }
    }
  }

  ghost predicate SomeDeclares(ds: seq<Definition>, name: string) { exists i | 0 <= i < |ds| :: Declares(ds[i], name) }

  lemma SomeSnoc(ds: seq<Definition>, name: string)
    requires ds != []
    ensures SomeDeclares(ds, name) <==> SomeDeclares(Front(ds), name) || Declares(Last(ds), name)
  {
    hide Declares;
    assert ds[|ds| - 1] == Last(ds) && forall i | 0 <= i < |ds| - 1 :: ds[i] == Front(ds)[i];
  }

  lemma {:induction false} NoneNamed(ds: seq<Definition>, name: string)
    requires !SomeDeclares(ds, name)
    ensures FieldsNamed(ds, name) == [] && ValuesNamed(ds, name) == [] && MembersNamed(ds, name) == []
  {
    if ds != [] {
      SomeSnoc(ds, name);
      hide Declares;
      NoneNamed(Front(ds), name);
    }
  }

  /** A definition of another name changes nothing. */
  lemma GathersOther(t: Type, ds: seq<Definition>)
    requires ds != [] && Gathers(t, Front(ds)) && !Declares(Last(ds), t.name)
    ensures Gathers(t, ds)
  {
    hide Declares;
    forall i | 0 <= i < |ds| && Declares(ds[i], t.name) ensures i < |ds| - 1 && ds[i] == Front(ds)[i] { assert ds[|ds| - 1] == Last(ds); }
  }

  lemma GathersFirst(t: Type, ds: seq<Definition>)
    requires ds != [] && !SomeDeclares(Front(ds), t.name) && TypeOf(Last(ds).body) == Some(t)
    ensures Gathers(t, ds)
  {
    NoneNamed(Front(ds), t.name);
    assert forall i | 0 <= i < |ds| - 1 :: Front(ds)[i] == ds[i] && !Declares(Front(ds)[i], t.name);
    hide TypeOf, SomeDeclares;
    assert [] + t.fields == t.fields && [] + t.enumValues == t.enumValues && [] + t.members == t.members;
  }

  lemma GathersMore(o: Type, t: Type, ds: seq<Definition>)
    requires ds != [] && Gathers(o, Front(ds)) && TypeOf(Last(ds).body) == Some(t) && t.name == o.name && t.kind == o.kind
    ensures Gathers(o.(fields := o.fields + t.fields, enumValues := o.enumValues + t.enumValues, members := o.members + t.members), ds)
  {
    hide TypeOf;
    forall i | 0 <= i < |ds| && Declares(ds[i], o.name) ensures DeclaredType(ds[i]).kind == o.kind {
      if i < |ds| - 1 { assert Declares(Front(ds)[i], o.name); }
    }
  }

  lemma FirstFront(ds: seq<Definition>, name: string, i: nat)
    requires ds != [] && FirstOf(ds, name, i)
    ensures if i < |ds| - 1 then FirstOf(Front(ds), name, i) else !SomeDeclares(Front(ds), name) && Declares(Last(ds), name)
  {
    hide Declares;
  }

  lemma Firsts(s: Schema, s': Schema, ds: seq<Definition>)
    requires ds != [] && HasTypes(s, Front(ds)) && |s.types| <= |s'.types| <= |s.types| + 1
    requires forall k | 0 <= k < |s.types| :: s'.types[k].name == s.types[k].name
    requires |s'.types| > |s.types| ==> !SomeDeclares(Front(ds), s'.types[|s.types|].name)
    ensures forall k, l, i: nat, j: nat | 0 <= k < l < |s'.types| && FirstOf(ds, s'.types[k].name, i) && FirstOf(ds, s'.types[l].name, j) :: i < j
  {
    hide Gathers, FirstOf, InStep;
    forall k, l, i: nat, j: nat | 0 <= k < l < |s'.types| && FirstOf(ds, s'.types[k].name, i) && FirstOf(ds, s'.types[l].name, j)
      ensures i < j
    {
      FirstFront(ds, s'.types[k].name, i);
      FirstFront(ds, s'.types[l].name, j);
      FirstWithin(ds, s'.types[l].name, j);
      Listed(s, Front(ds), k);
      if l < |s.types| {
        Listed(s, Front(ds), l);
      } else {
        if j < |ds| - 1 { FirstDeclares(Front(ds), s'.types[l].name, j); }
      }
    }
  }

  lemma FirstWithin(ds: seq<Definition>, name: string, i: nat)
    requires FirstOf(ds, name, i)
    ensures i < |ds|
  {}

  lemma FirstDeclares(ds: seq<Definition>, name: string, i: nat)
    requires FirstOf(ds, name, i)
    ensures SomeDeclares(ds, name)
  {}

  lemma Listed(s: Schema, ds: seq<Definition>, k: nat)
    requires HasTypes(s, ds) && k < |s.types|
    ensures SomeDeclares(ds, s.types[k].name)
  {
    hide Declares, Gathers;
    assert s.types[k].name in s.byName;
  }

  /** The names of a schema are those its definitions declare. */
  ghost predicate NamesAre(s: Schema, ds: seq<Definition>) { forall name :: name in s.byName <==> SomeDeclares(ds, name) }

  ghost predicate AllGathered(s: Schema, ds: seq<Definition>) { forall k | 0 <= k < |s.types| :: Gathers(s.types[k], ds) }

  ghost predicate InFirstOrder(s: Schema, ds: seq<Definition>) {
    forall k, l, i: nat, j: nat | 0 <= k < l < |s.types| && FirstOf(ds, s.types[k].name, i) && FirstOf(ds, s.types[l].name, j) :: i < j
  }

  lemma HasTypesIs(s: Schema, ds: seq<Definition>)
    ensures HasTypes(s, ds) <==> InStep(s) && NamesAre(s, ds) && AllGathered(s, ds) && InFirstOrder(s, ds)
  {
    hide Gathers, FirstOf, Declares, InStep;
  }

  lemma FirstsAre(s: Schema, s': Schema, ds: seq<Definition>)
    requires ds != [] && HasTypes(s, Front(ds)) && |s.types| <= |s'.types| <= |s.types| + 1
    requires forall k | 0 <= k < |s.types| :: s'.types[k].name == s.types[k].name
    requires |s'.types| > |s.types| ==> !SomeDeclares(Front(ds), s'.types[|s.types|].name)
    ensures InFirstOrder(s', ds)
  {
    Firsts(s, s', ds);
    hide FirstOf;
  }

  lemma NamesMore(s: Schema, s': Schema, ds: seq<Definition>)
    requires ds != [] && NamesAre(s, Front(ds))
    requires forall name :: name in s'.byName <==> name in s.byName || Declares(Last(ds), name)
    ensures NamesAre(s', ds)
  {
    hide Declares;
    forall name ensures name in s'.byName <==> SomeDeclares(ds, name) { SomeSnoc(ds, name); }
  }

  lemma DeclaresIs(d: Definition, t: Type, name: string)
    requires TypeOf(d.body) == Some(t)
    ensures Declares(d, name) <==> name == t.name
  {
    hide TypeOf;
  }

  lemma SameTypes(s: Schema, s': Schema, ds: seq<Definition>)
    requires ds != [] && HasTypes(s, Front(ds)) && TypeOf(Last(ds).body).None? && s'.types == s.types && s'.byName == s.byName
    ensures HasTypes(s', ds)
  {
    hide TypeOf, Gathers, FirstOf, HasTypes;
    HasTypesIs(s, Front(ds));
    assert forall name :: !Declares(Last(ds), name);
    NamesMore(s, s', ds);
    forall k | 0 <= k < |s'.types| ensures Gathers(s'.types[k], ds) { GathersOther(s.types[k], ds); }
    FirstsAre(s, s', ds);
    HasTypesIs(s', ds);
  }

  lemma NewSteps(s: Schema, t: Type)
    requires InStep(s) && t.name !in s.byName && |s.types| < MAX_TYPES
    ensures InStep(s.(types := s.types + [t], byName := s.byName[t.name := |s.types|]))
    ensures forall k | 0 <= k < |s.types| :: s.types[k].name != t.name
  {}

  lemma NewType(s: Schema, s': Schema, ds: seq<Definition>, t: Type)
    requires ds != [] && HasTypes(s, Front(ds)) && TypeOf(Last(ds).body) == Some(t) && t.name !in s.byName && |s.types| < MAX_TYPES
    requires s' == s.(types := s.types + [t], byName := s.byName[t.name := |s.types|])
    ensures HasTypes(s', ds)
  {
    hide TypeOf, Gathers, FirstOf, HasTypes, Declares, SomeDeclares, InStep;
    HasTypesIs(s, Front(ds));
    NewSteps(s, t);
    forall name ensures Declares(Last(ds), name) <==> name == t.name { DeclaresIs(Last(ds), t, name); }
    NamesMore(s, s', ds);
    assert !SomeDeclares(Front(ds), t.name);
    forall k | 0 <= k < |s'.types| ensures Gathers(s'.types[k], ds) {
      if k < |s.types| { GathersOther(s.types[k], ds); } else { GathersFirst(t, ds); }
    }
    FirstsAre(s, s', ds);
    HasTypesIs(s', ds);
  }

  lemma MoreSteps(s: Schema, o: Type, name: string)
    requires InStep(s) && name in s.byName && o.name == name
    ensures InStep(s.(types := s.types[s.byName[name] := o])) && s.types[s.byName[name]].name == name
    ensures forall k | 0 <= k < |s.types| && k != s.byName[name] :: s.types[k].name != name
  {}

  lemma MoreOfType(s: Schema, s': Schema, ds: seq<Definition>, t: Type)
    requires ds != [] && HasTypes(s, Front(ds)) && TypeOf(Last(ds).body) == Some(t) && t.name in s.byName
    requires s.byName[t.name] < |s.types|
    requires var o := s.types[s.byName[t.name]];
             && o.kind == t.kind
             && s' == s.(types := s.types[s.byName[t.name] :=
                  o.(fields := o.fields + t.fields, enumValues := o.enumValues + t.enumValues, members := o.members + t.members)])
    ensures HasTypes(s', ds)
  {
    hide TypeOf, Gathers, FirstOf, HasTypes, Declares, SomeDeclares, InStep;
    HasTypesIs(s, Front(ds));
    var at := s.byName[t.name];
    MoreSteps(s, s.types[at].(name := t.name), t.name);
    MoreSteps(s, s'.types[at], t.name);
    forall name ensures Declares(Last(ds), name) <==> name == t.name { DeclaresIs(Last(ds), t, name); }
    NamesMore(s, s', ds);
    forall k | 0 <= k < |s'.types| ensures Gathers(s'.types[k], ds) {
      if k == at { GathersMore(s.types[at], t, ds); } else { GathersOther(s.types[k], ds); }
    }
    FirstsAre(s, s', ds);
    HasTypesIs(s', ds);
  }

  lemma Extends(s: Schema, ds: seq<Definition>)
    requires ds != [] && HasTypes(s, Front(ds)) && ExtendsOnly(Front(ds))
    requires TypeOf(Last(ds).body).Some? && DeclaredType(Last(ds)).name in s.byName ==> Last(ds).extend
    ensures ExtendsOnly(ds)
  {
    hide TypeOf, Gathers, FirstOf;
    forall i, j | 0 <= i < j < |ds| && TypeOf(ds[i].body).Some? && Declares(ds[j], DeclaredType(ds[i]).name) ensures ds[j].extend {
      assert ds[i] == Front(ds)[i] && Declares(Front(ds)[i], DeclaredType(ds[i]).name);
      if j < |ds| - 1 { assert Front(ds)[j] == ds[j]; }
    }
  }

  lemma RootsMore(s: Schema, s': Schema, ds: seq<Definition>)
    requires ds != [] && HasRoots(s, Front(ds))
    requires var b := Last(ds).body;
             if b.Roots? && b.roots.Some? then
               NamedLast(b.roots.value, "query", s.query, s'.query) && NamedLast(b.roots.value, "mutation", s.mutation, s'.mutation)
               && NamedLast(b.roots.value, "subscription", s.subscription, s'.subscription)
             else s'.query == s.query && s'.mutation == s.mutation && s'.subscription == s.subscription
    ensures HasRoots(s', ds)
  {
    hide NamedLast;
    var b, before := Last(ds).body, AllRoots(Front(ds));
    if b.Roots? && b.roots.Some? {
      LastJoined(before, b.roots.value, "query", "", s.query, s'.query);
      LastJoined(before, b.roots.value, "mutation", "", s.mutation, s'.mutation);
      LastJoined(before, b.roots.value, "subscription", "", s.subscription, s'.subscription);
    } else {
      assert before + [] == before;
    }
  }

  /** Of every document accepted: its types are those its definitions declare, in the order of
      first mention, each with all that its definitions and extensions list, of one kind, and
      none declared twice; and its roots are the names given last. */
  lemma {:induction false} MeaningIs(ds: seq<Definition>)
    requires Meaning(NO_SCHEMA, ds).Some?
    ensures var s := Meaning(NO_SCHEMA, ds).value; HasTypes(s, ds) && ExtendsOnly(ds) && HasRoots(s, ds)
    decreases |ds|
  {
    if ds == [] {
      NothingMeant();
    } else {
      hide HasTypes, ExtendsOnly, HasRoots, TypeOf, WithRoots;
      MeaningSnoc(NO_SCHEMA, ds);
      MeaningIs(Front(ds));
      var s, s', b := Meaning(NO_SCHEMA, Front(ds)).value, Meaning(NO_SCHEMA, ds).value, Last(ds).body;
      hide Meaning;
      if b.Roots? {
        if b.roots.Some? { RootsKeepTypes(s, b.roots.value); }
        NoType(b);
        SameTypes(s, s', ds);
      } else if TypeOf(b).None? {
        SameTypes(s, s', ds);
      } else {
        var t := TypeOf(b).value;
        Steps(s, ds);
        if t.name in s.byName { MoreOfType(s, s', ds, t); } else { NewType(s, s', ds, t); }
      }
      Extends(s, ds);
      RootsMore(s, s', ds);
    }
  }

  lemma NothingMeant()
    ensures HasTypes(NO_SCHEMA, []) && ExtendsOnly([]) && HasRoots(NO_SCHEMA, [])
  {}

  lemma NoType(b: Body)
    requires b.Roots?
    ensures TypeOf(b).None?
  {}

  lemma Steps(s: Schema, ds: seq<Definition>)
    requires ds != [] && HasTypes(s, Front(ds))
    ensures InStep(s)
  {}
}
