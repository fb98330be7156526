/** Exactly what `Admit` proposes of an endpoint, and that nothing else reaches the journal. */
module Proposing {
  import opened Contract
  import opened Names
  import opened Text
  import opened Totals

  // ---- The dominant type ----

  /** Seen, and seen more often than any other type, or as often and earlier in the alphabet. */
  ghost predicate Dominates(types: map<string, nat>, t: string) {
    && t in types && types[t] > 0
    && forall u | u in types && u != t :: types[t] > types[u] || (types[t] == types[u] && Less(t, u))
  }

  ghost predicate NoneSeen(types: map<string, nat>) { forall u | u in types :: types[u] == 0 }

  ghost predicate Ascending(names: seq<string>) { forall i, j | 0 <= i < j < |names| :: Less(names[i], names[j]) }

  /** The best of some names, the earliest of equals. */
  ghost predicate BestOf(types: map<string, nat>, names: seq<string>, d: Dominance)
    requires forall t | t in names :: t in types
  {
    if forall t | t in names :: types[t] == 0 then d.typ == "" && d.best == 0
    else
      && d.typ in names && d.best == types[d.typ] > 0
      && forall u | u in names && u != d.typ :: types[u] < d.best || (types[u] == d.best && Less(d.typ, u))
  }

  lemma {:induction false} DominanceBest(types: map<string, nat>, names: seq<string>)
    requires Ascending(names) && forall t | t in names :: t in types
    ensures BestOf(types, names, DominanceOf(types, names))
  {
    if names != [] {
      hide Less;
      DominanceBest(types, Front(names));
      forall u ensures u in names <==> u in Front(names) || u == Last(names) { FrontAndLast(names, u); }
      assert Last(names) in names;
      forall u | u in Front(names) ensures Less(u, Last(names)) {
        var i :| 0 <= i < |Front(names)| && Front(names)[i] == u;
        assert names[i] == u && Last(names) == names[|names| - 1];
      }
    }
  }

  function Only(types: map<string, nat>, names: seq<string>): map<string, nat> { map t | t in types && t in names :: types[t] }

  lemma OnlyMore(types: map<string, nat>, names: seq<string>)
    requires names != [] && Ascending(names) && forall t | t in names :: t in types
    ensures Only(types, names) == Only(types, Front(names))[Last(names) := types[Last(names)]]
    ensures Last(names) !in Only(types, Front(names)) && Ascending(Front(names)) && forall t | t in Front(names) :: t in types
  {
    hide Less;
    AscendingFront(names);
    NotLess(Last(names));
    forall u ensures u in names <==> u in Front(names) || u == Last(names) { FrontAndLast(names, u); }
  }

  lemma {:induction false} DominanceTotal(types: map<string, nat>, names: seq<string>)
    requires Ascending(names) && forall t | t in names :: t in types
    ensures DominanceOf(types, names).total == Total(Only(types, names))
  {
    if names == [] {
      assert Only(types, names) == map[];
    } else {
      hide Less, Only, Ascending, Total;
      OnlyMore(types, names);
      DominanceTotal(types, Front(names));
      assert Last(names) in names;
      TotalUpdate(Only(types, Front(names)), Last(names), types[Last(names)]);
    }
  }

  lemma NotLess(t: string)
    ensures !Less(t, t)
  {
    LessStrictTotal(t, t, t);
  }

  lemma {:induction false} ZeroTotal(types: map<string, nat>)
    ensures Total(types) == 0 <==> NoneSeen(types)
  {
    if types != map[] {
      var t :| t in types && Total(types) == types[t] + Total(types - {t});
      ZeroTotal(types - {t});
      forall u | u in types ensures u == t || (u in types - {t} && (types - {t})[u] == types[u]) {}
      forall u | u in types - {t} ensures (types - {t})[u] == types[u] {}
    }
  }

  /** The dominant type with its count, and the count of all; nothing if none was seen. */
  lemma DominantIs(types: map<string, nat>)
    ensures var d := DominantStats(types);
            if NoneSeen(types) then d == Dominance("", 0, 0)
            else Dominates(types, d.typ) && d.best == types[d.typ] && d.total == Total(types) > 0
  {
    hide Less, DominanceOf;
    var names := Sorted(types.Keys);
    DominanceBest(types, names);
    DominanceTotal(types, names);
    assert Only(types, names) == types;
    ZeroTotal(types);
  }

  // ---- What is called for ----

  /** The endpoint as the specification knows it. */
  ghost predicate DeclaredAs(k: Case, e: SpecEndpoint) {
    var key := k.d.upper(k.ep.verb) + "|" + k.d.canonical(k.ep.verb, k.ep.template);
    key in k.d.view && k.d.view[key] == e
  }

  ghost predicate Undeclared(k: Case) { k.d.upper(k.ep.verb) + "|" + k.d.canonical(k.ep.verb, k.ep.template) !in k.d.view }

  ghost predicate TypeDeclared(k: Case, path: string, typ: string) {
    exists e :: DeclaredAs(k, e) && path in e.types && e.types[path] == typ && typ != ""
  }

  ghost predicate ValuesDeclared(k: Case, path: string, vs: seq<string>) {
    exists e :: DeclaredAs(k, e) && path in e.enums && e.enums[path] == vs && vs != []
  }

  ghost predicate RateIs(f: ObservedField, rate: real) {
    if f.samples == 0 then rate == 0.0 else rate * f.samples as real == f.seen as real
  }

  /** The field is there often enough, at this rate. */
  ghost predicate Present(k: Case, path: string, rate: real) {
    path in k.ep.fields && RateIs(k.ep.fields[path], rate) && rate >= k.c.presenceFloor
  }

  /** Traffic shows another type than the declared one. */
  ghost predicate Differs(k: Case, path: string, declared: string, observed: string) {
    && path in k.ep.fields && TypeDeclared(k, path, declared)
    && Dominates(k.ep.fields[path].types, observed) && observed != "" && observed != declared
  }

  /** Ten samples or more, 98 in a hundred of that type, and the specification not preferred. */
  ghost predicate TrafficWins(k: Case, path: string, observed: string)
    requires path in k.ep.fields && observed in k.ep.fields[path].types
  {
    var types := k.ep.fields[path].types;
    !k.preferSpec && Total(types) >= 10 && 100 * types[observed] >= 98 * Total(types)
  }

  ghost predicate FromHere(k: Case, a: Admission) {
    && a.version == 0 && a.at == k.now && a.verb == k.ep.verb && a.statusClass == k.ep.statusClass
    && a.template == k.d.canonical(k.ep.verb, k.ep.template)
  }

  ghost predicate FieldWanted(k: Case, a: Admission) {
    && Present(k, a.field, a.presence) && (forall t :: !TypeDeclared(k, a.field, t)) && a.value == ""
    && a.sourceKey == k.d.upper(k.ep.verb) + "|" + k.ep.template + "|" + k.ep.statusClass
    && if NoneSeen(k.ep.fields[a.field].types) then a.typ == "" else Dominates(k.ep.fields[a.field].types, a.typ)
  }

  ghost predicate TypeWanted(k: Case, a: Admission) {
    && Present(k, a.field, a.presence) && a.value == "" && a.sourceKey == ""
    && (exists declared :: Differs(k, a.field, declared, a.typ)) && TrafficWins(k, a.field, a.typ)
  }

  ghost predicate ValueWanted(k: Case, a: Admission) {
    && Present(k, a.field, a.presence) && a.typ == "" && a.sourceKey == "" && !k.ep.fields[a.field].high
    && a.value in k.ep.fields[a.field].values && k.ep.fields[a.field].values[a.value] >= 3
    && exists vs :: ValuesDeclared(k, a.field, vs) && a.value !in vs
  }

  ghost predicate StatusWanted(k: Case, a: Admission) {
    && a.field == "" && a.typ == "" && a.presence == 0.0 && a.sourceKey == ""
    && a.value in k.ep.statusCodes && k.ep.statusCodes[a.value] >= 3
    && exists e :: DeclaredAs(k, e) && a.value !in e.statuses
  }

  ghost predicate EndpointWanted(k: Case, a: Admission) {
    Undeclared(k) && a.field == "" && a.value == "" && a.typ == "" && a.presence == 0.0 && a.sourceKey == ""
  }

  predicate IsRate(rate: real, part: nat, whole: nat) { rate * whole as real == part as real }

  ghost predicate ContestWanted(k: Case, x: Contradiction) {
    && x.verb == k.ep.verb && x.template == k.d.canonical(k.ep.verb, k.ep.template)
    && x.statusClass == k.ep.statusClass && x.firstSeen == k.now
    && (exists rate :: Present(k, x.field, rate)) && Differs(k, x.field, x.claim, x.observed)
    && IsRate(x.rate, k.ep.fields[x.field].types[x.observed], Total(k.ep.fields[x.field].types))
    && x.winner == if TrafficWins(k, x.field, x.observed) then "traffic" else "spec"
  }

  /** Samples and age have reached what is asked for, and the proposal is one of these. */
  ghost predicate Wanted(k: Case, p: Proposal) {
    && k.ep.samples >= k.c.minSamples && k.now - k.ep.firstSeen >= k.c.minAge
    && match p
       case Contest(x) => ContestWanted(k, x)
       case Propose(a) =>
         && FromHere(k, a)
         && match a.kind
            case AdmitField => FieldWanted(k, a)
            case AdmitType => TypeWanted(k, a)
            case AdmitValue => ValueWanted(k, a)
            case AdmitStatus => StatusWanted(k, a)
            case AdmitEndpoint => EndpointWanted(k, a)
  }

  // ---- The parts ----

  lemma DeclaredIs(k: Case, path: string)
    ensures Declared(k).None? <==> Undeclared(k)
    ensures forall e :: DeclaredAs(k, e) <==> Declared(k) == Some(e)
    ensures forall t :: TypeDeclared(k, path, t) <==> t == DeclaredType(k, path) && t != ""
    ensures forall vs :: ValuesDeclared(k, path, vs) <==> vs == DeclaredValues(k, path) && vs != []
  {
    assert EndpointKeyOf(k.d, k.ep.verb, TemplateOf(k)) == k.d.upper(k.ep.verb) + "|" + k.d.canonical(k.ep.verb, k.ep.template);
    forall t ensures TypeDeclared(k, path, t) <==> t == DeclaredType(k, path) && t != "" {
      if t == DeclaredType(k, path) && t != "" { assert DeclaredAs(k, Declared(k).value); }
    }
    forall vs ensures ValuesDeclared(k, path, vs) <==> vs == DeclaredValues(k, path) && vs != [] {
      if vs == DeclaredValues(k, path) && vs != [] { assert DeclaredAs(k, Declared(k).value); }
    }
  }

  lemma RateOnce(f: ObservedField, rate: real)
    ensures RateIs(f, rate) <==> rate == PresenceRate(f)
  {
    if f.samples != 0 {
      var n := f.samples as real;
      assert PresenceRate(f) * n == f.seen as real;
      if rate * n == f.seen as real { SameRate(rate, PresenceRate(f), n); }
    }
  }

  lemma SameRate(x: real, y: real, n: real)
    requires n > 0.0 && x * n == y * n
    ensures x == y
  {
    assert (x - y) * n == 0.0;
  }

  lemma Divided(b: real, n: real)
    requires n > 0.0
    ensures b / n * n == b
  {}

  lemma AtLeast98(rate: real, n: nat, part: nat)
    requires n > 0 && rate * n as real == part as real
    ensures rate >= 0.98 <==> 100 * part >= 98 * n
  {
    if rate >= 0.98 { assert rate * n as real >= 0.98 * n as real; } else { assert rate * n as real < 0.98 * n as real; }
  }

  lemma ShareIs(best: nat, total: nat, share: real)
    requires total > 0
    ensures share * total as real == best as real <==> share == best as real / total as real
  {
    Divided(best as real, total as real);
    if share * total as real == best as real { SameRate(share, best as real / total as real, total as real); }
  }

  lemma SustainedIs(d: Dominance)
    requires d.total > 0
    ensures Sustained(d) <==> 100 * d.best >= 98 * d.total && d.total >= 10
  {
    Divided(d.best as real, d.total as real);
    AtLeast98(Share(d), d.total, d.best);
  }

  lemma DominatesOnce(types: map<string, nat>, t: string, u: string)
    requires Dominates(types, t) && Dominates(types, u)
    ensures t == u
  {
    hide Less;
    LessStrictTotal(t, u, t);
  }

  /** What is said of the type of a field, by cases. */
  lemma TypeListed(k: Case, path: string, p: Proposal)
    requires path in k.ep.fields
    ensures var d, declared := DominantStats(k.ep.fields[path].types), DeclaredType(k, path);
            var rate := PresenceRate(k.ep.fields[path]);
            var differs, wins := d.typ != "" && d.typ != declared, !k.preferSpec && Sustained(d);
            p in TypeProposals(k, path) <==>
              if declared == "" then
                p == Propose(Make(k, AdmitField, path, "", d.typ, rate, EndpointKey(k.d, k.ep.verb, k.ep.template, k.ep.statusClass)))
              else
                || (differs && wins && p == Propose(Make(k, AdmitType, path, "", d.typ, rate, "")))
                || (differs && p == Contest(Contradict(k, path, d, if wins then "traffic" else "spec")))
  {
    hide DominantStats, DeclaredType, PresenceRate, Sustained, EndpointKey, Make, Contradict;
  }

  lemma FieldCalled(k: Case, path: string, a: Admission)
    requires path in k.ep.fields && PresenceRate(k.ep.fields[path]) >= k.c.presenceFloor && a.field == path && a.kind.AdmitField?
    ensures var d := DominantStats(k.ep.fields[path].types);
            FromHere(k, a) && FieldWanted(k, a) <==>
            DeclaredType(k, path) == ""
            && a == Make(k, AdmitField, path, "", d.typ, PresenceRate(k.ep.fields[path]),
                         EndpointKey(k.d, k.ep.verb, k.ep.template, k.ep.statusClass))
  {
    var f := k.ep.fields[path];
    DeclaredIs(k, path);
    DominantIs(f.types);
    RateOnce(f, a.presence);
    assert EndpointKey(k.d, k.ep.verb, k.ep.template, k.ep.statusClass)
           == k.d.upper(k.ep.verb) + "|" + k.ep.template + "|" + k.ep.statusClass;
    if Dominates(f.types, a.typ) && !NoneSeen(f.types) { DominatesOnce(f.types, a.typ, DominantStats(f.types).typ); }
    assert TypeDeclared(k, path, DeclaredType(k, path)) <==> DeclaredType(k, path) != "";
    hide DominantStats, DeclaredType, TypeDeclared, PresenceRate, RateIs, Less, EndpointKey, Dominates, NoneSeen;
  }

  /** Whether traffic shows another type, and whether it wins, by its dominant type. */
  lemma DiffersIs(k: Case, path: string, declared: string, observed: string)
    requires path in k.ep.fields
    ensures var d := DominantStats(k.ep.fields[path].types);
            && (Differs(k, path, declared, observed) <==>
                declared == DeclaredType(k, path) && declared != "" && observed == d.typ && d.typ != "" && d.typ != declared)
            && (Differs(k, path, declared, observed) ==>
                d.total == Total(k.ep.fields[path].types) > 0 && d.best == k.ep.fields[path].types[observed]
                && (TrafficWins(k, path, observed) <==> !k.preferSpec && Sustained(d)))
  {
    var types := k.ep.fields[path].types;
    var d := DominantStats(types);
    DeclaredIs(k, path);
    DominantIs(types);
    if d.total > 0 { SustainedIs(d); }
    if Dominates(types, observed) && !NoneSeen(types) { DominatesOnce(types, observed, d.typ); }
    hide DominantStats, DeclaredType, TypeDeclared, Less, Sustained;
  }

  lemma OverrideCalled(k: Case, path: string, a: Admission)
    requires path in k.ep.fields && PresenceRate(k.ep.fields[path]) >= k.c.presenceFloor && a.field == path && a.kind.AdmitType?
    ensures var d, declared := DominantStats(k.ep.fields[path].types), DeclaredType(k, path);
            FromHere(k, a) && TypeWanted(k, a) <==>
            && declared != "" && d.typ != "" && d.typ != declared && !k.preferSpec && Sustained(d)
            && a == Make(k, AdmitType, path, "", d.typ, PresenceRate(k.ep.fields[path]), "")
  {
    var f := k.ep.fields[path];
    RateOnce(f, a.presence);
    forall declared ensures Differs(k, path, declared, a.typ) <==> Differs(k, path, declared, a.typ) && declared == DeclaredType(k, path) {
      DiffersIs(k, path, declared, a.typ);
    }
    DiffersIs(k, path, DeclaredType(k, path), a.typ);
    hide DominantStats, DeclaredType, Differs, PresenceRate, RateIs, TrafficWins, Sustained;
  }

  lemma ContestCalled(k: Case, x: Contradiction)
    requires x.field in k.ep.fields && PresenceRate(k.ep.fields[x.field]) >= k.c.presenceFloor
    ensures var d, declared := DominantStats(k.ep.fields[x.field].types), DeclaredType(k, x.field);
            ContestWanted(k, x) <==>
            && declared != "" && d.typ != "" && d.typ != declared
            && x == Contradict(k, x.field, d, if !k.preferSpec && Sustained(d) then "traffic" else "spec")
  {
    var f := k.ep.fields[x.field];
    var d := DominantStats(f.types);
    RateOnce(f, PresenceRate(f));
    assert Present(k, x.field, PresenceRate(f));
    DiffersIs(k, x.field, x.claim, x.observed);
    SharedRate(d, x.rate);
    hide DominantStats, DeclaredType, Differs, PresenceRate, Present, TrafficWins, Sustained, Share, IsRate;
  }

  lemma SharedRate(d: Dominance, rate: real)
    ensures d.total > 0 ==> (IsRate(rate, d.best, d.total) <==> rate == Share(d))
  {
    if d.total > 0 { ShareIs(d.best, d.total, rate); }
  }

  /** What is said of the type of a field present. */
  lemma TypeCalled(k: Case, path: string, p: Proposal)
    requires path in k.ep.fields && Warm(k) && PresenceRate(k.ep.fields[path]) >= k.c.presenceFloor
    ensures p in TypeProposals(k, path) <==>
            Wanted(k, p) && match p
                            case Propose(a) => a.field == path && (a.kind.AdmitField? || a.kind.AdmitType?)
                            case Contest(x) => x.field == path
  {
    TypeListed(k, path, p);
    hide DominantStats, DeclaredType, PresenceRate, Sustained, EndpointKey, FieldWanted, TypeWanted, ContestWanted, FromHere, TypeProposals;
    match p
    case Propose(a) =>
      if a.field == path && a.kind.AdmitField? { FieldCalled(k, path, a); }
      if a.field == path && a.kind.AdmitType? { OverrideCalled(k, path, a); }
    case Contest(x) =>
      if x.field == path { ContestCalled(k, x); }
  }

  function FieldOf(p: Proposal): string { match p case Propose(a) => a.field case Contest(x) => x.field }

  /** A proposal that says something of a field. */
  predicate OfField(p: Proposal) { p.Contest? || p.a.kind.AdmitField? || p.a.kind.AdmitType? || p.a.kind.AdmitValue? }

  lemma {:induction false} InValues(k: Case, path: string, vs: seq<string>, p: Proposal)
    requires path in k.ep.fields && forall v | v in vs :: v in k.ep.fields[path].values
    ensures p in ValueProposals(k, path, vs) <==> p.Propose? && p.a.value in vs && p in ValueProposal(k, path, p.a.value)
  {
    if vs != [] {
      InValues(k, path, Front(vs), p);
      if p.Propose? { FrontAndLast(vs, p.a.value); }
      assert Last(vs) in vs;
    }
  }

  lemma ValueCalled(k: Case, path: string, p: Proposal)
    requires path in k.ep.fields && Warm(k) && PresenceRate(k.ep.fields[path]) >= k.c.presenceFloor && !k.ep.fields[path].high
    ensures p in ValueProposals(k, path, Sorted(k.ep.fields[path].values.Keys)) <==>
            Wanted(k, p) && FieldOf(p) == path && p.Propose? && p.a.kind.AdmitValue?
  {
    var f := k.ep.fields[path];
    var vs := Sorted(f.values.Keys);
    InValues(k, path, vs, p);
    DeclaredIs(k, path);
    if p.Propose? { RateOnce(f, p.a.presence); }
    assert ValuesDeclared(k, path, DeclaredValues(k, path)) <==> DeclaredValues(k, path) != [];
    hide ValueProposals, DeclaredValues, ValuesDeclared, PresenceRate, RateIs, Less, FieldWanted, TypeWanted, StatusWanted, EndpointWanted, ContestWanted;
  }

  /** What is proposed of a field is what is called for. */
  lemma FieldProposed(k: Case, path: string, p: Proposal)
    requires path in k.ep.fields && Warm(k)
    ensures p in FieldProposals(k, path) <==> Wanted(k, p) && OfField(p) && FieldOf(p) == path
  {
    var f := k.ep.fields[path];
    if PresenceRate(f) < k.c.presenceFloor {
      RateOnce(f, PresenceRate(f));
      forall rate | RateIs(f, rate) ensures rate < k.c.presenceFloor { RateOnce(f, rate); }
      hide RateIs, PresenceRate, Differs, TrafficWins;
    } else {
      TypeCalled(k, path, p);
      if !f.high { ValueCalled(k, path, p); }
      HighSilent(k, p);
      hide TypeProposals, ValueProposals, Wanted, PresenceRate;
    }
  }

  lemma HighSilent(k: Case, p: Proposal)
    ensures p.Propose? && p.a.kind.AdmitValue? && Wanted(k, p) ==> p.a.field in k.ep.fields && !k.ep.fields[p.a.field].high
  {}

  lemma {:induction false} InFields(k: Case, paths: seq<string>, p: Proposal)
    requires Warm(k) && forall x | x in paths :: x in k.ep.fields
    ensures p in AllFields(k, paths) <==> Wanted(k, p) && OfField(p) && FieldOf(p) in paths
  {
    if paths != [] {
      hide FieldProposals, Wanted;
      InFields(k, Front(paths), p);
      FrontAndLast(paths, FieldOf(p));
      assert Last(paths) in paths;
      FieldProposed(k, Last(paths), p);
    }
  }

  lemma {:induction false} InStatuses(k: Case, codes: seq<string>, p: Proposal)
    requires Declared(k).Some? && forall c | c in codes :: c in k.ep.statusCodes
    ensures p in StatusProposals(k, codes) <==> p.Propose? && p.a.value in codes && p in StatusProposal(k, p.a.value)
  {
    if codes != [] {
      InStatuses(k, Front(codes), p);
      if p.Propose? { FrontAndLast(codes, p.a.value); }
      assert Last(codes) in codes;
    }
  }

  lemma StatusCalled(k: Case, p: Proposal)
    requires Warm(k) && Declared(k).Some?
    ensures p in StatusProposals(k, Sorted(k.ep.statusCodes.Keys)) <==> Wanted(k, p) && p.Propose? && p.a.kind.AdmitStatus?
  {
    InStatuses(k, Sorted(k.ep.statusCodes.Keys), p);
    DeclaredIs(k, "");
    hide StatusProposals, Less, FieldWanted, TypeWanted, ValueWanted, EndpointWanted, ContestWanted, Declared, DeclaredAs;
    assert DeclaredAs(k, Declared(k).value);
  }

  /** What `Admit` proposes of an endpoint is exactly what is called for. */
  lemma ProposedIff(k: Case, p: Proposal)
    ensures p in EndpointProposals(k) <==> Wanted(k, p)
  {
    if Warm(k) {
      var paths := Sorted(k.ep.fields.Keys);
      InFields(k, paths, p);
      DeclaredIs(k, "");
      if Declared(k).Some? { StatusCalled(k, p); }
      StartCalled(k, p);
      FieldThere(k, p);
      hide AllFields, StatusProposals, Less, Declared, Undeclared, DeclaredAs, Wanted, Make;
      if p.Propose? && p.a.kind.AdmitStatus? && Declared(k).None? { NoStatus(k, p); }
    }
  }

  lemma StartCalled(k: Case, p: Proposal)
    requires Warm(k)
    ensures p == Propose(Make(k, AdmitEndpoint, "", "", "", 0.0, "")) && Undeclared(k) <==>
            Wanted(k, p) && p.Propose? && p.a.kind.AdmitEndpoint?
  {
    hide FieldWanted, TypeWanted, ValueWanted, StatusWanted, ContestWanted;
  }

  lemma FieldThere(k: Case, p: Proposal)
    ensures Wanted(k, p) && OfField(p) ==> FieldOf(p) in k.ep.fields
  {
    hide Differs, TrafficWins, RateIs;
  }

  lemma NoStatus(k: Case, p: Proposal)
    requires Undeclared(k) && p.Propose? && p.a.kind.AdmitStatus?
    ensures !Wanted(k, p)
  {}

  lemma {:induction false} ProposedFor(c: Settings, d: Definition, ov: Overlay, preferSpec: bool, now: int, keys: seq<string>, p: Proposal)
    requires forall e | e in keys :: e in ov.endpoints
    ensures p in AllProposals(c, d, ov, preferSpec, now, keys) <==>
            exists e | e in keys :: Wanted(Case(c, d, ov.endpoints[e], preferSpec, now), p)
  {
    if keys != [] {
      hide EndpointProposals, Wanted;
      ProposedFor(c, d, ov, preferSpec, now, Front(keys), p);
      forall e ensures e in keys <==> e in Front(keys) || e == Last(keys) { FrontAndLast(keys, e); }
      ProposedIff(Case(c, d, ov.endpoints[Last(keys)], preferSpec, now), p);
    }
  }

  // ---- The order of the proposals ----

  /** The endpoint first, then its fields, then its statuses. */
  function Group(p: Proposal): nat { if OfField(p) then 1 else if p.a.kind.AdmitEndpoint? then 0 else 2 }

  /** Of a field: the admission of it or its type, then the contradiction, then its values. */
  function Part(p: Proposal): nat { if p.Contest? then 1 else if p.a.kind.AdmitValue? || p.a.kind.AdmitStatus? then 2 else 0 }

  function ValueOf(p: Proposal): string { if p.Propose? then p.a.value else "" }

  predicate Before(p: Proposal, q: Proposal) {
    || Group(p) < Group(q)
    || (Group(p) == Group(q)
        && (Less(FieldOf(p), FieldOf(q))
            || (FieldOf(p) == FieldOf(q) && (Part(p) < Part(q) || (Part(p) == Part(q) && Less(ValueOf(p), ValueOf(q)))))))
  }

  ghost predicate InOrder(ps: seq<Proposal>) { forall i, j | 0 <= i < j < |ps| :: Before(ps[i], ps[j]) }

  lemma BothInOrder(a: seq<Proposal>, b: seq<Proposal>)
    requires InOrder(a) && InOrder(b) && forall p, q | p in a && q in b :: Before(p, q)
    ensures InOrder(a + b)
  {
    hide Before;
    forall i, j | 0 <= i < j < |a + b| ensures Before((a + b)[i], (a + b)[j]) {
      if i < |a| { assert a[i] in a; }
      if j >= |a| { assert b[j - |a|] in b; }
    }
  }

  lemma AscendingFront(names: seq<string>)
    requires names != [] && Ascending(names)
    ensures Ascending(Front(names)) && forall x | x in Front(names) :: Less(x, Last(names))
  {
    hide Less;
    forall x | x in Front(names) ensures Less(x, Last(names)) {
      var i :| 0 <= i < |Front(names)| && Front(names)[i] == x;
      assert names[i] == x;
    }
  }

  lemma {:induction false} ValuesInOrder(k: Case, path: string, vs: seq<string>)
    requires path in k.ep.fields && Ascending(vs) && forall v | v in vs :: v in k.ep.fields[path].values
    ensures InOrder(ValueProposals(k, path, vs))
    ensures forall p | p in ValueProposals(k, path, vs) :: p.Propose? && p.a.kind.AdmitValue? && p.a.field == path && p.a.value in vs
  {
    if vs != [] {
      AscendingFront(vs);
      hide Less, Ascending, InOrder, NewValue, Make;
      ValuesInOrder(k, path, Front(vs));
      assert forall x | x in Front(vs) :: x in vs;
      assert Last(vs) in vs;
      LoneValue(k, path, Last(vs));
      BothInOrder(ValueProposals(k, path, Front(vs)), ValueProposal(k, path, Last(vs)));
    } else {
      assert InOrder([]);
    }
  }

  lemma LoneValue(k: Case, path: string, v: string)
    requires path in k.ep.fields && v in k.ep.fields[path].values
    ensures InOrder(ValueProposal(k, path, v))
    ensures forall p | p in ValueProposal(k, path, v) :: p.Propose? && p.a.kind.AdmitValue? && p.a.field == path && p.a.value == v
  {}

  lemma {:induction false} StatusesInOrder(k: Case, codes: seq<string>)
    requires Declared(k).Some? && Ascending(codes) && forall c | c in codes :: c in k.ep.statusCodes
    ensures InOrder(StatusProposals(k, codes))
    ensures forall p | p in StatusProposals(k, codes) :: p.Propose? && p.a.kind.AdmitStatus? && p.a.field == "" && p.a.value in codes
  {
    if codes != [] {
      AscendingFront(codes);
      hide Less, Ascending, InOrder, Make, Declared;
      StatusesInOrder(k, Front(codes));
      assert forall x | x in Front(codes) :: x in codes;
      assert Last(codes) in codes;
      LoneStatus(k, Last(codes));
      BothInOrder(StatusProposals(k, Front(codes)), StatusProposal(k, Last(codes)));
    } else {
      assert InOrder([]);
    }
  }

  lemma LoneStatus(k: Case, code: string)
    requires Declared(k).Some? && code in k.ep.statusCodes
    ensures InOrder(StatusProposal(k, code))
    ensures forall p | p in StatusProposal(k, code) :: p.Propose? && p.a.kind.AdmitStatus? && p.a.field == "" && p.a.value == code
  {}

  lemma TypeInOrder(k: Case, path: string)
    requires path in k.ep.fields
    ensures InOrder(TypeProposals(k, path))
    ensures forall p | p in TypeProposals(k, path) :: OfField(p) && FieldOf(p) == path && Part(p) < 2
  {
    hide DominantStats, Declared, Less;
  }

  lemma FieldInOrder(k: Case, path: string)
    requires path in k.ep.fields
    ensures InOrder(FieldProposals(k, path)) && forall p | p in FieldProposals(k, path) :: OfField(p) && FieldOf(p) == path
  {
    var f := k.ep.fields[path];
    TypeInOrder(k, path);
    ValuesInOrder(k, path, Sorted(f.values.Keys));
    hide InOrder, Less, TypeProposals, ValueProposals, PresenceRate;
    var types := TypeProposals(k, path);
    if !f.high { BothInOrder(types, ValueProposals(k, path, Sorted(f.values.Keys))); } else { assert types + [] == types; }
    NoneInOrder();
  }

  lemma NoneInOrder()
    ensures InOrder([])
  {}

  lemma {:induction false} FieldsInOrder(k: Case, paths: seq<string>)
    requires Ascending(paths) && forall p | p in paths :: p in k.ep.fields
    ensures InOrder(AllFields(k, paths)) && forall p | p in AllFields(k, paths) :: OfField(p) && FieldOf(p) in paths
  {
    NoneInOrder();
    if paths != [] {
      AscendingFront(paths);
      hide Less, Ascending, InOrder, FieldProposals;
      FieldsInOrder(k, Front(paths));
      assert forall x | x in Front(paths) :: x in paths;
      assert Last(paths) in paths;
      FieldInOrder(k, Last(paths));
      BothInOrder(AllFields(k, Front(paths)), FieldProposals(k, Last(paths)));
    }
  }

  /** Fields and values come in the order of their names, no proposal twice. */
  lemma ProposedInOrder(k: Case)
    ensures InOrder(EndpointProposals(k))
  {
    NoneInOrder();
    if Warm(k) {
      var start := if Declared(k).None? then [Propose(Make(k, AdmitEndpoint, "", "", "", 0.0, ""))] else [];
      var fields := AllFields(k, Sorted(k.ep.fields.Keys));
      assert InOrder(start);
      FieldsInOrder(k, Sorted(k.ep.fields.Keys));
      if Declared(k).Some? { StatusesInOrder(k, Sorted(k.ep.statusCodes.Keys)); }
      var rest := if Declared(k).Some? then StatusProposals(k, Sorted(k.ep.statusCodes.Keys)) else [];
      hide InOrder, Less, AllFields, StatusProposals, Declared;
      BothInOrder(start, fields);
      BothInOrder(start + fields, rest);
    }
  }

  /** Endpoint by endpoint in the order of their keys, and in that order for each. */
  lemma {:induction false} AllInOrder(c: Settings, d: Definition, ov: Overlay, preferSpec: bool, now: int, keys: seq<string>) returns (at: seq<nat>)
    requires forall e | e in keys :: e in ov.endpoints
    ensures var ps := AllProposals(c, d, ov, preferSpec, now, keys);
            && |at| == |ps|
            && (forall i | 0 <= i < |at| :: at[i] < |keys| && Wanted(Case(c, d, ov.endpoints[keys[at[i]]], preferSpec, now), ps[i]))
            && (forall i, j | 0 <= i < j < |at| :: at[i] < at[j] || (at[i] == at[j] && Before(ps[i], ps[j])))
  {
    if keys == [] {
      at := [];
    } else {
      hide EndpointProposals, Wanted, Before;
      var front, n := Front(keys), |keys| - 1;
      var k := Case(c, d, ov.endpoints[keys[n]], preferSpec, now);
      var some := AllInOrder(c, d, ov, preferSpec, now, front);
      ProposedInOrder(k);
      forall p | p in EndpointProposals(k) ensures Wanted(k, p) { ProposedIff(k, p); }
      at := some + seq(|EndpointProposals(k)|, _ => n);
      assert forall i | 0 <= i < n :: front[i] == keys[i];
    }
  }

  // ---- What reaches the journal ----

  /** An entry added is a proposal that was given its number, a contradiction added one proposed. */
  lemma {:induction false} TakenWereProposed(ov: Overlay, ps: seq<Proposal>, i: nat)
    requires forall x | x in ps && x.Propose? :: x.a.version == 0
    ensures |ov.admissions| <= i < |TakeAll(ov, ps).admissions| ==> Propose(TakeAll(ov, ps).admissions[i].(version := 0)) in ps
    ensures |ov.contradictions| <= i < |TakeAll(ov, ps).contradictions| ==> Contest(TakeAll(ov, ps).contradictions[i]) in ps
  {
    if ps != [] {
      hide KeyText, SameContest;
      var before, p := TakeAll(ov, Front(ps)), Last(ps);
      forall x ensures x in ps <==> x in Front(ps) || x == p { FrontAndLast(ps, x); }
      TakenWereProposed(ov, Front(ps), i);
      if p.Propose? { assert p.a.(version := before.version + 1).(version := 0) == p.a; }
    }
  }

  /** Whatever `Admit` adds is called for by some endpoint as it then is. */
  lemma AdmitsOnlyWanted(c: Settings, d: Definition, ov: Overlay, preferSpec: bool, now: int, i: nat)
    ensures var after := Admit(c, d, ov, preferSpec, now);
            && (|ov.admissions| <= i < |after.admissions| ==>
                  exists e | e in ov.endpoints ::
                    Wanted(Case(c, d, ov.endpoints[e], preferSpec, now), Propose(after.admissions[i].(version := 0))))
            && (|ov.contradictions| <= i < |after.contradictions| ==>
                  exists e | e in ov.endpoints ::
                    Wanted(Case(c, d, ov.endpoints[e], preferSpec, now), Contest(after.contradictions[i])))
  {
    var keys := Sorted(ov.endpoints.Keys);
    var ps := AllProposals(c, d, ov, preferSpec, now, keys);
    forall x | x in ps && x.Propose? ensures x.a.version == 0 {
      ProposedFor(c, d, ov, preferSpec, now, keys, x);
    }
    hide Wanted, AllProposals, TakeAll;
    TakenWereProposed(ov, ps, i);
    var after := TakeAll(ov, ps);
    if |ov.admissions| <= i < |after.admissions| {
      ProposedFor(c, d, ov, preferSpec, now, keys, Propose(after.admissions[i].(version := 0)));
    }
    if |ov.contradictions| <= i < |after.contradictions| {
      ProposedFor(c, d, ov, preferSpec, now, keys, Contest(after.contradictions[i]));
    }
  }

  /** Every contradiction proposed is on the list afterwards, or one of its place is, or the list is full. */
  lemma ContestsKept(c: Settings, d: Definition, ov: Overlay, preferSpec: bool, now: int, e: string, x: Contradiction)
    requires JournalOk(ov) && e in ov.endpoints && Wanted(Case(c, d, ov.endpoints[e], preferSpec, now), Contest(x))
    ensures var after := Admit(c, d, ov, preferSpec, now); Contested(after, x) || |after.contradictions| >= 200
  {
    hide Wanted, AllProposals, JournalOk, TakeAll;
    var keys := Sorted(ov.endpoints.Keys);
    var ps := AllProposals(c, d, ov, preferSpec, now, keys);
    assert e in keys;
    ProposedFor(c, d, ov, preferSpec, now, keys, Contest(x));
    var i :| 0 <= i < |ps| && ps[i] == Contest(x);
    AllSettled(ov, ps, i);
  }
}
