/** What the journal makes of records: entries lost to a shared key, and what is not pinned. */
module Admissions {
  import opened Contract
  import opened JournalKeys
  import opened Names
  import opened Observing
  import opened Text
  import opened Totals

  /** A specification that declares nothing. */
  const UNDECLARED: Definition := Declaring(map[])

  /** Templates and methods are taken as they come. */
  function Declaring(view: map<string, SpecEndpoint>): Definition { Definition(view, (verb, template) => template, name => name) }

  /** One sample is enough. */
  const EAGER: Settings := Settings(1, 0, 0.2)

  // ---- Records of one field ----

  function FieldAt(ep: ObservedEndpoint, p: string): ObservedField { if p in ep.fields then ep.fields[p] else NEW_FIELD }

  lemma SeesOne(ep: ObservedEndpoint, v: Visit)
    requires ep.fields.Keys <= {v.path} && !ep.latch
    ensures See(ep, v) == ep.(fields := map[v.path := SeeField(FieldAt(ep, v.path), v)])
  {
    hide SeeField;
    if v.path in ep.fields {
      assert ep.fields[v.path := SeeField(ep.fields[v.path], v)] == map[v.path := SeeField(ep.fields[v.path], v)];
    } else {
      assert ep.fields == map[];
    }
  }

  lemma AllSeen(ep: ObservedEndpoint, v: Visit)
    ensures SeeAll(ep, [v]) == See(ep, v) && RedactAll(See(ep, v), SeenPaths(ep, [v]), []) == See(ep, v)
  {
    hide See;
    assert Front([v]) == [];
  }

  lemma VisitsOne(ep: ObservedEndpoint, r: Record, v: Visit, now: int)
    requires r.visits == [v] && r.redactions == [] && ep.fields.Keys <= {v.path} && !ep.latch
    ensures var e, f := ObserveEndpoint(ep, r, now), SeeField(FieldAt(ep, v.path), v);
            && e.fields == map[v.path := f.(samples := f.samples + 1)] && !e.latch
            && e.samples == ep.samples + 1 && e.firstSeen == ep.firstSeen && e.verb == ep.verb
            && e.template == ep.template && e.statusClass == ep.statusClass
  {
    hide Bump, CodeText, SeeField, See, SeeAll, RedactAll, SeenPaths;
    var counted := ep.(samples := ep.samples + 1, lastSeen := now, statusCodes := Bump(ep.statusCodes, CodeText(r.status)));
    AllSeen(counted, v);
    SeesOne(counted, v);
    var e := See(counted, v);
    assert Sampled(e.fields) == map[v.path := e.fields[v.path].(samples := e.fields[v.path].samples + 1)];
  }

  // ---- What is proposed of an endpoint with one field ----

  lemma OneName(p: string)
    ensures Sorted({p}) == [p]
  {
    hide Less;
    assert Listing([p], {p});
    ListingUnique([p], Sorted({p}), {p});
  }

  lemma OneFieldOnly(k: Case, p: string)
    requires k.ep.fields.Keys == {p}
    ensures AllFields(k, Sorted(k.ep.fields.Keys)) == FieldProposals(k, p)
  {
    hide Sorted, FieldProposals;
    OneName(p);
    assert Front([p]) == [];
    assert AllFields(k, [p]) == AllFields(k, []) + FieldProposals(k, p);
  }

  lemma {:induction false} NoValues(k: Case, p: string, vs: seq<string>)
    requires Declared(k).None? && p in k.ep.fields && forall v | v in vs :: v in k.ep.fields[p].values
    ensures ValueProposals(k, p, vs) == []
  {
    if vs != [] { NoValues(k, p, Front(vs)); }
  }

  ghost function EndpointEntry(k: Case): Admission { Contract.Make(k, AdmitEndpoint, "", "", "", 0.0, "") }

  ghost function FieldEntry(k: Case, p: string): Admission
    requires p in k.ep.fields
  {
    var f := k.ep.fields[p];
    Contract.Make(k, AdmitField, p, "", DominantStats(f.types).typ, PresenceRate(f), EndpointKey(k.d, k.ep.verb, k.ep.template, k.ep.statusClass))
  }

  lemma OneProposal(k: Case, p: string)
    requires Declared(k).None? && p in k.ep.fields && PresenceRate(k.ep.fields[p]) >= k.c.presenceFloor
    ensures FieldProposals(k, p) == [Propose(FieldEntry(k, p))]
  {
    hide DominantStats, PresenceRate, Sorted, EndpointKey;
    NoValues(k, p, Sorted(k.ep.fields[p].values.Keys));
  }

  /** An endpoint not declared is proposed with its field. */
  lemma TwoProposals(k: Case, p: string)
    requires Declared(k).None? && Warm(k) && k.ep.fields.Keys == {p} && PresenceRate(k.ep.fields[p]) >= k.c.presenceFloor
    ensures EndpointProposals(k) == [Propose(EndpointEntry(k)), Propose(FieldEntry(k, p))]
  {
    hide PresenceRate, FieldProposals, AllFields, FieldEntry, Sorted, Declared, Warm;
    OneFieldOnly(k, p);
    OneProposal(k, p);
    assert EndpointProposals(k) == [Propose(EndpointEntry(k))] + [Propose(FieldEntry(k, p))] + [];
  }

  lemma OneType(typ: string, n: nat)
    requires n > 0
    ensures DominantStats(map[typ := n]) == Dominance(typ, n, n)
  {
    hide Sorted;
    var types: map<string, nat> := map[typ := n];
    OneName(typ);
    assert types.Keys == {typ};
    assert Front([typ]) == [];
    assert DominanceOf(types, []) == Dominance("", 0, 0);
    assert DominanceOf(types, [typ]) == Dominance(typ, n, n);
  }

  // ---- Two field entries of one key ----

  function CodeOf(c: string): int { if c == "2xx" then 200 else if c == "3xx" then 300 else if c == "4xx" then 400 else 500 }

  /** A record that the field entry may come from. */
  function RecordOf(a: Admission): Record { Record(a.verb, a.template, CodeOf(a.statusClass), [Visit(a.field, a.typ, None, true)], []) }

  function KeyTo(a: Admission): string { a.verb + "|" + a.template + "|" + a.statusClass }

  lemma RecordKey(a: Admission)
    requires IsClass(a.statusClass)
    ensures KeyOf(RecordOf(a)) == KeyTo(a) && StatusClass(CodeOf(a.statusClass)) == a.statusClass
  {}

  function EndpointOf(a: Admission): ObservedEndpoint { ObserveEndpoint(NewEndpoint(RecordOf(a), 0), RecordOf(a), 0) }

  function CaseOf(a: Admission): Case { Case(EAGER, UNDECLARED, EndpointOf(a), false, 0) }

  lemma EndpointOfIs(a: Admission)
    requires Real(a) && a.kind.AdmitField?
    ensures var e := EndpointOf(a);
            && e.fields.Keys == {a.field} && e.fields[a.field].types == map[a.typ := 1]
            && e.fields[a.field].seen == e.fields[a.field].samples == 1
            && e.samples == 1 && e.firstSeen == 0 && e.verb == a.verb && e.template == a.template && e.statusClass == a.statusClass
  {
    RecordKey(a);
    hide ObserveEndpoint, CodeOf;
    VisitsOne(NewEndpoint(RecordOf(a), 0), RecordOf(a), Visit(a.field, a.typ, None, true), 0);
    assert Bump(map[], a.typ) == map[a.typ := 1];
  }

  lemma CaseProposes(a: Admission)
    requires Real(a) && a.kind.AdmitField?
    ensures a.field in EndpointOf(a).fields && a.field in CaseOf(a).ep.fields
    ensures var k := CaseOf(a);
            && EndpointProposals(k) == [Propose(EndpointEntry(k)), Propose(FieldEntry(k, a.field))]
            && Parts(FieldEntry(k, a.field)) == Parts(a) && EndpointEntry(k).kind.AdmitEndpoint?
            && Real(EndpointEntry(k)) && EndpointEntry(k).verb == a.verb
            && EndpointEntry(k).template == a.template && EndpointEntry(k).statusClass == a.statusClass
  {
    hide EndpointOf, DominantStats, IsClass, EndpointProposals;
    EndpointOfIs(a);
    OneType(a.typ, 1);
    var k := CaseOf(a);
    assert PresenceRate(k.ep.fields[a.field]) == 1.0;
    TwoProposals(k, a.field);
  }

  /** Two names in one order or the other. */
  lemma TwoNames(p: string, q: string)
    requires p != q
    ensures Sorted({p, q}) == [p, q] || Sorted({p, q}) == [q, p]
  {
    hide Less;
    LessStrictTotal(p, q, p);
    if Less(p, q) {
      assert Listing([p, q], {p, q});
      ListingUnique([p, q], Sorted({p, q}), {p, q});
    } else {
      assert Listing([q, p], {p, q});
      ListingUnique([q, p], Sorted({p, q}), {p, q});
    }
  }

  lemma KeysDiffer(a: Admission, b: Admission)
    requires Real(a) && Real(b) && a.kind.AdmitField? && b.kind.AdmitField? && a.verb == b.verb
    requires KeyText(a) == KeyText(b) && Parts(a) != Parts(b)
    ensures KeyTo(a) != KeyTo(b) && (a.template != b.template || a.statusClass != b.statusClass)
  {
    SameKeyIs(a, b);
    hide KeyText, KindText, Split;
    if a.template == b.template && a.statusClass == b.statusClass {
      FieldsDiffer(a, b) by { SameBodies(Split(a.template, BAR), a.statusClass, Split(a.field, BAR), Split(a.value, BAR), Split(b.field, BAR), Split(b.value, BAR)); }
      assert false;
    }
    if KeyTo(a) == KeyTo(b) {
      assert KeyTo(a) == (a.verb + "|" + a.template + "|") + a.statusClass;
      assert KeyTo(b) == (b.verb + "|" + b.template + "|") + b.statusClass;
      SameEnds(a.verb, a.template, a.statusClass, b.template, b.statusClass);
      assert false;
    }
  }

  lemma SameBodies(t: seq<string>, c: string, f: seq<string>, w: seq<string>, f': seq<string>, w': seq<string>)
    requires t + [c] + f + w == t + [c] + f' + w'
    ensures f + w == f' + w'
  {
    var p, q := t + [c] + f + w, t + [c] + f' + w';
    assert p[|t| + 1..] == f + w && q[|t| + 1..] == f' + w';
  }

  lemma SameEnds(v: string, t: string, c: string, t': string, c': string)
    requires v + "|" + t + "|" + c == v + "|" + t' + "|" + c' && |c| == |c'|
    ensures t == t' && c == c'
  {
    var p, q := v + "|" + t + "|" + c, v + "|" + t' + "|" + c';
    assert |t| == |t'|;
    assert p[|v| + 1..|v| + 1 + |t|] == t && q[|v| + 1..|v| + 1 + |t|] == t';
    assert p[|p| - |c|..] == c && q[|q| - |c|..] == c';
  }

  /** Of four proposals the last has the key of the second. */
  lemma ThreeTaken(ov: Overlay, e: Admission, f: Admission, e': Admission, f': Admission)
    requires ov.admissions == [] && KeyText(f) == KeyText(f')
    requires KeyText(e) != KeyText(f) && KeyText(e) != KeyText(e') && KeyText(f) != KeyText(e')
    ensures var n := ov.version;
            TakeAll(ov, [Propose(e), Propose(f), Propose(e'), Propose(f')]).admissions
            == [e.(version := n + 1), f.(version := n + 2), e'.(version := n + 3)]
  {
    VersionSilent(e, ov.version + 1);
    VersionSilent(f, ov.version + 2);
    VersionSilent(e', ov.version + 3);
    hide KeyText;
    var x, y, z, w := Propose(e), Propose(f), Propose(e'), Propose(f');
    assert Front([x, y, z, w]) == [x, y, z] && Front([x, y, z]) == [x, y] && Front([x, y]) == [x] && Front([x]) == [];
    assert TakeAll(ov, []) == ov;
    var one := TakeAll(ov, [x]);
    assert one == Take(ov, x) && one.admissions == [e.(version := ov.version + 1)];
    var two := TakeAll(ov, [x, y]);
    assert two == Take(one, y) && !Journaled(one, KeyText(f));
    assert two.admissions == one.admissions + [f.(version := ov.version + 2)];
    var three := TakeAll(ov, [x, y, z]);
    assert three == Take(two, z) && !Journaled(two, KeyText(e'));
    assert three.admissions == two.admissions + [e'.(version := ov.version + 3)];
    assert three.admissions[1] == f.(version := ov.version + 2);
    assert Journaled(three, KeyText(f'));
  }

  /** The endpoints of the two records. */
  lemma TwoRecords(a: Admission, b: Admission)
    requires IsClass(a.statusClass) && IsClass(b.statusClass) && KeyTo(a) != KeyTo(b)
    ensures ObserveRun([Timed(RecordOf(a), 0), Timed(RecordOf(b), 0)]) == map[KeyTo(a) := EndpointOf(a), KeyTo(b) := EndpointOf(b)]
  {
    RecordKey(a);
    RecordKey(b);
    hide KeyOf, KeyTo, RecordOf, ObserveEndpoint;
    var s, t := Timed(RecordOf(a), 0), Timed(RecordOf(b), 0);
    assert Front([s, t]) == [s] && Front([s]) == [];
    var none: map<string, ObservedEndpoint> := map[];
    assert ObserveRun([]) == none;
    var one := ObserveRun([s]);
    assert one == none[KeyTo(a) := EndpointOf(a)];
    assert |one| < MAX_ENDPOINTS by { SizeUpdate(none, KeyTo(a), EndpointOf(a)); }
    assert ObserveRun([s, t]) == one[KeyTo(b) := EndpointOf(b)];
  }

  function Both(a: Admission, b: Admission): seq<Timed> { [Timed(RecordOf(a), 0), Timed(RecordOf(b), 0)] }

  lemma EntryKeys(e: Admission, a: Admission, e': Admission, b: Admission)
    requires Real(e) && Real(a) && Real(e') && e.verb == a.verb == e'.verb
    requires e.kind.AdmitEndpoint? && e'.kind.AdmitEndpoint? && a.kind.AdmitField? && KeyText(a) == KeyText(b)
    requires e.template != e'.template || e.statusClass != e'.statusClass
    ensures KeyText(e) != KeyText(a) && KeyText(e) != KeyText(e') && KeyText(a) != KeyText(e')
  {
    hide KeyText, Real, Body, Split;
    SameKeyIs(e, a);
    SameKeyIs(e', a);
    if KeyText(e) == KeyText(e') {
      assert Parts(e)[2] == e.template && Parts(e)[3] == e.statusClass && Parts(e')[2] == e'.template && Parts(e')[3] == e'.statusClass;
      TwinsRecut(e, e');
      assert false;
    }
  }

  lemma FieldKeys(a: Admission, b: Admission)
    requires Real(a) && a.kind.AdmitField? && Twins(a, b)
    ensures b.kind.AdmitField? && KeyTo(a) != KeyTo(b)
    ensures var e, e' := EndpointEntry(CaseOf(a)), EndpointEntry(CaseOf(b));
            e.kind.AdmitEndpoint? && e'.kind.AdmitEndpoint?
            && KeyText(e) != KeyText(a) && KeyText(e) != KeyText(e') && KeyText(a) != KeyText(e')
  {
    TwinsAre(a, b);
    hide *;
    KeysDiffer(a, b);
    CaseProposes(a);
    CaseProposes(b);
    EntryKeys(EndpointEntry(CaseOf(a)), a, EndpointEntry(CaseOf(b)), b);
  }

  lemma TwinsAre(a: Admission, b: Admission)
    requires Real(a) && Twins(a, b)
    ensures Real(b) && a.verb == b.verb && KeyText(a) == KeyText(b) && Parts(a) != Parts(b) && a.kind == b.kind
    ensures Twins(b, a) && IsClass(a.statusClass) && IsClass(b.statusClass)
  {
    SameKeyIs(a, b);
  }

  /** The four proposals made of the two endpoints, taken in this order. */
  lemma FourProposals(ov: Overlay, a: Admission, b: Admission)
    requires KeyTo(a) != KeyTo(b) && ov.endpoints == map[KeyTo(a) := EndpointOf(a), KeyTo(b) := EndpointOf(b)]
    ensures AllProposals(EAGER, UNDECLARED, ov, false, 0, [KeyTo(a), KeyTo(b)]) == EndpointProposals(CaseOf(a)) + EndpointProposals(CaseOf(b))
  {
    hide EndpointProposals, EndpointOf, KeyTo;
    assert Front([KeyTo(a), KeyTo(b)]) == [KeyTo(a)] && Front([KeyTo(a)]) == [];
    assert AllProposals(EAGER, UNDECLARED, ov, false, 0, [KeyTo(a)]) == [] + EndpointProposals(CaseOf(a));
  }

  /** What one `Admit` makes of them. */
  lemma OneOfTwo(ov: Overlay, a: Admission, b: Admission)
    requires Real(a) && a.kind.AdmitField? && Twins(a, b) && ov.admissions == []
    requires ov.endpoints == map[KeyTo(a) := EndpointOf(a), KeyTo(b) := EndpointOf(b)]
    ensures b.kind.AdmitField? && a.field in EndpointOf(a).fields && b.field in EndpointOf(b).fields
    ensures var ps := AllProposals(EAGER, UNDECLARED, ov, false, 0, [KeyTo(a), KeyTo(b)]);
            && Propose(FieldEntry(CaseOf(a), a.field)) in ps && Propose(FieldEntry(CaseOf(b), b.field)) in ps
            && |ps| == 4 && |TakeAll(ov, ps).admissions| == 3 && Held(TakeAll(ov, ps), a) && !Held(TakeAll(ov, ps), b)
  {
    hide *;
    TwinsAre(a, b);
    FieldKeys(a, b);
    CaseProposes(a);
    CaseProposes(b);
    var e, f, e', f' := EndpointEntry(CaseOf(a)), FieldEntry(CaseOf(a), a.field), EndpointEntry(CaseOf(b)), FieldEntry(CaseOf(b), b.field);
    PartsMakeKey(f, a);
    PartsMakeKey(f', b);
    FourProposals(ov, a, b);
    var ps := AllProposals(EAGER, UNDECLARED, ov, false, 0, [KeyTo(a), KeyTo(b)]);
    assert ps == [Propose(e), Propose(f), Propose(e'), Propose(f')];
    assert ps[1] == Propose(f) && ps[3] == Propose(f');
    ThreeTaken(ov, e, f, e', f');
    var after := TakeAll(ov, ps);
    HoldsSecond(after, e.(version := ov.version + 1), f.(version := ov.version + 2), e'.(version := ov.version + 3), f, a, b, e, e');
  }

  lemma HoldsSecond(ov: Overlay, e: Admission, f: Admission, e': Admission, f0: Admission, a: Admission, b: Admission, e0: Admission, e1: Admission)
    requires ov.admissions == [e, f, e'] && e == e0.(version := e.version) && f == f0.(version := f.version) && e' == e1.(version := e'.version)
    requires Parts(f0) == Parts(a) && Parts(a) != Parts(b) && e0.kind.AdmitEndpoint? && e1.kind.AdmitEndpoint? && b.kind.AdmitField?
    ensures Held(ov, a) && !Held(ov, b)
  {
    assert Parts(ov.admissions[1]) == Parts(a);
    assert Parts(e)[0] == "endpoint" && Parts(e')[0] == "endpoint" && Parts(b)[0] == "field";
  }

  /** Entries are lost: for every two field entries of one key there is a run from the empty
      overlay, of one record for each, after which an `Admit` proposes both and journals one. */
  lemma FieldLost(a: Admission, b: Admission) returns (rs: seq<Timed>, x: Admission, y: Admission)
    requires Real(a) && a.kind.AdmitField? && Twins(a, b)
    ensures Parts(x) == Parts(a) && Parts(y) == Parts(b)
    ensures var ov := Contract.After(EAGER, Contract.EMPTY, [Op.Observed(ObserveRun(rs))]);
            var ps := AllProposals(EAGER, UNDECLARED, ov, false, 0, Sorted(ov.endpoints.Keys));
            var after := Contract.Admit(EAGER, UNDECLARED, ov, false, 0);
            && Propose(x) in ps && Propose(y) in ps
            && |after.admissions| == |ps| - 1 && (Held(after, a) <==> !Held(after, b))
  {
    hide *;
    TwinsAre(a, b);
    FieldKeys(a, b);
    CaseProposes(a);
    CaseProposes(b);
    var ka, kb := KeyTo(a), KeyTo(b);
    rs, x, y := Both(a, b), FieldEntry(CaseOf(a), a.field), FieldEntry(CaseOf(b), b.field);
    BothIs(a, b);
    var m: map<string, ObservedEndpoint> := map[ka := EndpointOf(a), kb := EndpointOf(b)];
    Observes(m);
    var ov := Contract.After(EAGER, Contract.EMPTY, [Op.Observed(m)]);
    assert m.Keys == {ka, kb};
    TwoNames(ka, kb);
    AdmitIs(ov);
    if Sorted({ka, kb}) == [ka, kb] {
      OneOfTwo(ov, a, b);
    } else {
      assert m == map[kb := EndpointOf(b), ka := EndpointOf(a)];
      OneOfTwo(ov, b, a);
    }
  }

  lemma BothIs(a: Admission, b: Admission)
    requires IsClass(a.statusClass) && IsClass(b.statusClass) && KeyTo(a) != KeyTo(b)
    ensures ObserveRun(Both(a, b)) == map[KeyTo(a) := EndpointOf(a), KeyTo(b) := EndpointOf(b)]
  {
    hide KeyTo, EndpointOf, ObserveRun, RecordOf;
    TwoRecords(a, b);
  }

  lemma Observes(m: map<string, ObservedEndpoint>)
    ensures var ov := Contract.After(EAGER, Contract.EMPTY, [Op.Observed(m)]);
            ov == Contract.EMPTY.(endpoints := m) && ov.endpoints == m && ov.admissions == [] && ov.version == 0
  {
    assert Front([Op.Observed(m)]) == [];
    assert Contract.After(EAGER, Contract.EMPTY, []) == Contract.EMPTY;
  }

  lemma AdmitIs(ov: Overlay)
    ensures Contract.Admit(EAGER, UNDECLARED, ov, false, 0)
            == TakeAll(ov, AllProposals(EAGER, UNDECLARED, ov, false, 0, Sorted(ov.endpoints.Keys)))
  {}

  // ---- The same for entries of every kind that can share a key ----

  /** A field that has shown the type and both values often enough. */
  function Shown(a: Admission, b: Admission): ObservedField {
    ObservedField(10, 10, if a.typ == "" then map[] else map[a.typ := 10], map[a.value := 3, b.value := 3], false, map[])
  }

  /** A specification by which what was shown is new. */
  function SpecOf(a: Admission, b: Admission): SpecEndpoint {
    var other := a.value + b.value + "x";
    SpecEndpoint(if a.kind.AdmitType? then map[a.field := a.typ + "x", b.field := a.typ + "x"] else map[],
                 map[a.field := [other], b.field := [other]], {})
  }

  function DefinitionOf(a: Admission, b: Admission): Definition {
    if a.kind.AdmitField? then UNDECLARED
    else Declaring(map[a.verb + "|" + a.template := SpecOf(a, b), a.verb + "|" + b.template := SpecOf(a, b)])
  }

  function ShownAt(a: Admission, b: Admission, x: Admission): ObservedEndpoint {
    ObservedEndpoint(a.verb, x.template, x.statusClass, 1, 0, 0, map[a.field := Shown(a, b), b.field := Shown(a, b)], map[], false)
  }

  function ShownCase(a: Admission, b: Admission, x: Admission): Case {
    Case(EAGER, DefinitionOf(a, b), ShownAt(a, b, x), false, 0)
  }

  /** `x` is one of two entries that may collide. */
  predicate OneOf(a: Admission, b: Admission, x: Admission) {
    && Real(a) && Real(b) && (x == a || x == b) && a.kind == b.kind && a.verb == b.verb && a.typ == b.typ
    && !a.kind.AdmitEndpoint? && !a.kind.AdmitStatus?
  }

  lemma ShownDominant(a: Admission, b: Admission)
    ensures DominantStats(Shown(a, b).types) == if a.typ == "" then Dominance("", 0, 0) else Dominance(a.typ, 10, 10)
  {
    if a.typ != "" {
      OneType(a.typ, 10);
    } else {
      hide Less;
      var none: map<string, nat> := map[];
      assert Listing([], none.Keys);
      ListingUnique([], Sorted(none.Keys), none.Keys);
    }
  }

  lemma ShownDeclared(a: Admission, b: Admission, x: Admission)
    requires OneOf(a, b, x) && !a.kind.AdmitField?
    ensures Declared(ShownCase(a, b, x)) == Some(SpecOf(a, b))
  {
    hide SpecOf, Real;
  }

  lemma TypeShown(a: Admission, b: Admission, x: Admission) returns (e: Admission)
    requires OneOf(a, b, x) && !a.kind.AdmitValue?
    ensures Parts(e) == Parts(x) && Propose(e) in FieldProposals(ShownCase(a, b, x), x.field)
  {
    var k, p := ShownCase(a, b, x), x.field;
    ShownDominant(a, b);
    assert PresenceRate(k.ep.fields[p]) == 1.0;
    if a.kind.AdmitType? { ShownDeclared(a, b, x); }
    hide DominantStats, Sorted, ValueProposals, PresenceRate, IsClass, EndpointKey, Declared;
    e := if a.kind.AdmitField? then FieldEntry(k, p) else Contract.Make(k, AdmitType, p, "", x.typ, PresenceRate(k.ep.fields[p]), "");
    assert TypeProposals(k, p)[0] == Propose(e) by { FirstIs(a, b, x, e); }
    assert FieldProposals(k, p)[0] == Propose(e);
  }

  lemma FirstIs(a: Admission, b: Admission, x: Admission, e: Admission)
    requires OneOf(a, b, x) && !a.kind.AdmitValue?
    requires var k := ShownCase(a, b, x);
             e == if a.kind.AdmitField? then FieldEntry(k, x.field)
                  else Contract.Make(k, AdmitType, x.field, "", x.typ, PresenceRate(k.ep.fields[x.field]), "")
    ensures var ps := TypeProposals(ShownCase(a, b, x), x.field); |ps| > 0 && ps[0] == Propose(e)
  {
    ShownDominant(a, b);
    if a.kind.AdmitType? { ShownDeclared(a, b, x); }
    hide DominantStats, Sorted, PresenceRate, IsClass, EndpointKey, Declared;
  }

  lemma {:induction false} AmongValues(k: Case, p: string, vs: seq<string>, v: string)
    requires p in k.ep.fields && v in vs && (forall w | w in vs :: w in k.ep.fields[p].values) && NewValue(k, p, v)
    ensures Propose(Contract.Make(k, AdmitValue, p, v, "", PresenceRate(k.ep.fields[p]), "")) in ValueProposals(k, p, vs)
  {
    hide NewValue, PresenceRate;
    if v != Last(vs) {
      AmongValues(k, p, Front(vs), v);
    } else {
      assert ValueProposal(k, p, v) == [Propose(Contract.Make(k, AdmitValue, p, v, "", PresenceRate(k.ep.fields[p]), ""))];
    }
  }

  lemma ValueShown(a: Admission, b: Admission, x: Admission) returns (e: Admission)
    requires OneOf(a, b, x) && a.kind.AdmitValue?
    ensures Parts(e) == Parts(x) && Propose(e) in FieldProposals(ShownCase(a, b, x), x.field)
  {
    var k, p := ShownCase(a, b, x), x.field;
    ShownDeclared(a, b, x);
    assert PresenceRate(k.ep.fields[p]) == 1.0;
    assert |a.value + b.value + "x"| > |x.value|;
    assert NewValue(k, p, x.value);
    hide TypeProposals, PresenceRate, NewValue, IsClass, Declared;
    AmongValues(k, p, Sorted(k.ep.fields[p].values.Keys), x.value);
    e := Contract.Make(k, AdmitValue, p, x.value, "", PresenceRate(k.ep.fields[p]), "");
  }

  lemma {:induction false} AmongFields(k: Case, paths: seq<string>, p: string, e: Proposal)
    requires p in paths && (forall q | q in paths :: q in k.ep.fields) && e in FieldProposals(k, p)
    ensures e in AllFields(k, paths)
  {
    hide FieldProposals;
    if p != Last(paths) { AmongFields(k, Front(paths), p, e); }
  }

  lemma AmongEndpoint(k: Case, p: string, e: Proposal)
    requires Warm(k) && p in k.ep.fields && e in FieldProposals(k, p)
    ensures e in EndpointProposals(k)
  {
    hide FieldProposals, AllFields, StatusProposals, Declared, Warm;
    AmongFields(k, Sorted(k.ep.fields.Keys), p, e);
  }

  lemma {:induction false} AmongAll(c: Settings, d: Definition, ov: Overlay, now: int, keys: seq<string>, key: string, e: Proposal)
    requires key in keys && (forall x | x in keys :: x in ov.endpoints) && e in EndpointProposals(Case(c, d, ov.endpoints[key], false, now))
    ensures e in AllProposals(c, d, ov, false, now, keys)
  {
    hide EndpointProposals;
    if key != Last(keys) { AmongAll(c, d, ov, now, Front(keys), key, e); }
  }

  lemma ShownProposed(a: Admission, b: Admission, x: Admission, ov: Overlay, key: string) returns (e: Admission)
    requires OneOf(a, b, x) && key in ov.endpoints && ov.endpoints[key] == ShownAt(a, b, x)
    ensures Parts(e) == Parts(x)
    ensures Propose(e) in AllProposals(EAGER, DefinitionOf(a, b), ov, false, 0, Sorted(ov.endpoints.Keys))
  {
    var k := ShownCase(a, b, x);
    assert Warm(k) && x.field in k.ep.fields;
    hide *;
    if x.kind.AdmitValue? {
      KindsAgree(a, b, x);
      e := ValueShown(a, b, x);
    } else {
      KindsAgree(a, b, x);
      e := TypeShown(a, b, x);
    }
    AmongEndpoint(k, x.field, Propose(e));
    CaseIs(a, b, x);
    AmongAll(EAGER, DefinitionOf(a, b), ov, 0, Sorted(ov.endpoints.Keys), key, Propose(e));
  }

  lemma KindsAgree(a: Admission, b: Admission, x: Admission)
    requires OneOf(a, b, x)
    ensures a.kind == x.kind
  {}

  lemma CaseIs(a: Admission, b: Admission, x: Admission)
    ensures ShownCase(a, b, x) == Case(EAGER, DefinitionOf(a, b), ShownAt(a, b, x), false, 0)
  {}

  lemma TwinsCollide(a: Admission, b: Admission)
    requires Real(a) && Twins(a, b)
    ensures OneOf(a, b, a) && OneOf(a, b, b) && IsClass(a.statusClass) && IsClass(b.statusClass)
  {
    SameKeyIs(a, b);
    TwinsRecut(a, b);
  }

  lemma SameShown(a: Admission, b: Admission)
    requires IsClass(a.statusClass) && IsClass(b.statusClass) && a.verb == b.verb && KeyTo(a) == KeyTo(b)
    ensures ShownAt(a, b, a) == ShownAt(a, b, b)
  {
    assert KeyTo(a) == a.verb + "|" + a.template + "|" + a.statusClass;
    SameEnds(a.verb, a.template, a.statusClass, b.template, b.statusClass);
  }

  /** Of any two twins there are endpoints and a specification for which one `Admit` proposes
      both, and journals at most one. */
  lemma OneLost(a: Admission, b: Admission) returns (m: map<string, ObservedEndpoint>, d: Definition, x: Admission, y: Admission)
    requires Real(a) && Twins(a, b)
    ensures Parts(x) == Parts(a) && Parts(y) == Parts(b)
    ensures var ov := Contract.After(EAGER, Contract.EMPTY, [Op.Observed(m)]);
            var ps := AllProposals(EAGER, d, ov, false, 0, Sorted(ov.endpoints.Keys));
            var after := Contract.Admit(EAGER, d, ov, false, 0);
            Propose(x) in ps && Propose(y) in ps && !(Held(after, a) && Held(after, b))
    ensures BAR !in a.verb ==> AllPlausible(m)
  {
    TwinsCollide(a, b);
    var ka, kb := KeyTo(a), KeyTo(b);
    d, m := DefinitionOf(a, b), map[ka := ShownAt(a, b, a)][kb := ShownAt(a, b, b)];
    if ka == kb { SameShown(a, b); }
    assert m[ka] == ShownAt(a, b, a) && m[kb] == ShownAt(a, b, b);
    if BAR !in a.verb { ShownPlausible(a, b); }
    hide *;
    Observes(m);
    var ov := Contract.After(EAGER, Contract.EMPTY, [Op.Observed(m)]);
    x := ShownProposed(a, b, a, ov, ka);
    y := ShownProposed(a, b, b, ov, kb);
    var ops := [Op.Observed(m), Admitted(d, false, 0)];
    TwoOps(m, d);
    NeverBoth(EAGER, ops, a, b);
  }

  lemma TwoOps(m: map<string, ObservedEndpoint>, d: Definition)
    ensures Contract.After(EAGER, Contract.EMPTY, [Op.Observed(m), Admitted(d, false, 0)])
            == Contract.Admit(EAGER, d, Contract.After(EAGER, Contract.EMPTY, [Op.Observed(m)]), false, 0)
  {
    hide Contract.Admit;
    assert Front([Op.Observed(m), Admitted(d, false, 0)]) == [Op.Observed(m)];
  }

  lemma ShownPlausible(a: Admission, b: Admission)
    requires OneOf(a, b, a) && BAR !in a.verb
    ensures Plausible(ShownAt(a, b, a)) && Plausible(ShownAt(a, b, b))
  {}

  // ---- The exception to pinning ----

  function Says(text: string): Record { Record("GET", "/a", 200, [Visit("f", "string", Some(text), true)], []) }

  const KEY: string := "GET|/a|2xx"

  lemma KeyOfSays(text: string)
    ensures KeyOf(Says(text)) == KEY
  {}

  function Said(text: string, now: int): Timed { Timed(Says(text), now) }

  const FIRST: ObservedEndpoint := ObserveEndpoint(NewEndpoint(Says("x"), 0), Says("x"), 0)
  const SECOND: ObservedEndpoint := ObserveEndpoint(FIRST, Says("y"), 1)

  lemma TheEndpoints()
    ensures FIRST.fields.Keys == SECOND.fields.Keys == {"f"} && FIRST.samples == 1 && FIRST.firstSeen == 0
    ensures FIRST.verb == "GET" && FIRST.template == "/a" && FIRST.statusClass == "2xx"
    ensures FIRST.fields["f"].seen == FIRST.fields["f"].samples == 1 && !FIRST.fields["f"].high
    ensures FIRST.fields["f"].values.Keys == {"x"} && SECOND.fields["f"].values.Keys == {"x", "y"}
  {
    hide ObserveEndpoint;
    VisitsOne(NewEndpoint(Says("x"), 0), Says("x"), Visit("f", "string", Some("x"), true), 0);
    VisitsOne(FIRST, Says("y"), Visit("f", "string", Some("y"), true), 1);
    assert Bump(map[], "x") == map["x" := 1];
    var both := Bump(map["x" := 1], "y");
    assert both.Keys == {"x", "y"};
    SizeUpdate(map["x" := 1], "y", 1);
  }

  lemma TheRun()
    ensures ObserveRun([Said("x", 0)]) == map[KEY := FIRST] && ObserveRun([Said("x", 0), Said("y", 1)]) == map[KEY := SECOND]
  {
    hide ObserveEndpoint, KeyOf;
    KeyOfSays("x");
    KeyOfSays("y");
    assert Front([Said("x", 0)]) == [] && Front([Said("x", 0), Said("y", 1)]) == [Said("x", 0)];
    var none: map<string, ObservedEndpoint> := map[];
    assert ObserveRun([]) == none;
    assert ObserveRun([Said("x", 0)]) == none[KEY := FIRST] == map[KEY := FIRST];
    assert map[KEY := FIRST][KEY := SECOND] == map[KEY := SECOND];
  }

  const CASE: Case := Case(EAGER, UNDECLARED, FIRST, false, 0)

  /** The endpoint itself and its one field. */
  lemma TheProposals(ov: Overlay)
    requires ov.endpoints == map[KEY := FIRST]
    ensures "f" in FIRST.fields
    ensures AllProposals(EAGER, UNDECLARED, ov, false, 0, Sorted(ov.endpoints.Keys))
            == [Propose(EndpointEntry(CASE)), Propose(FieldEntry(CASE, "f"))]
  {
    hide ObserveEndpoint, EndpointProposals, EndpointEntry, FieldEntry, Sorted;
    TheEndpoints();
    OneName(KEY);
    assert ov.endpoints.Keys == {KEY};
    assert Front([KEY]) == [];
    assert PresenceRate(FIRST.fields["f"]) == 1.0;
    TwoProposals(CASE, "f");
    assert AllProposals(EAGER, UNDECLARED, ov, false, 0, [KEY]) == [] + EndpointProposals(CASE);
  }

  lemma TheJournal(ov: Overlay)
    requires ov.endpoints == map[KEY := FIRST] && ov.admissions == [] && ov.version == 0
    ensures "f" in FIRST.fields
    ensures var after := Contract.Admit(EAGER, UNDECLARED, ov, false, 0);
            after.endpoints == ov.endpoints && after.version == 2
            && after.admissions == [EndpointEntry(CASE).(version := 1), FieldEntry(CASE, "f").(version := 2)]
  {
    hide ObserveEndpoint, AllProposals, Sorted, DominantStats;
    TheProposals(ov);
    var a, b := EndpointEntry(CASE), FieldEntry(CASE, "f");
    assert KeyText(a)[0] != KeyText(b)[0];
    assert KeyText(a.(version := 1)) == KeyText(a);
    hide KeyText, EndpointEntry, FieldEntry;
    assert Front([Propose(a), Propose(b)]) == [Propose(a)] && Front([Propose(a)]) == [];
    assert TakeAll(ov, []) == ov;
    var one := TakeAll(ov, [Propose(a)]);
    assert one.admissions == [a.(version := 1)];
  }

  lemma LiveField(ov: Overlay, ep: ObservedEndpoint)
    requires "f" in FIRST.fields && ov.endpoints == map[KEY := ep] && "f" in ep.fields
    requires ov.admissions == [EndpointEntry(CASE).(version := 1), FieldEntry(CASE, "f").(version := 2)]
    ensures var k, fields := (EndpointKeyOf(UNDECLARED, FIRST.verb, FIRST.template), "f"), ResolveAt(UNDECLARED, ov, 2).addedFields;
            k in fields && fields[k].values == ep.fields["f"].values.Keys
  {
    hide ObserveEndpoint, EndpointKeyOf, DominantStats;
    TheEndpoints();
    assert EndpointKey(UNDECLARED, "GET", "/a", "2xx") == KEY;
    var a, b := EndpointEntry(CASE).(version := 1), FieldEntry(CASE, "f").(version := 2);
    assert Front([a, b]) == [a] && Front([a]) == [];
    assert ResolveAll(UNDECLARED, ov, 2, [a]) == ResolveOne(UNDECLARED, ov, ResolveAll(UNDECLARED, ov, 2, []), a);
    assert ResolveAll(UNDECLARED, ov, 2, [a, b]) == ResolveOne(UNDECLARED, ov, ResolveAll(UNDECLARED, ov, 2, [a]), b);
  }

  /** The values of an added field are read live: after one record and an `Admit`, another record
      changes what is resolved at the version reached. */
  lemma ValuesNotPinned() returns (rs: seq<Timed>, t: Timed, ops: seq<Op>, more: seq<Op>)
    ensures ops == [Op.Observed(ObserveRun(rs)), Admitted(UNDECLARED, false, 0)] && more == [Op.Observed(ObserveRun(rs + [t]))]
    ensures var ov := Contract.After(EAGER, Contract.EMPTY, ops);
            ResolveAt(UNDECLARED, Contract.After(EAGER, ov, more), ov.version) != ResolveAt(UNDECLARED, ov, ov.version)
  {
    hide ObserveEndpoint, ObserveRun, ResolveAt, AllProposals, EndpointKeyOf, EndpointEntry, FieldEntry, Contract.Admit;
    rs, t := [Said("x", 0)], Said("y", 1);
    TheRun();
    TheEndpoints();
    assert rs + [t] == [Said("x", 0), Said("y", 1)];
    ops, more := [Op.Observed(ObserveRun(rs)), Admitted(UNDECLARED, false, 0)], [Op.Observed(ObserveRun(rs + [t]))];
    assert Front(ops) == [ops[0]] && Front([ops[0]]) == [] && Front(more) == [];
    var seen := Contract.EMPTY.(endpoints := map[KEY := FIRST]);
    assert Contract.After(EAGER, Contract.EMPTY, []) == Contract.EMPTY && Last([ops[0]]) == ops[0];
    assert Contract.After(EAGER, Contract.EMPTY, [ops[0]]) == seen;
    TheJournal(seen);
    var ov := Contract.After(EAGER, Contract.EMPTY, ops);
    assert ov == Contract.Admit(EAGER, UNDECLARED, seen, false, 0);
    var later := Contract.After(EAGER, ov, more);
    assert Contract.After(EAGER, ov, []) == ov && Last(more) == more[0];
    assert later == ov.(endpoints := map[KEY := SECOND]);
    LiveField(ov, FIRST);
    LiveField(later, SECOND);
  }
}
