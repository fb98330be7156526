/** The traffic overlay: a journal of admissions, the contradictions beside it, and the
    effective contract read from it at a version. */
module Contract {
  import opened Names
  import opened Text

  const TYPE_SUSTAIN_RATE: real := 0.98
  const TYPE_MIN_SAMPLES: nat := 10
  const VALUE_MIN_COUNT: nat := 3
  const MAX_CONTRADICTIONS: nat := 200
  const MAX_ADMISSIONS: nat := 5000

  datatype ObservedField = ObservedField(
    seen: nat, samples: nat, types: map<string, nat>, values: map<string, nat>, high: bool, redactions: map<string, nat>)

  datatype ObservedEndpoint = ObservedEndpoint(
    verb: string, template: string, statusClass: string, samples: nat, firstSeen: int, lastSeen: int,
    fields: map<string, ObservedField>, statusCodes: map<string, nat>, latch: bool)

  datatype Kind = AdmitField | AdmitValue | AdmitType | AdmitStatus | AdmitEndpoint

  datatype Admission = Admission(
    version: int, kind: Kind, verb: string, template: string, statusClass: string,
    field: string, value: string, typ: string, presence: real, at: int, sourceKey: string)

  datatype Contradiction = Contradiction(
    verb: string, template: string, statusClass: string, field: string,
    claim: string, observed: string, rate: real, firstSeen: int, winner: string)

  datatype Overlay = Overlay(
    version: int, endpoints: map<string, ObservedEndpoint>,
    admissions: seq<Admission>, contradictions: seq<Contradiction>)

  datatype Settings = Settings(minSamples: int, minAge: int, presenceFloor: real)

  /** What the specification declares of an endpoint. */
  datatype SpecEndpoint = SpecEndpoint(types: map<string, string>, enums: map<string, seq<string>>, statuses: set<string>)

  /** The specification as the overlay sees it; matching templates and upper-casing are left open. */
  datatype Definition = Definition(
    view: map<string, SpecEndpoint>, canonical: (string, string) -> string, upper: string -> string)

  function KindText(k: Kind): string {
    match k
    case AdmitField => "field"
    case AdmitValue => "value"
    case AdmitType => "type"
    case AdmitStatus => "status"
    case AdmitEndpoint => "endpoint"
  }

  /** `admissionKeyOf`: what makes two admissions the same. */
  function KeyText(a: Admission): string {
    KindText(a.kind) + "|" + a.verb + "|" + a.template + "|" + a.statusClass + "|" + a.field + "|" + a.value + "|" + a.typ
  }

  function EndpointKeyOf(d: Definition, verb: string, template: string): string { d.upper(verb) + "|" + template }

  function EndpointKey(d: Definition, verb: string, template: string, statusClass: string): string {
    d.upper(verb) + "|" + template + "|" + statusClass
  }

  // ---- What an overlay would admit ----

  datatype Proposal = Propose(a: Admission) | Contest(x: Contradiction)

  function PresenceRate(f: ObservedField): real { if f.samples == 0 then 0.0 else f.seen as real / f.samples as real }

  datatype Dominance = Dominance(typ: string, best: nat, total: nat)

  /** Strictly more than any earlier name wins. */
  function DominanceOf(types: map<string, nat>, names: seq<string>): Dominance
    requires forall t | t in names :: t in types
  {
    if names == [] then Dominance("", 0, 0)
    else
      var d, t := DominanceOf(types, Front(names)), Last(names);
      if types[t] > d.best then Dominance(t, types[t], d.total + types[t]) else d.(total := d.total + types[t])
  }

  ghost function DominantStats(types: map<string, nat>): Dominance {
    var d := DominanceOf(types, Sorted(types.Keys));
    if d.total == 0 then Dominance("", 0, 0) else d
  }

  function Share(d: Dominance): real { if d.total == 0 then 0.0 else d.best as real / d.total as real }

  /** What a proposal is made from: the endpoint, its canonical template, the declared endpoint
      if there is one, the preference, the clock. */
  datatype Case = Case(c: Settings, d: Definition, ep: ObservedEndpoint, preferSpec: bool, now: int)

  function TemplateOf(k: Case): string { k.d.canonical(k.ep.verb, k.ep.template) }

  function Declared(k: Case): Option<SpecEndpoint> {
    var key := EndpointKeyOf(k.d, k.ep.verb, TemplateOf(k));
    if key in k.d.view then Some(k.d.view[key]) else None
  }

  function DeclaredType(k: Case, path: string): string {
    if Declared(k).Some? && path in Declared(k).value.types then Declared(k).value.types[path] else ""
  }

  function DeclaredValues(k: Case, path: string): seq<string> {
    if Declared(k).Some? && path in Declared(k).value.enums then Declared(k).value.enums[path] else []
  }

  function Make(k: Case, kind: Kind, field: string, value: string, typ: string, presence: real, sourceKey: string): Admission {
    Admission(0, kind, k.ep.verb, TemplateOf(k), k.ep.statusClass, field, value, typ, presence, k.now, sourceKey)
  }

  function Contradict(k: Case, path: string, d: Dominance, winner: string): Contradiction {
    Contradiction(k.ep.verb, TemplateOf(k), k.ep.statusClass, path, DeclaredType(k, path), d.typ, Share(d), k.now, winner)
  }

  predicate Sustained(d: Dominance) { Share(d) >= TYPE_SUSTAIN_RATE && d.total >= TYPE_MIN_SAMPLES }

  /** An undeclared field is admitted; a sustained different type wins unless the spec is preferred. */
  ghost function TypeProposals(k: Case, path: string): seq<Proposal>
    requires path in k.ep.fields
  {
    var f := k.ep.fields[path];
    var d := DominantStats(f.types);
    if DeclaredType(k, path) == "" then
      [Propose(Make(k, AdmitField, path, "", d.typ, PresenceRate(f), EndpointKey(k.d, k.ep.verb, k.ep.template, k.ep.statusClass)))]
    else if d.typ != "" && d.typ != DeclaredType(k, path) then
      if !k.preferSpec && Sustained(d) then
        [Propose(Make(k, AdmitType, path, "", d.typ, PresenceRate(f), "")), Contest(Contradict(k, path, d, "traffic"))]
      else [Contest(Contradict(k, path, d, "spec"))]
    else []
  }

  predicate NewValue(k: Case, path: string, v: string)
    requires path in k.ep.fields && v in k.ep.fields[path].values
  {
    k.ep.fields[path].values[v] >= VALUE_MIN_COUNT && v !in DeclaredValues(k, path) && |DeclaredValues(k, path)| > 0
  }

  function ValueProposal(k: Case, path: string, v: string): seq<Proposal>
    requires path in k.ep.fields && v in k.ep.fields[path].values
  {
    if NewValue(k, path, v) then [Propose(Make(k, AdmitValue, path, v, "", PresenceRate(k.ep.fields[path]), ""))] else []
  }

  function ValueProposals(k: Case, path: string, vs: seq<string>): seq<Proposal>
    requires path in k.ep.fields && forall v | v in vs :: v in k.ep.fields[path].values
  {
    if vs == [] then [] else ValueProposals(k, path, Front(vs)) + ValueProposal(k, path, Last(vs))
  }

  ghost function FieldProposals(k: Case, path: string): seq<Proposal>
    requires path in k.ep.fields
  {
    var f := k.ep.fields[path];
    if PresenceRate(f) < k.c.presenceFloor then []
    else TypeProposals(k, path) + if f.high then [] else ValueProposals(k, path, Sorted(f.values.Keys))
  }

  ghost function AllFields(k: Case, paths: seq<string>): seq<Proposal>
    requires forall p | p in paths :: p in k.ep.fields
  {
    if paths == [] then [] else AllFields(k, Front(paths)) + FieldProposals(k, Last(paths))
  }

  function StatusProposal(k: Case, code: string): seq<Proposal>
    requires Declared(k).Some? && code in k.ep.statusCodes
  {
    if k.ep.statusCodes[code] >= VALUE_MIN_COUNT && code !in Declared(k).value.statuses
    then [Propose(Make(k, AdmitStatus, "", code, "", 0.0, ""))] else []
  }

  function StatusProposals(k: Case, codes: seq<string>): seq<Proposal>
    requires Declared(k).Some? && forall c | c in codes :: c in k.ep.statusCodes
  {
    if codes == [] then [] else StatusProposals(k, Front(codes)) + StatusProposal(k, Last(codes))
  }

  predicate Warm(k: Case) { k.ep.samples >= k.c.minSamples && k.now - k.ep.firstSeen >= k.c.minAge }

  ghost function EndpointProposals(k: Case): seq<Proposal> {
    if !Warm(k) then []
    else
      (if Declared(k).None? then [Propose(Make(k, AdmitEndpoint, "", "", "", 0.0, ""))] else [])
      + AllFields(k, Sorted(k.ep.fields.Keys))
      + if Declared(k).Some? then StatusProposals(k, Sorted(k.ep.statusCodes.Keys)) else []
  }

  ghost function AllProposals(c: Settings, d: Definition, ov: Overlay, preferSpec: bool, now: int, keys: seq<string>): seq<Proposal>
    requires forall e | e in keys :: e in ov.endpoints
  {
    if keys == [] then []
    else AllProposals(c, d, ov, preferSpec, now, Front(keys)) + EndpointProposals(Case(c, d, ov.endpoints[Last(keys)], preferSpec, now))
  }

  // ---- Admitting ----

  predicate Journaled(ov: Overlay, key: string) { exists i | 0 <= i < |ov.admissions| :: KeyText(ov.admissions[i]) == key }

  predicate SameContest(x: Contradiction, y: Contradiction) {
    x.verb == y.verb && x.template == y.template && x.statusClass == y.statusClass && x.field == y.field
  }

  predicate Contested(ov: Overlay, x: Contradiction) {
    exists i | 0 <= i < |ov.contradictions| :: SameContest(ov.contradictions[i], x)
  }

  function Take(ov: Overlay, p: Proposal): Overlay {
    match p
    case Propose(a) =>
      if Journaled(ov, KeyText(a)) || |ov.admissions| >= MAX_ADMISSIONS then ov
      else ov.(version := ov.version + 1, admissions := ov.admissions + [a.(version := ov.version + 1)])
    case Contest(x) =>
      if Contested(ov, x) || |ov.contradictions| >= MAX_CONTRADICTIONS then ov
      else ov.(contradictions := ov.contradictions + [x])
  }

  function TakeAll(ov: Overlay, ps: seq<Proposal>): Overlay {
    if ps == [] then ov else Take(TakeAll(ov, Front(ps)), Last(ps))
  }

  ghost function Admit(c: Settings, d: Definition, ov: Overlay, preferSpec: bool, now: int): Overlay {
    TakeAll(ov, AllProposals(c, d, ov, preferSpec, now, Sorted(ov.endpoints.Keys)))
  }

  // ---- The journal ----

  /** Versions count the journal, no admission occurs twice, and neither list outgrows its cap. */
  ghost predicate JournalOk(ov: Overlay) {
    && ov.version == |ov.admissions| <= MAX_ADMISSIONS
    && (forall i | 0 <= i < |ov.admissions| :: ov.admissions[i].version == i + 1)
    && (forall i, j | 0 <= i < j < |ov.admissions| :: KeyText(ov.admissions[i]) != KeyText(ov.admissions[j]))
    && |ov.contradictions| <= MAX_CONTRADICTIONS
    && (forall i, j | 0 <= i < j < |ov.contradictions| :: !SameContest(ov.contradictions[i], ov.contradictions[j]))
  }

  /** Later journals only add at the end. */
  ghost predicate Extends(later: Overlay, ov: Overlay) {
    |ov.admissions| <= |later.admissions| && later.admissions[..|ov.admissions|] == ov.admissions
    && |ov.contradictions| <= |later.contradictions| && later.contradictions[..|ov.contradictions|] == ov.contradictions
  }

  lemma VersionSilent(a: Admission, n: int)
    ensures KeyText(a.(version := n)) == KeyText(a)
  {}

  lemma TakeKeeps(ov: Overlay, p: Proposal)
    requires JournalOk(ov)
    ensures JournalOk(Take(ov, p)) && Extends(Take(ov, p), ov) && Take(ov, p).endpoints == ov.endpoints
  {
    if p.Propose? { VersionSilent(p.a, ov.version + 1); }
    hide KeyText;
    assert ov.admissions[..|ov.admissions|] == ov.admissions && ov.contradictions[..|ov.contradictions|] == ov.contradictions;
  }

  lemma ExtendsTransitive(a: Overlay, b: Overlay, c: Overlay)
    requires Extends(a, b) && Extends(b, c)
    ensures Extends(a, c)
  {}

  lemma {:induction false} TakeAllKeeps(ov: Overlay, ps: seq<Proposal>)
    requires JournalOk(ov)
    ensures JournalOk(TakeAll(ov, ps)) && Extends(TakeAll(ov, ps), ov) && TakeAll(ov, ps).endpoints == ov.endpoints
  {
    if ps == [] {
      assert ov.admissions[..|ov.admissions|] == ov.admissions && ov.contradictions[..|ov.contradictions|] == ov.contradictions;
    } else {
      hide JournalOk, Extends, Take;
      TakeAllKeeps(ov, Front(ps));
      TakeKeeps(TakeAll(ov, Front(ps)), Last(ps));
      ExtendsTransitive(TakeAll(ov, ps), TakeAll(ov, Front(ps)), ov);
    }
  }

  /** A proposal once taken, or refused, stays so. */
  lemma TakenStays(ov: Overlay, later: Overlay, p: Proposal)
    requires Take(ov, p) == ov && Extends(later, ov)
    ensures Take(later, p) == later
  {}

  lemma TakenOnce(ov: Overlay, p: Proposal)
    ensures Take(Take(ov, p), p) == Take(ov, p)
  {
    var o := Take(ov, p);
    if o != ov {
      match p
      case Propose(a) => assert KeyText(Last(o.admissions)) == KeyText(a);
      case Contest(x) => assert SameContest(Last(o.contradictions), x);
    }
  }

  lemma {:induction false} AllSettled(ov: Overlay, ps: seq<Proposal>, i: nat)
    requires JournalOk(ov) && i < |ps|
    ensures Take(TakeAll(ov, ps), ps[i]) == TakeAll(ov, ps)
  {
    hide Take, JournalOk, Extends;
    var before := TakeAll(ov, Front(ps));
    if i == |ps| - 1 {
      TakenOnce(before, Last(ps));
    } else {
      AllSettled(ov, Front(ps), i);
      TakeAllKeeps(ov, Front(ps));
      TakeKeeps(before, Last(ps));
      TakenStays(before, TakeAll(ov, ps), ps[i]);
    }
  }

  lemma {:induction false} SettledTakesNothing(ov: Overlay, ps: seq<Proposal>)
    requires forall i | 0 <= i < |ps| :: Take(ov, ps[i]) == ov
    ensures TakeAll(ov, ps) == ov
  {
    if ps != [] {
      hide Take;
      SettledTakesNothing(ov, Front(ps));
      assert Last(ps) == ps[|ps| - 1];
    }
  }

  lemma {:induction false} SameProposals(c: Settings, d: Definition, a: Overlay, b: Overlay, preferSpec: bool, now: int, keys: seq<string>)
    requires a.endpoints == b.endpoints && forall e | e in keys :: e in a.endpoints
    ensures AllProposals(c, d, a, preferSpec, now, keys) == AllProposals(c, d, b, preferSpec, now, keys)
  {
    if keys != [] {
      hide EndpointProposals;
      SameProposals(c, d, a, b, preferSpec, now, Front(keys));
    }
  }

  /** A second `Admit` at the same time changes nothing. */
  lemma AdmitTwice(c: Settings, d: Definition, ov: Overlay, preferSpec: bool, now: int)
    requires JournalOk(ov)
    ensures Admit(c, d, Admit(c, d, ov, preferSpec, now), preferSpec, now) == Admit(c, d, ov, preferSpec, now)
  {
    hide AllProposals, Take, JournalOk, Extends;
    var keys := Sorted(ov.endpoints.Keys);
    var ps := AllProposals(c, d, ov, preferSpec, now, keys);
    var after := TakeAll(ov, ps);
    TakeAllKeeps(ov, ps);
    SameProposals(c, d, ov, after, preferSpec, now, keys);
    forall i | 0 <= i < |ps| ensures Take(after, ps[i]) == after { AllSettled(ov, ps, i); }
    SettledTakesNothing(after, ps);
  }

  // ---- Resolving at a version ----

  datatype FieldSpec = FieldSpec(typ: string, presence: real, version: int, values: set<string>, since: int)

  /** `eff` as read from the journal, with the values of each added field as a set. */
  datatype Effective = Effective(
    version: int,
    addedFields: map<(string, string), FieldSpec>,
    valueUnions: map<(string, string), seq<string>>,
    typeOverrides: map<(string, string), string>,
    addedStatuses: map<string, seq<string>>,
    addedEndpoints: map<string, string>,
    contradictions: seq<Contradiction>)

  function Append<K>(m: map<K, seq<string>>, k: K, v: string): map<K, seq<string>> {
    m[k := (if k in m then m[k] else []) + [v]]
  }

  /** Read from the live endpoint, not from the journal. */
  function LiveValues(d: Definition, ov: Overlay, a: Admission): set<string> {
    var key := if a.sourceKey == "" then EndpointKey(d, a.verb, a.template, a.statusClass) else a.sourceKey;
    if key in ov.endpoints && a.field in ov.endpoints[key].fields then ov.endpoints[key].fields[a.field].values.Keys else {}
  }

  function ResolveOne(d: Definition, ov: Overlay, eff: Effective, a: Admission): Effective {
    var ek := EndpointKeyOf(d, a.verb, a.template);
    if a.version > eff.version then eff
    else
      match a.kind
      case AdmitField =>
        eff.(addedFields := eff.addedFields[(ek, a.field) := FieldSpec(a.typ, a.presence, a.version, LiveValues(d, ov, a), a.at)])
      case AdmitValue => eff.(valueUnions := Append(eff.valueUnions, (ek, a.field), a.value))
      case AdmitType => eff.(typeOverrides := eff.typeOverrides[(ek, a.field) := a.typ])
      case AdmitStatus => eff.(addedStatuses := Append(eff.addedStatuses, ek, a.value))
      case AdmitEndpoint =>
        eff.(addedEndpoints := eff.addedEndpoints[EndpointKey(d, a.verb, a.template, a.statusClass) := a.statusClass])
  }

  function ResolveAll(d: Definition, ov: Overlay, version: int, journal: seq<Admission>): Effective {
    if journal == [] then Effective(version, map[], map[], map[], map[], map[], ov.contradictions)
    else ResolveOne(d, ov, ResolveAll(d, ov, version, Front(journal)), Last(journal))
  }

  function ResolveAt(d: Definition, ov: Overlay, version: int): Effective { ResolveAll(d, ov, version, ov.admissions) }

  function PinnedFields(m: map<(string, string), FieldSpec>): map<(string, string), FieldSpec> {
    map k | k in m :: m[k].(values := {})
  }

  /** Everything but the live values and the contradictions. */
  function Pinned(eff: Effective): Effective { eff.(addedFields := PinnedFields(eff.addedFields), contradictions := []) }

  lemma ResolveOnePinned(d: Definition, ov: Overlay, later: Overlay, x: Effective, y: Effective, a: Admission)
    requires Pinned(x) == Pinned(y)
    ensures Pinned(ResolveOne(d, ov, x, a)) == Pinned(ResolveOne(d, later, y, a))
  {
    hide EndpointKey, EndpointKeyOf, LiveValues, Append, PinnedFields;
    if a.version <= x.version {
      if a.kind.AdmitField? { FieldPinned(d, ov, later, x, y, a); }
      else if a.kind.AdmitValue? {}
      else if a.kind.AdmitType? {}
      else if a.kind.AdmitStatus? {}
    }
  }

  lemma FieldPinned(d: Definition, ov: Overlay, later: Overlay, x: Effective, y: Effective, a: Admission)
    requires Pinned(x) == Pinned(y) && a.kind.AdmitField? && a.version <= x.version
    ensures Pinned(ResolveOne(d, ov, x, a)) == Pinned(ResolveOne(d, later, y, a))
  {
    hide EndpointKey, EndpointKeyOf, LiveValues, PinnedFields;
    var k := (EndpointKeyOf(d, a.verb, a.template), a.field);
    var f := FieldSpec(a.typ, a.presence, a.version, {}, a.at);
    PinnedUpdate(x.addedFields, k, f.(values := LiveValues(d, ov, a)));
    PinnedUpdate(y.addedFields, k, f.(values := LiveValues(d, later, a)));
  }

  lemma PinnedUpdate(m: map<(string, string), FieldSpec>, k: (string, string), f: FieldSpec)
    ensures PinnedFields(m[k := f]) == PinnedFields(m)[k := f.(values := {})]
  {}

  lemma {:induction false} ResolveAllPinned(d: Definition, ov: Overlay, later: Overlay, version: int, journal: seq<Admission>)
    ensures Pinned(ResolveAll(d, ov, version, journal)) == Pinned(ResolveAll(d, later, version, journal))
    ensures ResolveAll(d, ov, version, journal).version == version
  {
    if journal != [] {
      hide Pinned, ResolveOne;
      ResolveAllPinned(d, ov, later, version, Front(journal));
      var x, y := ResolveAll(d, ov, version, Front(journal)), ResolveAll(d, later, version, Front(journal));
      ResolveOnePinned(d, ov, later, x, y, Last(journal));
      KeepsVersion(d, ov, x, Last(journal));
    }
  }

  lemma KeepsVersion(d: Definition, ov: Overlay, x: Effective, a: Admission)
    ensures ResolveOne(d, ov, x, a).version == x.version
  {
    hide EndpointKey, EndpointKeyOf, LiveValues, Append;
  }

  lemma {:induction false} LaterIgnored(d: Definition, ov: Overlay, version: int, journal: seq<Admission>, n: nat)
    requires n <= |journal| && forall i | n <= i < |journal| :: journal[i].version > version
    ensures ResolveAll(d, ov, version, journal) == ResolveAll(d, ov, version, journal[..n])
  {
    if n == |journal| {
      assert journal[..n] == journal;
    } else {
      LaterIgnored(d, ov, version, Front(journal), n);
      assert Front(journal)[..n] == journal[..n] && Last(journal) == journal[|journal| - 1];
      ResolveAllPinned(d, ov, ov, version, Front(journal));
    }
  }

  /** What is resolved at a version is what its first entries say: later entries do not count. */
  lemma ResolveReadsPrefix(d: Definition, ov: Overlay, version: nat)
    requires JournalOk(ov) && version <= ov.version
    ensures ResolveAt(d, ov, version) == ResolveAll(d, ov, version, ov.admissions[..version])
  {
    LaterIgnored(d, ov, version, ov.admissions, version);
  }

  /** The contract at a past version never changes, whatever is admitted or observed later,
      save the live values of added fields and the list of contradictions. */
  lemma ResolvePinned(d: Definition, ov: Overlay, later: Overlay, version: nat)
    requires JournalOk(ov) && JournalOk(later) && Extends(later, ov) && version <= ov.version
    ensures Pinned(ResolveAt(d, later, version)) == Pinned(ResolveAt(d, ov, version))
  {
    hide Pinned, ResolveAt, ResolveAll;
    ResolveReadsPrefix(d, ov, version);
    ResolveReadsPrefix(d, later, version);
    assert later.admissions[..version] == later.admissions[..|ov.admissions|][..version];
    ResolveAllPinned(d, ov, later, version, ov.admissions[..version]);
  }

  // ---- When the whole of it is unchanged ----

  function Place(d: Definition, a: Admission): (string, string) { (EndpointKeyOf(d, a.verb, a.template), a.field) }

  /** A field entry that no later one of the same place replaces. */
  predicate Stands(d: Definition, journal: seq<Admission>, i: nat) {
    && i < |journal| && journal[i].kind.AdmitField?
    && forall j | i < j < |journal| && journal[j].kind.AdmitField? :: Place(d, journal[j]) != Place(d, journal[i])
  }

  /** Every field is that of the entry that stands, with its live values. */
  ghost predicate FieldsOf(d: Definition, ov: Overlay, m: map<(string, string), FieldSpec>, journal: seq<Admission>) {
    && (forall i: nat | Stands(d, journal, i) :: Place(d, journal[i]) in m && m[Place(d, journal[i])].values == LiveValues(d, ov, journal[i]))
    && (forall k | k in m :: exists i: nat :: Stands(d, journal, i) && Place(d, journal[i]) == k)
  }

  lemma StandsBefore(d: Definition, journal: seq<Admission>, i: nat)
    requires Stands(d, journal, i) && i < |journal| - 1
    ensures Stands(d, Front(journal), i) && Front(journal)[i] == journal[i]
    ensures Last(journal).kind.AdmitField? ==> Place(d, journal[i]) != Place(d, Last(journal))
  {
    hide Place;
  }

  lemma StandsAfter(d: Definition, journal: seq<Admission>, i: nat)
    requires journal != [] && Stands(d, Front(journal), i)
    requires Last(journal).kind.AdmitField? ==> Place(d, Front(journal)[i]) != Place(d, Last(journal))
    ensures Stands(d, journal, i) && Front(journal)[i] == journal[i]
  {
    hide Place;
  }

  lemma LastStands(d: Definition, journal: seq<Admission>)
    requires journal != [] && Last(journal).kind.AdmitField?
    ensures Stands(d, journal, |journal| - 1)
  {}

  lemma StandsWithin(d: Definition, journal: seq<Admission>, i: nat)
    requires Stands(d, journal, i)
    ensures i < |journal|
  {
    hide Place;
  }

  lemma FieldAdded(d: Definition, ov: Overlay, m: map<(string, string), FieldSpec>, journal: seq<Admission>, f: FieldSpec)
    requires journal != [] && FieldsOf(d, ov, m, Front(journal)) && Last(journal).kind.AdmitField? && f.values == LiveValues(d, ov, Last(journal))
    ensures FieldsOf(d, ov, m[Place(d, Last(journal)) := f], journal)
  {
    hide LiveValues, Place;
    var front, a := Front(journal), Last(journal);
    var p := Place(d, a);
    var m' := m[p := f];
    forall i: nat | Stands(d, journal, i)
      ensures Place(d, journal[i]) in m' && m'[Place(d, journal[i])].values == LiveValues(d, ov, journal[i])
    {
      if i < |front| { StandsBefore(d, journal, i); }
    }
    hide Stands;
    forall k | k in m' ensures exists i: nat :: Stands(d, journal, i) && Place(d, journal[i]) == k {
      if k == p {
        LastStands(d, journal);
      } else {
        var i: nat :| Stands(d, front, i) && Place(d, front[i]) == k;
        StandsAfter(d, journal, i);
        StandsWithin(d, journal, i);
      }
    }
  }

  lemma OtherAdded(d: Definition, ov: Overlay, m: map<(string, string), FieldSpec>, journal: seq<Admission>)
    requires journal != [] && FieldsOf(d, ov, m, Front(journal)) && !Last(journal).kind.AdmitField?
    ensures FieldsOf(d, ov, m, journal)
  {
    hide LiveValues, Place;
    var front := Front(journal);
    forall i: nat | Stands(d, journal, i)
      ensures Place(d, journal[i]) in m && m[Place(d, journal[i])].values == LiveValues(d, ov, journal[i])
    {
      NotLast(d, journal, i);
      StandsBefore(d, journal, i);
    }
    hide Stands;
    forall k | k in m ensures exists i: nat :: Stands(d, journal, i) && Place(d, journal[i]) == k {
      var i: nat :| Stands(d, front, i) && Place(d, front[i]) == k;
      StandsAfter(d, journal, i);
      StandsWithin(d, journal, i);
    }
  }

  lemma NotLast(d: Definition, journal: seq<Admission>, i: nat)
    requires journal != [] && Stands(d, journal, i) && !Last(journal).kind.AdmitField?
    ensures i < |journal| - 1
  {}

  lemma {:induction false} FieldsRead(d: Definition, ov: Overlay, version: int, journal: seq<Admission>)
    requires forall i | 0 <= i < |journal| :: journal[i].version <= version
    ensures FieldsOf(d, ov, ResolveAll(d, ov, version, journal).addedFields, journal)
  {
    if journal != [] {
      hide LiveValues, Place, FieldsOf, ResolveOne, Pinned;
      var eff, a := ResolveAll(d, ov, version, Front(journal)), Last(journal);
      FieldsRead(d, ov, version, Front(journal));
      ResolveAllPinned(d, ov, ov, version, Front(journal));
      assert a == journal[|journal| - 1] && a.version <= version;
      OneRead(d, ov, eff, a);
      if a.kind.AdmitField? {
        FieldAdded(d, ov, eff.addedFields, journal, FieldSpec(a.typ, a.presence, a.version, LiveValues(d, ov, a), a.at));
      } else {
        OtherAdded(d, ov, eff.addedFields, journal);
      }
    }
  }

  lemma OneRead(d: Definition, ov: Overlay, eff: Effective, a: Admission)
    requires a.version <= eff.version
    ensures var m := ResolveOne(d, ov, eff, a).addedFields;
            if a.kind.AdmitField? then
              m == eff.addedFields[Place(d, a) := FieldSpec(a.typ, a.presence, a.version, LiveValues(d, ov, a), a.at)]
            else m == eff.addedFields
  {
    hide LiveValues, EndpointKey, EndpointKeyOf, Append;
  }

  /** The live values of the fields that a journal adds. */
  ghost predicate SameLive(d: Definition, ov: Overlay, later: Overlay, journal: seq<Admission>) {
    forall i: nat | Stands(d, journal, i) :: LiveValues(d, later, journal[i]) == LiveValues(d, ov, journal[i])
  }

  lemma OneKeeps(d: Definition, ov: Overlay, eff: Effective, a: Admission)
    ensures ResolveOne(d, ov, eff, a).contradictions == eff.contradictions
  {
    hide LiveValues, EndpointKey, EndpointKeyOf, Append;
  }

  lemma {:induction false} KeepsContradictions(d: Definition, ov: Overlay, version: int, journal: seq<Admission>)
    ensures ResolveAll(d, ov, version, journal).contradictions == ov.contradictions
  {
    if journal != [] {
      hide ResolveOne;
      KeepsContradictions(d, ov, version, Front(journal));
      OneKeeps(d, ov, ResolveAll(d, ov, version, Front(journal)), Last(journal));
    }
  }

  lemma WholeUnchanged(d: Definition, ov: Overlay, later: Overlay, version: int, journal: seq<Admission>)
    requires forall i | 0 <= i < |journal| :: journal[i].version <= version
    ensures ResolveAll(d, later, version, journal) == ResolveAll(d, ov, version, journal)
            <==> later.contradictions == ov.contradictions && SameLive(d, ov, later, journal)
  {
    hide ResolveAll, LiveValues, Place, Pinned;
    FieldsRead(d, ov, version, journal);
    FieldsRead(d, later, version, journal);
    ResolveAllPinned(d, ov, later, version, journal);
    KeepsContradictions(d, ov, version, journal);
    KeepsContradictions(d, later, version, journal);
    var x, y := ResolveAll(d, ov, version, journal), ResolveAll(d, later, version, journal);
    PinnedSame(x, y);
    if SameLive(d, ov, later, journal) {
      forall k | k in x.addedFields ensures x.addedFields[k].values == y.addedFields[k].values {
        var i: nat :| Stands(d, journal, i) && Place(d, journal[i]) == k;
      }
    }
  }

  lemma PinnedSame(x: Effective, y: Effective)
    requires Pinned(x) == Pinned(y)
    ensures x.addedFields.Keys == y.addedFields.Keys
    ensures x == y <==> x.contradictions == y.contradictions
                        && forall k | k in x.addedFields :: x.addedFields[k].values == y.addedFields[k].values
  {
    assert x.addedFields.Keys == PinnedFields(x.addedFields).Keys && y.addedFields.Keys == PinnedFields(y.addedFields).Keys;
    if forall k | k in x.addedFields :: x.addedFields[k].values == y.addedFields[k].values {
      forall k | k in x.addedFields ensures x.addedFields[k] == y.addedFields[k] {
        assert PinnedFields(x.addedFields)[k] == PinnedFields(y.addedFields)[k];
      }
      assert x.addedFields == y.addedFields;
    }
  }

  // ---- Runs ----

  /** An observation may change the endpoints in any way; it does not touch the journal. */
  datatype Op =
    | Observed(endpoints: map<string, ObservedEndpoint>)
    | Admitted(d: Definition, preferSpec: bool, now: int)

  ghost function Do(c: Settings, ov: Overlay, op: Op): Overlay {
    match op
    case Observed(endpoints) => ov.(endpoints := endpoints)
    case Admitted(d, preferSpec, now) => Admit(c, d, ov, preferSpec, now)
  }

  ghost function After(c: Settings, ov: Overlay, ops: seq<Op>): Overlay {
    if ops == [] then ov else Do(c, After(c, ov, Front(ops)), Last(ops))
  }

  lemma DoKeeps(c: Settings, ov: Overlay, op: Op)
    requires JournalOk(ov)
    ensures JournalOk(Do(c, ov, op)) && Extends(Do(c, ov, op), ov)
  {
    match op
    case Observed(_) =>
      assert ov.admissions[..|ov.admissions|] == ov.admissions && ov.contradictions[..|ov.contradictions|] == ov.contradictions;
    case Admitted(d, preferSpec, now) =>
      hide JournalOk, Extends, AllProposals;
      TakeAllKeeps(ov, AllProposals(c, d, ov, preferSpec, now, Sorted(ov.endpoints.Keys)));
  }

  lemma {:induction false} RunKeeps(c: Settings, ov: Overlay, ops: seq<Op>)
    requires JournalOk(ov)
    ensures JournalOk(After(c, ov, ops)) && Extends(After(c, ov, ops), ov)
  {
    if ops == [] {
      assert ov.admissions[..|ov.admissions|] == ov.admissions && ov.contradictions[..|ov.contradictions|] == ov.contradictions;
    } else {
      hide JournalOk, Extends, Do;
      RunKeeps(c, ov, Front(ops));
      DoKeeps(c, After(c, ov, Front(ops)), Last(ops));
      ExtendsTransitive(After(c, ov, ops), After(c, ov, Front(ops)), ov);
    }
  }

  const EMPTY: Overlay := Overlay(0, map[], [], [])

  /** In every run the journal is in order, and what was resolved at a version when it was
      current is what is resolved at it ever after. */
  lemma HistoryIsPinned(c: Settings, d: Definition, ops: seq<Op>, more: seq<Op>, version: nat)
    requires version <= After(c, EMPTY, ops).version
    ensures JournalOk(After(c, EMPTY, ops))
    ensures Pinned(ResolveAt(d, After(c, After(c, EMPTY, ops), more), version))
            == Pinned(ResolveAt(d, After(c, EMPTY, ops), version))
  {
    RunKeeps(c, EMPTY, ops);
    RunKeeps(c, After(c, EMPTY, ops), more);
    hide After, Pinned, ResolveAt, Extends, JournalOk;
    ResolvePinned(d, After(c, EMPTY, ops), After(c, After(c, EMPTY, ops), more), version);
  }

  /** What is resolved at a version reached is wholly unchanged later exactly if no contradiction
      has been added and the fields then added have the live values they had. */
  lemma HistoryIsWhole(c: Settings, d: Definition, ops: seq<Op>, more: seq<Op>, version: nat)
    requires version <= After(c, EMPTY, ops).version
    ensures JournalOk(After(c, EMPTY, ops)) && version <= |After(c, EMPTY, ops).admissions|
    ensures var ov, later := After(c, EMPTY, ops), After(c, After(c, EMPTY, ops), more);
            ResolveAt(d, later, version) == ResolveAt(d, ov, version)
            <==> later.contradictions == ov.contradictions && SameLive(d, ov, later, ov.admissions[..version])
  {
    hide After, ResolveAt, ResolveAll, SameLive, KeyText;
    RunKeeps(c, EMPTY, ops);
    RunKeeps(c, After(c, EMPTY, ops), more);
    var ov, later := After(c, EMPTY, ops), After(c, After(c, EMPTY, ops), more);
    ResolveReadsPrefix(d, ov, version);
    ResolveReadsPrefix(d, later, version);
    assert later.admissions[..version] == later.admissions[..|ov.admissions|][..version];
    WholeUnchanged(d, ov, later, version, ov.admissions[..version]);
  }

  // ---- Which admissions are made ----

  /** No proposal overrides a declared type. */
  ghost predicate NoOverride(ps: seq<Proposal>) { forall i | 0 <= i < |ps| :: ps[i].Propose? ==> !ps[i].a.kind.AdmitType? }

  lemma NoOverrideAppend(a: seq<Proposal>, b: seq<Proposal>)
    requires NoOverride(a) && NoOverride(b)
    ensures NoOverride(a + b)
  {}

  lemma {:induction false} ValuesNoOverride(k: Case, path: string, vs: seq<string>)
    requires path in k.ep.fields && forall v | v in vs :: v in k.ep.fields[path].values
    ensures NoOverride(ValueProposals(k, path, vs))
  {
    if vs != [] { ValuesNoOverride(k, path, Front(vs)); }
  }

  lemma {:induction false} StatusesNoOverride(k: Case, codes: seq<string>)
    requires Declared(k).Some? && forall c | c in codes :: c in k.ep.statusCodes
    ensures NoOverride(StatusProposals(k, codes))
  {
    if codes != [] { StatusesNoOverride(k, Front(codes)); }
  }

  lemma {:induction false} FieldsNoOverride(k: Case, paths: seq<string>)
    requires k.preferSpec && forall p | p in paths :: p in k.ep.fields
    ensures NoOverride(AllFields(k, paths))
  {
    if paths != [] {
      FieldsNoOverride(k, Front(paths));
      var path := Last(paths);
      assert NoOverride(TypeProposals(k, path)) by { hide DominantStats, DeclaredType; }
      hide TypeProposals, ValueProposals, NoOverride;
      var vs := Sorted(k.ep.fields[path].values.Keys);
      ValuesNoOverride(k, path, vs);
      NoOverrideAppend(TypeProposals(k, path), ValueProposals(k, path, vs));
      NothingOverrides();
      NoOverrideAppend(TypeProposals(k, path), []);
      NoOverrideAppend(AllFields(k, Front(paths)), FieldProposals(k, path));
    }
  }

  lemma NothingOverrides()
    ensures NoOverride([])
  {}

  lemma EndpointNoOverride(k: Case)
    requires k.preferSpec
    ensures NoOverride(EndpointProposals(k))
  {
    var start := if Declared(k).None? then [Propose(Make(k, AdmitEndpoint, "", "", "", 0.0, ""))] else [];
    assert NoOverride(start);
    hide NoOverride, AllFields, StatusProposals;
    var fields := AllFields(k, Sorted(k.ep.fields.Keys));
    FieldsNoOverride(k, Sorted(k.ep.fields.Keys));
    NoOverrideAppend(start, fields);
    NothingOverrides();
    var rest := if Declared(k).Some? then StatusProposals(k, Sorted(k.ep.statusCodes.Keys)) else [];
    if Declared(k).Some? { StatusesNoOverride(k, Sorted(k.ep.statusCodes.Keys)); }
    NoOverrideAppend(start + fields, rest);
  }

  lemma {:induction false} AllNoOverride(c: Settings, d: Definition, ov: Overlay, now: int, keys: seq<string>)
    requires forall e | e in keys :: e in ov.endpoints
    ensures NoOverride(AllProposals(c, d, ov, true, now, keys))
  {
    if keys == [] {
      NothingOverrides();
    } else {
      hide NoOverride, EndpointProposals;
      AllNoOverride(c, d, ov, now, Front(keys));
      var k := Case(c, d, ov.endpoints[Last(keys)], true, now);
      EndpointNoOverride(k);
      NoOverrideAppend(AllProposals(c, d, ov, true, now, Front(keys)), EndpointProposals(k));
    }
  }

  lemma {:induction false} TakenFromProposals(ov: Overlay, ps: seq<Proposal>, i: nat)
    requires NoOverride(ps) && |ov.admissions| <= i < |TakeAll(ov, ps).admissions|
    ensures !TakeAll(ov, ps).admissions[i].kind.AdmitType?
  {
    if ps != [] {
      hide KeyText;
      var before := TakeAll(ov, Front(ps));
      assert Last(ps) == ps[|ps| - 1];
      if i < |before.admissions| { TakenFromProposals(ov, Front(ps), i); }
    }
  }

  /** Where the specification is preferred, traffic never overrides a declared type. */
  lemma SpecPreferred(c: Settings, d: Definition, ov: Overlay, now: int, i: nat)
    requires |ov.admissions| <= i < |Admit(c, d, ov, true, now).admissions|
    ensures !Admit(c, d, ov, true, now).admissions[i].kind.AdmitType?
  {
    var keys := Sorted(ov.endpoints.Keys);
    hide AllProposals, NoOverride;
    AllNoOverride(c, d, ov, now, keys);
    TakenFromProposals(ov, AllProposals(c, d, ov, true, now, keys), i);
  }
}
