/** Taking a record into the overlay: what each endpoint and field counts. */
module Observing {
  import opened Contract
  import opened JsNumber
  import opened Text
  import opened Totals

  const MAX_ENDPOINTS: nat := 500
  const MAX_FIELDS_PER_KEY: nat := 2000
  const MAX_VALUES_PER_FIELD: nat := 24

  /** A leaf of the response body; `verbatim` if no redaction points at it. */
  datatype Visit = Visit(path: string, typ: string, text: Option<string>, verbatim: bool)

  datatype Redaction = Redaction(path: string, mode: string)

  /** A JSON record: its template and upper-case method, its leaves in the order they are
      walked, and the redactions of its body. */
  datatype Record = Record(verb: string, template: string, status: int, visits: seq<Visit>, redactions: seq<Redaction>)

  const NEW_FIELD: ObservedField := ObservedField(0, 0, map[], map[], false, map[])

  function StatusClass(status: int): string {
    if status >= 500 then "5xx" else if status >= 400 then "4xx" else if status >= 300 then "3xx" else "2xx"
  }

  function CodeText(status: int): string { if 100 <= status <= 999 then Itoa(status) else "0" }

  function KeyOf(r: Record): string { r.verb + "|" + r.template + "|" + StatusClass(r.status) }

  /** `fieldFor`: the field, made if there is room; once there was none there is never again. */
  function WithField(ep: ObservedEndpoint, path: string): ObservedEndpoint {
    if path in ep.fields then ep
    else if ep.latch || |ep.fields| >= MAX_FIELDS_PER_KEY then ep.(latch := true)
    else ep.(fields := ep.fields[path := NEW_FIELD])
  }

  function CountValue(f: ObservedField, text: Option<string>): ObservedField {
    if text.None? || f.high then f
    else
      var values := Bump(f.values, text.value);
      if |values| > MAX_VALUES_PER_FIELD then f.(values := map[], high := true) else f.(values := values)
  }

  function SeeField(f: ObservedField, v: Visit): ObservedField {
    var g := f.(seen := f.seen + 1);
    if !v.verbatim then g else CountValue(g.(types := Bump(g.types, v.typ)), v.text)
  }

  function See(ep: ObservedEndpoint, v: Visit): ObservedEndpoint {
    var e := WithField(ep, v.path);
    if v.path in e.fields then e.(fields := e.fields[v.path := SeeField(e.fields[v.path], v)]) else e
  }

  function SeeAll(ep: ObservedEndpoint, vs: seq<Visit>): ObservedEndpoint {
    if vs == [] then ep else See(SeeAll(ep, Front(vs)), Last(vs))
  }

  /** The paths visited that have a field. */
  function SeenPaths(ep: ObservedEndpoint, vs: seq<Visit>): set<string> {
    if vs == [] then {}
    else SeenPaths(ep, Front(vs)) + if Last(vs).path in SeeAll(ep, vs).fields then {Last(vs).path} else {}
  }

  function RedactField(f: ObservedField, mode: string): ObservedField {
    f.(seen := f.seen + 1, redactions := Bump(f.redactions, mode))
  }

  function Redact(ep: ObservedEndpoint, seen: set<string>, r: Redaction): ObservedEndpoint {
    var e := WithField(ep, r.path);
    if r.path in seen then ep
    else if r.path in e.fields then e.(fields := e.fields[r.path := RedactField(e.fields[r.path], r.mode)])
    else e
  }

  function RedactAll(ep: ObservedEndpoint, seen: set<string>, rs: seq<Redaction>): ObservedEndpoint {
    if rs == [] then ep else Redact(RedactAll(ep, seen, Front(rs)), seen, Last(rs))
  }

  function Sampled(fields: map<string, ObservedField>): map<string, ObservedField> {
    map p | p in fields :: fields[p].(samples := fields[p].samples + 1)
  }

  function ObserveEndpoint(ep: ObservedEndpoint, r: Record, now: int): ObservedEndpoint {
    var counted := ep.(samples := ep.samples + 1, lastSeen := now, statusCodes := Bump(ep.statusCodes, CodeText(r.status)));
    var e := RedactAll(SeeAll(counted, r.visits), SeenPaths(counted, r.visits), r.redactions);
    e.(fields := Sampled(e.fields))
  }

  function NewEndpoint(r: Record, now: int): ObservedEndpoint {
    ObservedEndpoint(r.verb, r.template, StatusClass(r.status), 0, now, now, map[], map[], false)
  }

  function Observe(endpoints: map<string, ObservedEndpoint>, r: Record, now: int): map<string, ObservedEndpoint> {
    var k := KeyOf(r);
    if k in endpoints then endpoints[k := ObserveEndpoint(endpoints[k], r, now)]
    else if |endpoints| >= MAX_ENDPOINTS then endpoints
    else endpoints[k := ObserveEndpoint(NewEndpoint(r, now), r, now)]
  }

  // ---- What the counts keep ----

  /** Every sighting counted at most one type or one redaction, and values only while few. */
  ghost predicate FieldOk(f: ObservedField) {
    Total(f.types) + Total(f.redactions) <= f.seen && |f.values| <= MAX_VALUES_PER_FIELD && (f.high ==> f.values == map[])
  }

  ghost predicate FieldsOk(ep: ObservedEndpoint, samples: nat) {
    && |ep.fields| <= MAX_FIELDS_PER_KEY
    && forall p | p in ep.fields :: FieldOk(ep.fields[p]) && ep.fields[p].samples <= samples
  }

  ghost predicate EndpointOk(ep: ObservedEndpoint) { Total(ep.statusCodes) == ep.samples && FieldsOk(ep, ep.samples) }

  lemma NewFieldOk()
    ensures FieldOk(NEW_FIELD)
  {}

  lemma WithFieldOk(ep: ObservedEndpoint, path: string, n: nat)
    requires FieldsOk(ep, n)
    ensures FieldsOk(WithField(ep, path), n)
  {
    hide FieldOk;
    NewFieldOk();
    SizeUpdate(ep.fields, path, NEW_FIELD);
  }

  lemma SeeFieldOk(f: ObservedField, v: Visit)
    requires FieldOk(f)
    ensures FieldOk(SeeField(f, v)) && SeeField(f, v).samples == f.samples && SeeField(f, v).seen == f.seen + 1
  {
    TotalBump(f.types, v.typ);
  }

  lemma PutOk(ep: ObservedEndpoint, path: string, f: ObservedField, n: nat)
    requires FieldsOk(ep, n) && path in ep.fields && FieldOk(f) && f.samples <= n
    ensures FieldsOk(ep.(fields := ep.fields[path := f]), n)
  {}

  lemma SeeOk(ep: ObservedEndpoint, v: Visit, n: nat)
    requires FieldsOk(ep, n)
    ensures FieldsOk(See(ep, v), n) && See(ep, v).samples == ep.samples && See(ep, v).statusCodes == ep.statusCodes
  {
    hide FieldOk, SeeField;
    WithFieldOk(ep, v.path, n);
    var e := WithField(ep, v.path);
    if v.path in e.fields {
      SeeFieldOk(e.fields[v.path], v);
      PutOk(e, v.path, SeeField(e.fields[v.path], v), n);
    }
  }

  lemma RedactOk(ep: ObservedEndpoint, seen: set<string>, r: Redaction, n: nat)
    requires FieldsOk(ep, n)
    ensures FieldsOk(Redact(ep, seen, r), n) && Redact(ep, seen, r).samples == ep.samples
    ensures Redact(ep, seen, r).statusCodes == ep.statusCodes
  {
    hide FieldOk, RedactField;
    WithFieldOk(ep, r.path, n);
    var e := WithField(ep, r.path);
    if r.path !in seen && r.path in e.fields {
      RedactFieldOk(e.fields[r.path], r.mode);
      PutOk(e, r.path, RedactField(e.fields[r.path], r.mode), n);
    }
  }

  lemma RedactFieldOk(f: ObservedField, mode: string)
    requires FieldOk(f)
    ensures FieldOk(RedactField(f, mode)) && RedactField(f, mode).samples == f.samples
  {
    TotalBump(f.redactions, mode);
  }

  lemma {:induction false} SeeAllOk(ep: ObservedEndpoint, vs: seq<Visit>, n: nat)
    requires FieldsOk(ep, n)
    ensures FieldsOk(SeeAll(ep, vs), n) && SeeAll(ep, vs).samples == ep.samples && SeeAll(ep, vs).statusCodes == ep.statusCodes
  {
    if vs != [] {
      hide See, FieldsOk;
      SeeAllOk(ep, Front(vs), n);
      SeeOk(SeeAll(ep, Front(vs)), Last(vs), n);
    }
  }

  lemma {:induction false} RedactAllOk(ep: ObservedEndpoint, seen: set<string>, rs: seq<Redaction>, n: nat)
    requires FieldsOk(ep, n)
    ensures FieldsOk(RedactAll(ep, seen, rs), n) && RedactAll(ep, seen, rs).samples == ep.samples
    ensures RedactAll(ep, seen, rs).statusCodes == ep.statusCodes
  {
    if rs != [] {
      hide Redact, FieldsOk;
      RedactAllOk(ep, seen, Front(rs), n);
      RedactOk(RedactAll(ep, seen, Front(rs)), seen, Last(rs), n);
    }
  }

  lemma SampledOk(ep: ObservedEndpoint, n: nat)
    requires FieldsOk(ep, n)
    ensures FieldsOk(ep.(fields := Sampled(ep.fields)), n + 1)
  {
    assert Sampled(ep.fields).Keys == ep.fields.Keys;
    assert |Sampled(ep.fields)| == |Sampled(ep.fields).Keys| && |ep.fields| == |ep.fields.Keys|;
  }

  /** Observing keeps an endpoint's books: status codes add up to its samples, no field has
      more samples than it, and within a field types and redactions never exceed sightings. */
  lemma ObserveKeepsBooks(ep: ObservedEndpoint, r: Record, now: int)
    requires EndpointOk(ep)
    ensures EndpointOk(ObserveEndpoint(ep, r, now))
  {
    hide FieldsOk, SeeAll, RedactAll, Sampled, Bump;
    TotalBump(ep.statusCodes, CodeText(r.status));
    var counted := ep.(samples := ep.samples + 1, lastSeen := now, statusCodes := Bump(ep.statusCodes, CodeText(r.status)));
    assert FieldsOk(counted, ep.samples) by { SameFields(ep, counted, ep.samples); }
    SeeAllOk(counted, r.visits, ep.samples);
    var seen := SeenPaths(counted, r.visits);
    RedactAllOk(SeeAll(counted, r.visits), seen, r.redactions, ep.samples);
    SampledOk(RedactAll(SeeAll(counted, r.visits), seen, r.redactions), ep.samples);
    SameFields(RedactAll(SeeAll(counted, r.visits), seen, r.redactions).(fields := Sampled(RedactAll(SeeAll(counted, r.visits), seen, r.redactions).fields)),
               ObserveEndpoint(ep, r, now), ep.samples + 1);
  }

  lemma SameFields(a: ObservedEndpoint, b: ObservedEndpoint, n: nat)
    requires FieldsOk(a, n) && a.fields == b.fields
    ensures FieldsOk(b, n)
  {}

  // ---- How often a field is sighted ----

  function Visits(vs: seq<Visit>, p: string): nat {
    if vs == [] then 0 else Visits(Front(vs), p) + if Last(vs).path == p then 1 else 0
  }

  function Redactions(rs: seq<Redaction>, p: string): nat {
    if rs == [] then 0 else Redactions(Front(rs), p) + if Last(rs).path == p then 1 else 0
  }

  /** What a record adds to a field: its visits, or its redactions if it is not visited. */
  function Sightings(r: Record, p: string): nat {
    if Visits(r.visits, p) > 0 then Visits(r.visits, p) else Redactions(r.redactions, p)
  }

  function SeenOf(ep: ObservedEndpoint, p: string): nat { if p in ep.fields then ep.fields[p].seen else 0 }

  function SamplesOf(ep: ObservedEndpoint, p: string): nat { if p in ep.fields then ep.fields[p].samples else 0 }

  /** From `a` to `b` the field was sighted `n` times, or refused and the endpoint latched. */
  ghost predicate Sighted(a: ObservedEndpoint, b: ObservedEndpoint, p: string, n: nat) {
    && (p in a.fields ==> p in b.fields)
    && (p in b.fields ==> SeenOf(b, p) == SeenOf(a, p) + n && SamplesOf(b, p) == SamplesOf(a, p))
    && (p !in b.fields && n > 0 ==> b.latch)
    && (a.latch ==> b.latch && (p in b.fields ==> p in a.fields))
    && (p in b.fields && p !in a.fields ==> n > 0)
  }

  lemma SightedThen(a: ObservedEndpoint, b: ObservedEndpoint, c: ObservedEndpoint, p: string, m: nat, n: nat)
    requires Sighted(a, b, p, m) && Sighted(b, c, p, n)
    ensures Sighted(a, c, p, m + n)
  {}

  lemma SeeSights(ep: ObservedEndpoint, v: Visit, p: string)
    ensures Sighted(ep, See(ep, v), p, if v.path == p then 1 else 0)
  {
    hide Bump;
  }

  lemma RedactSights(ep: ObservedEndpoint, seen: set<string>, r: Redaction, p: string)
    ensures Sighted(ep, Redact(ep, seen, r), p, if r.path == p && p !in seen then 1 else 0)
  {
    hide Bump;
  }

  lemma {:induction false} SeeAllSights(ep: ObservedEndpoint, vs: seq<Visit>, p: string)
    ensures Sighted(ep, SeeAll(ep, vs), p, Visits(vs, p))
    ensures p in SeenPaths(ep, vs) <==> Visits(vs, p) > 0 && p in SeeAll(ep, vs).fields
  {
    if vs != [] {
      hide See;
      SeeAllSights(ep, Front(vs), p);
      SeeSights(SeeAll(ep, Front(vs)), Last(vs), p);
      SightedThen(ep, SeeAll(ep, Front(vs)), SeeAll(ep, vs), p, Visits(Front(vs), p), if Last(vs).path == p then 1 else 0);
    }
  }

  lemma {:induction false} RedactAllSights(ep: ObservedEndpoint, seen: set<string>, rs: seq<Redaction>, p: string)
    ensures Sighted(ep, RedactAll(ep, seen, rs), p, if p in seen then 0 else Redactions(rs, p))
  {
    if rs != [] {
      hide Redact;
      var before := RedactAll(ep, seen, Front(rs));
      RedactAllSights(ep, seen, Front(rs), p);
      RedactSights(before, seen, Last(rs), p);
      SightedThen(ep, before, RedactAll(ep, seen, rs), p, if p in seen then 0 else Redactions(Front(rs), p),
                  if Last(rs).path == p && p !in seen then 1 else 0);
    }
  }

  /** From `a` to `b` one record was taken in: its sightings, and a sample for every field. */
  ghost predicate Observed(a: ObservedEndpoint, b: ObservedEndpoint, p: string, n: nat) {
    && (p in a.fields ==> p in b.fields)
    && (p in b.fields ==> SeenOf(b, p) == SeenOf(a, p) + n && SamplesOf(b, p) == SamplesOf(a, p) + 1)
    && (p !in b.fields && n > 0 ==> b.latch)
    && (a.latch ==> b.latch && (p in b.fields ==> p in a.fields))
    && (p in b.fields && p !in a.fields ==> n > 0)
  }

  lemma TakesSightings(ep: ObservedEndpoint, r: Record, p: string)
    ensures Sighted(ep, RedactAll(SeeAll(ep, r.visits), SeenPaths(ep, r.visits), r.redactions), p, Sightings(r, p))
  {
    hide SeeAll, RedactAll, SeenPaths, Visits, Redactions;
    var visited, seen := SeeAll(ep, r.visits), SeenPaths(ep, r.visits);
    SeeAllSights(ep, r.visits, p);
    RedactAllSights(visited, seen, r.redactions, p);
  }

  lemma SampledSights(ep: ObservedEndpoint, a: ObservedEndpoint, e: ObservedEndpoint, p: string, n: nat)
    requires Sighted(a, e, p, n) && a.fields == ep.fields && a.latch == ep.latch
    ensures Observed(ep, e.(fields := Sampled(e.fields)), p, n)
  {}

  lemma ObserveSights(ep: ObservedEndpoint, r: Record, now: int, p: string)
    ensures Observed(ep, ObserveEndpoint(ep, r, now), p, Sightings(r, p))
  {
    hide SeeAll, RedactAll, SeenPaths, Bump, Sightings, Sighted, Observed, Sampled;
    var counted := ep.(samples := ep.samples + 1, lastSeen := now, statusCodes := Bump(ep.statusCodes, CodeText(r.status)));
    TakesSightings(counted, r, p);
    SampledSights(ep, counted, RedactAll(SeeAll(counted, r.visits), SeenPaths(counted, r.visits), r.redactions), p, Sightings(r, p));
  }

  // ---- Over a run ----

  datatype Timed = Timed(r: Record, now: int)

  /** An endpoint is made for its first record. */
  function ObserveAll(rs: seq<Timed>): ObservedEndpoint
    requires rs != []
  {
    var last := Last(rs);
    ObserveEndpoint(if |rs| == 1 then NewEndpoint(last.r, last.now) else ObserveAll(Front(rs)), last.r, last.now)
  }

  function ObserveRun(rs: seq<Timed>): map<string, ObservedEndpoint> {
    if rs == [] then map[] else Observe(ObserveRun(Front(rs)), Last(rs).r, Last(rs).now)
  }

  /** The records of one endpoint. */
  function RecordsOf(rs: seq<Timed>, k: string): seq<Timed> {
    if rs == [] then [] else RecordsOf(Front(rs), k) + if KeyOf(Last(rs).r) == k then [Last(rs)] else []
  }

  /** The endpoint is made of these records, or there are none, or too many endpoints. */
  ghost predicate MadeOf(m: map<string, ObservedEndpoint>, k: string, mine: seq<Timed>) {
    if k in m then mine != [] && m[k] == ObserveAll(mine) else mine == [] || |m| >= MAX_ENDPOINTS
  }

  lemma MineGrows(m: map<string, ObservedEndpoint>, k: string, mine: seq<Timed>, t: Timed)
    requires MadeOf(m, k, mine) && KeyOf(t.r) == k
    ensures MadeOf(Observe(m, t.r, t.now), k, mine + [t])
  {
    hide ObserveEndpoint, KeyOf;
    assert Front(mine + [t]) == mine;
  }

  lemma OthersGrow(m: map<string, ObservedEndpoint>, k: string, mine: seq<Timed>, t: Timed)
    requires MadeOf(m, k, mine) && KeyOf(t.r) != k
    ensures MadeOf(Observe(m, t.r, t.now), k, mine)
  {
    hide ObserveEndpoint, KeyOf, ObserveAll;
    var key := KeyOf(t.r);
    if key in m {
      SizeUpdate(m, key, ObserveEndpoint(m[key], t.r, t.now));
    } else {
      SizeUpdate(m, key, ObserveEndpoint(NewEndpoint(t.r, t.now), t.r, t.now));
    }
  }

  /** An endpoint is made of all its records, or of none as there were too many endpoints. */
  lemma {:induction false} EndpointIsItsRecords(rs: seq<Timed>, k: string)
    ensures MadeOf(ObserveRun(rs), k, RecordsOf(rs, k))
  {
    if rs != [] {
      hide Observe, KeyOf, MadeOf;
      EndpointIsItsRecords(Front(rs), k);
      if KeyOf(Last(rs).r) == k {
        MineGrows(ObserveRun(Front(rs)), k, RecordsOf(Front(rs), k), Last(rs));
      } else {
        OthersGrow(ObserveRun(Front(rs)), k, RecordsOf(Front(rs), k), Last(rs));
        assert RecordsOf(Front(rs), k) + [] == RecordsOf(Front(rs), k);
      }
    }
  }

  function TotalSightings(rs: seq<Timed>, p: string): nat {
    if rs == [] then 0 else TotalSightings(Front(rs), p) + Sightings(Last(rs).r, p)
  }

  /** The records from the first that sights the field on. */
  function Since(rs: seq<Timed>, p: string): nat {
    if rs == [] then 0
    else if Since(Front(rs), p) > 0 || Sightings(Last(rs).r, p) > 0 then Since(Front(rs), p) + 1 else 0
  }

  lemma {:induction false} RunSights(rs: seq<Timed>, p: string)
    requires rs != []
    ensures var e := ObserveAll(rs);
            && (p in e.fields ==> SeenOf(e, p) == TotalSightings(rs, p) && SamplesOf(e, p) == Since(rs, p) > 0)
            && (p !in e.fields && Since(rs, p) > 0 ==> e.latch)
  {
    hide ObserveEndpoint, Sightings;
    var last := Last(rs);
    var before := if |rs| == 1 then NewEndpoint(last.r, last.now) else ObserveAll(Front(rs));
    if |rs| == 1 {
      NothingSighted(Front(rs), p);
    } else {
      RunSights(Front(rs), p);
    }
    SinceSighted(Front(rs), p);
    ObserveSights(before, last.r, last.now, p);
    OneMoreSighted(before, rs, p);
  }

  /** The counts of a run and those of its endpoint grow together. */
  lemma OneMoreSighted(before: ObservedEndpoint, rs: seq<Timed>, p: string)
    requires rs != [] && Observed(before, ObserveAll(rs), p, Sightings(Last(rs).r, p))
    requires Since(Front(rs), p) == 0 <==> TotalSightings(Front(rs), p) == 0
    requires p in before.fields ==>
               SeenOf(before, p) == TotalSightings(Front(rs), p) && SamplesOf(before, p) == Since(Front(rs), p) > 0
    requires p !in before.fields && Since(Front(rs), p) > 0 ==> before.latch
    ensures var e := ObserveAll(rs);
            && (p in e.fields ==> SeenOf(e, p) == TotalSightings(rs, p) && SamplesOf(e, p) == Since(rs, p) > 0)
            && (p !in e.fields && Since(rs, p) > 0 ==> e.latch)
  {
    hide ObserveAll, Sightings;
  }

  lemma NothingSighted(rs: seq<Timed>, p: string)
    requires rs == []
    ensures Since(rs, p) == 0 && TotalSightings(rs, p) == 0
  {}

  lemma {:induction false} SinceSighted(rs: seq<Timed>, p: string)
    ensures Since(rs, p) == 0 <==> TotalSightings(rs, p) == 0
  {
    if rs != [] {
      hide Sightings;
      SinceSighted(Front(rs), p);
    }
  }

  /** The presence rate of every field after every run: all its sightings over the records since
      the first. It exceeds 1 exactly if the sightings are more than those records. */
  lemma PresenceIs(rs: seq<Timed>, k: string, p: string)
    requires k in ObserveRun(rs) && p in ObserveRun(rs)[k].fields
    ensures var mine := RecordsOf(rs, k);
            && Since(mine, p) > 0
            && PresenceRate(ObserveRun(rs)[k].fields[p]) == TotalSightings(mine, p) as real / Since(mine, p) as real
            && (PresenceRate(ObserveRun(rs)[k].fields[p]) <= 1.0 <==> TotalSightings(mine, p) <= Since(mine, p))
  {
    EndpointIsItsRecords(rs, k);
    var mine := RecordsOf(rs, k);
    hide ObserveRun, RecordsOf, ObserveAll, TotalSightings, Since;
    RunSights(mine, p);
    Ratio(TotalSightings(mine, p), Since(mine, p));
  }

  lemma Ratio(a: nat, b: nat)
    requires b > 0
    ensures a as real / b as real <= 1.0 <==> a <= b
  {
    if a <= b { assert a as real / b as real <= b as real / b as real; }
    if a > b { assert a as real / b as real > b as real / b as real; }
  }

  /** Each record sights the path at most once. */
  predicate AtMostOnce(rs: seq<Timed>, p: string) { forall t | t in rs :: Sightings(t.r, p) <= 1 }

  lemma {:induction false} OnceEach(rs: seq<Timed>, p: string)
    requires AtMostOnce(rs, p)
    ensures TotalSightings(rs, p) <= Since(rs, p)
  {
    if rs != [] {
      hide Sightings;
      assert AtMostOnce(Front(rs), p) && Last(rs) in rs;
      OnceEach(Front(rs), p);
      SinceSighted(rs, p);
    }
  }

  lemma {:induction false} RecordsAreOurs(rs: seq<Timed>, k: string)
    ensures forall t | t in RecordsOf(rs, k) :: t in rs
  {
    if rs != [] { RecordsAreOurs(Front(rs), k); }
  }

  /** Where no record visits a path twice, nor redacts it twice without a visit, the rate is one. */
  lemma PresenceAtMostOne(rs: seq<Timed>, k: string, p: string)
    requires k in ObserveRun(rs) && p in ObserveRun(rs)[k].fields && AtMostOnce(rs, p)
    ensures PresenceRate(ObserveRun(rs)[k].fields[p]) <= 1.0
  {
    hide ObserveRun, RecordsOf, Sightings;
    RecordsAreOurs(rs, k);
    OnceEach(RecordsOf(rs, k), p);
    PresenceIs(rs, k, p);
  }

  /** Every record that does takes a field new to its endpoint above one: it is as present as it
      was sighted. */
  lemma PresenceAboveOne(rs: seq<Timed>, t: Timed, p: string)
    requires TotalSightings(rs, p) == 0 && Sightings(t.r, p) > 1 && p in ObserveAll(rs + [t]).fields
    ensures PresenceRate(ObserveAll(rs + [t]).fields[p]) == Sightings(t.r, p) as real > 1.0
  {
    hide ObserveAll, Sightings;
    assert Front(rs + [t]) == rs;
    RunSights(rs + [t], p);
    SinceSighted(rs, p);
    assert TotalSightings(rs + [t], p) == Sightings(t.r, p) && Since(rs + [t], p) == 1;
  }

  lemma TwoVisits(v: Visit)
    ensures Visits([v, v], v.path) == 2
  {
    var none: seq<Visit> := [];
    assert Front([v, v]) == [v] && Front([v]) == none;
    assert Visits(none, v.path) == 0;
    assert Visits([v], v.path) == Visits(none, v.path) + 1;
    assert Visits([v, v], v.path) == Visits([v], v.path) + 1;
  }

  lemma FieldStays(ep: ObservedEndpoint, v: Visit)
    requires v.path in ep.fields || (!ep.latch && |ep.fields| < MAX_FIELDS_PER_KEY)
    ensures v.path in See(ep, v).fields
  {
    hide SeeField;
  }

  /** As does a path inside an array of two elements. */
  lemma ItemsSightedTwice(verb: string, template: string, now: int) returns (t: Timed)
    ensures Sightings(t.r, "items[].id") == 2 && "items[].id" in ObserveAll([t]).fields
  {
    var v := Visit("items[].id", "number", None, true);
    t := Timed(Record(verb, template, 200, [v, v], []), now);
    assert Front([v, v]) == [v] && Front([v]) == [];
    TwoVisits(v);
    var counted := NewEndpoint(t.r, now).(samples := 1, lastSeen := now, statusCodes := Bump(map[], CodeText(200)));
    hide Bump, CodeText, See;
    assert SeeAll(counted, [v]) == See(counted, v);
    var e := SeeAll(counted, [v, v]);
    assert e == See(SeeAll(counted, [v]), v);
    FieldStays(counted, v);
    FieldStays(SeeAll(counted, [v]), v);
    assert RedactAll(e, SeenPaths(counted, [v, v]), []) == e;
    assert ObserveEndpoint(NewEndpoint(t.r, now), t.r, now).fields == Sampled(e.fields);
    assert ObserveAll([t]) == ObserveEndpoint(NewEndpoint(t.r, now), t.r, now);
  }
}
