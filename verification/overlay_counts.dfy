/** What the counters of the overlay stand for: for every run and every field, how often the
    records of its endpoint showed it, with which type, with which text, or cut which way. */
module OverlayCounts {
  import opened Contract
  import opened JsNumber
  import opened Observing
  import opened Text
  import opened Totals

  /** One sighting of a field: as a leaf, or as a redaction. */
  datatype Sight = Leaf(visit: Visit) | Cut(mode: string)

  function Leaves(vs: seq<Visit>, p: string): seq<Sight> {
    if vs == [] then [] else Leaves(Front(vs), p) + if Last(vs).path == p then [Leaf(Last(vs))] else []
  }

  function Cuts(rs: seq<Redaction>, p: string): seq<Sight> {
    if rs == [] then [] else Cuts(Front(rs), p) + if Last(rs).path == p then [Cut(Last(rs).mode)] else []
  }

  /** What a record shows of a field: its leaves, or its redactions if it has none. */
  function Sights(r: Record, p: string): seq<Sight> {
    if Leaves(r.visits, p) != [] then Leaves(r.visits, p) else Cuts(r.redactions, p)
  }

  function AllSights(rs: seq<Timed>, p: string): seq<Sight> {
    if rs == [] then [] else AllSights(Front(rs), p) + Sights(Last(rs).r, p)
  }

  datatype Mark = Typed(typ: string) | Valued(text: string) | CutAs(mode: string)

  predicate Shows(s: Sight, m: Mark) {
    match m
    case Typed(typ) => s.Leaf? && s.visit.verbatim && s.visit.typ == typ
    case Valued(text) => s.Leaf? && s.visit.verbatim && s.visit.text == Some(text)
    case CutAs(mode) => s == Cut(mode)
  }

  function Count(ss: seq<Sight>, m: Mark): nat {
    if ss == [] then 0 else Count(Front(ss), m) + if Shows(Last(ss), m) then 1 else 0
  }

  /** The texts of the leaves that may be kept as they are. */
  function Texts(ss: seq<Sight>): set<string> {
    if ss == [] then {}
    else
      var s := Last(ss);
      Texts(Front(ss)) + if s.Leaf? && s.visit.verbatim && s.visit.text.Some? then {s.visit.text.value} else {}
  }

  // ---- A field is made of its sightings ----

  function Take(f: ObservedField, s: Sight): ObservedField {
    match s
    case Leaf(v) => SeeField(f, v)
    case Cut(mode) => RedactField(f, mode)
  }

  function Taken(f: ObservedField, ss: seq<Sight>): ObservedField {
    if ss == [] then f else Take(Taken(f, Front(ss)), Last(ss))
  }

  function FieldAt(ep: ObservedEndpoint, p: string): ObservedField { if p in ep.fields then ep.fields[p] else NEW_FIELD }

  /** From `a` to `b` the field took these sightings, or was refused. */
  ghost predicate Takes(a: ObservedEndpoint, b: ObservedEndpoint, p: string, ss: seq<Sight>) {
    Sighted(a, b, p, |ss|) && (p in b.fields ==> FieldAt(b, p) == Taken(FieldAt(a, p), ss))
  }

  lemma {:induction false} TakenMore(f: ObservedField, ss: seq<Sight>, more: seq<Sight>)
    ensures Taken(f, ss + more) == Taken(Taken(f, ss), more)
  {
    if more == [] {
      assert ss + more == ss;
    } else {
      TakenMore(f, ss, Front(more));
      assert Front(ss + more) == ss + Front(more) && Last(ss + more) == Last(more);
    }
  }

  lemma TakesMore(a: ObservedEndpoint, b: ObservedEndpoint, c: ObservedEndpoint, p: string, ss: seq<Sight>, more: seq<Sight>)
    requires Takes(a, b, p, ss) && Takes(b, c, p, more)
    ensures Takes(a, c, p, ss + more)
  {
    hide Taken;
    SightedThen(a, b, c, p, |ss|, |more|);
    TakenMore(FieldAt(a, p), ss, more);
    if p in c.fields && p !in b.fields {
      TakenMore(NEW_FIELD, ss, more);
      NothingTaken(a, b, p, ss);
    }
  }

  /** A field that comes later was neither there nor sighted before. */
  lemma NothingTaken(a: ObservedEndpoint, b: ObservedEndpoint, p: string, ss: seq<Sight>)
    requires Sighted(a, b, p, |ss|) && p !in b.fields && !b.latch
    ensures ss == [] && p !in a.fields && Taken(NEW_FIELD, ss) == NEW_FIELD
  {}

  lemma TakesOne(f: ObservedField, s: Sight)
    ensures Taken(f, [s]) == Take(f, s)
  {
    assert Front([s]) == [];
    assert Taken(f, []) == f;
  }

  lemma SeeTakes(ep: ObservedEndpoint, v: Visit, p: string)
    ensures Takes(ep, See(ep, v), p, if v.path == p then [Leaf(v)] else [])
  {
    hide SeeField;
    SeeSights(ep, v, p);
    TakesOne(FieldAt(ep, p), Leaf(v));
  }

  lemma RedactTakes(ep: ObservedEndpoint, seen: set<string>, r: Redaction, p: string)
    ensures Takes(ep, Redact(ep, seen, r), p, if r.path == p && p !in seen then [Cut(r.mode)] else [])
  {
    hide RedactField;
    RedactSights(ep, seen, r, p);
    TakesOne(FieldAt(ep, p), Cut(r.mode));
  }

  lemma {:induction false} SeeAllTakes(ep: ObservedEndpoint, vs: seq<Visit>, p: string)
    ensures Takes(ep, SeeAll(ep, vs), p, Leaves(vs, p))
    ensures |Leaves(vs, p)| == Visits(vs, p)
  {
    if vs != [] {
      hide See, Takes;
      SeeAllTakes(ep, Front(vs), p);
      SeeTakes(SeeAll(ep, Front(vs)), Last(vs), p);
      TakesMore(ep, SeeAll(ep, Front(vs)), SeeAll(ep, vs), p, Leaves(Front(vs), p), if Last(vs).path == p then [Leaf(Last(vs))] else []);
    }
  }

  lemma {:induction false} RedactAllTakes(ep: ObservedEndpoint, seen: set<string>, rs: seq<Redaction>, p: string)
    ensures Takes(ep, RedactAll(ep, seen, rs), p, if p in seen then [] else Cuts(rs, p))
    ensures |Cuts(rs, p)| == Redactions(rs, p)
  {
    if rs != [] {
      hide Redact, Takes;
      var before := RedactAll(ep, seen, Front(rs));
      RedactAllTakes(ep, seen, Front(rs), p);
      RedactTakes(before, seen, Last(rs), p);
      TakesMore(ep, before, RedactAll(ep, seen, rs), p, if p in seen then [] else Cuts(Front(rs), p),
                if Last(rs).path == p && p !in seen then [Cut(Last(rs).mode)] else []);
    }
  }

  lemma RecordTakes(ep: ObservedEndpoint, r: Record, p: string)
    ensures Takes(ep, RedactAll(SeeAll(ep, r.visits), SeenPaths(ep, r.visits), r.redactions), p, Sights(r, p))
    ensures |Sights(r, p)| == Sightings(r, p)
  {
    hide SeeAll, RedactAll, SeenPaths, Leaves, Cuts, Taken;
    var visited, seen := SeeAll(ep, r.visits), SeenPaths(ep, r.visits);
    var after := RedactAll(visited, seen, r.redactions);
    SeeAllTakes(ep, r.visits, p);
    SeeAllSights(ep, r.visits, p);
    RedactAllTakes(visited, seen, r.redactions, p);
    TakesMore(ep, visited, after, p, Leaves(r.visits, p), if p in seen then [] else Cuts(r.redactions, p));
    assert Leaves(r.visits, p) + [] == Leaves(r.visits, p) && [] + Cuts(r.redactions, p) == Cuts(r.redactions, p);
    if Leaves(r.visits, p) != [] && p !in seen {
      assert visited.latch && p !in visited.fields;
    }
  }

  // ---- An endpoint's field over a run ----

  /** All of a field but the number of its records, which counts records and not sightings. */
  function Bare(f: ObservedField): ObservedField { f.(samples := 0) }

  lemma TakeBare(f: ObservedField, s: Sight)
    ensures Bare(Take(f, s)) == Take(Bare(f), s)
  {
    hide Bump;
  }

  lemma {:induction false} TakenBare(f: ObservedField, ss: seq<Sight>)
    ensures Bare(Taken(f, ss)) == Taken(Bare(f), ss)
  {
    if ss != [] {
      hide Take, Bare;
      TakenBare(f, Front(ss));
      TakeBare(Taken(f, Front(ss)), Last(ss));
    }
  }

  lemma BareSampled(fields: map<string, ObservedField>, p: string)
    requires p in fields
    ensures p in Sampled(fields) && Bare(Sampled(fields)[p]) == Bare(fields[p])
  {}

  lemma ObserveTakes(ep: ObservedEndpoint, r: Record, now: int, p: string)
    ensures var e := ObserveEndpoint(ep, r, now);
            p in e.fields ==> Bare(e.fields[p]) == Taken(Bare(FieldAt(ep, p)), Sights(r, p))
  {
    hide SeeAll, RedactAll, SeenPaths, Bump, Sights, Sighted, Sampled, Taken, Bare;
    var counted := ep.(samples := ep.samples + 1, lastSeen := now, statusCodes := Bump(ep.statusCodes, CodeText(r.status)));
    var e := RedactAll(SeeAll(counted, r.visits), SeenPaths(counted, r.visits), r.redactions);
    RecordTakes(counted, r, p);
    if p in e.fields {
      BareSampled(e.fields, p);
      TakenBare(FieldAt(ep, p), Sights(r, p));
    } else {
      assert Sampled(e.fields).Keys == e.fields.Keys by { SampledKeys(e.fields); }
    }
  }

  lemma SampledKeys(fields: map<string, ObservedField>)
    ensures Sampled(fields).Keys == fields.Keys
  {}

  lemma SightsCounted(r: Record, p: string)
    ensures |Sights(r, p)| == Sightings(r, p)
  {
    RecordTakes(NewEndpoint(r, 0), r, p);
  }

  lemma {:induction false} AllSightsCounted(rs: seq<Timed>, p: string)
    ensures |AllSights(rs, p)| == TotalSightings(rs, p)
  {
    if rs != [] {
      hide Sights, Sightings;
      AllSightsCounted(Front(rs), p);
      SightsCounted(Last(rs).r, p);
    }
  }

  lemma {:induction false} RunTakes(rs: seq<Timed>, p: string)
    requires rs != [] && p in ObserveAll(rs).fields
    ensures Bare(ObserveAll(rs).fields[p]) == Taken(NEW_FIELD, AllSights(rs, p))
  {
    hide ObserveEndpoint, Sights, Sightings, Taken, Bare;
    var last := Last(rs);
    ObserveSights(if |rs| == 1 then NewEndpoint(last.r, last.now) else ObserveAll(Front(rs)), last.r, last.now, p);
    ObserveTakes(if |rs| == 1 then NewEndpoint(last.r, last.now) else ObserveAll(Front(rs)), last.r, last.now, p);
    TakenMore(NEW_FIELD, AllSights(Front(rs), p), Sights(last.r, p));
    BareNew();
    if |rs| > 1 && p in ObserveAll(Front(rs)).fields {
      RunTakes(Front(rs), p);
    } else if |rs| > 1 {
      RunSights(Front(rs), p);
      AllSightsCounted(Front(rs), p);
      SinceSighted(Front(rs), p);
      TakenNone();
    } else {
      TakenNone();
    }
  }

  lemma TakenNone()
    ensures Taken(NEW_FIELD, []) == NEW_FIELD
  {}

  lemma BareNew()
    ensures Bare(NEW_FIELD) == NEW_FIELD
  {}

  // ---- Its counters ----

  /** Each counter is the number of sightings of its kind; the texts are given up exactly if
      there were too many different ones. */
  ghost predicate Counts(f: ObservedField, ss: seq<Sight>) {
    && f.seen == |ss|
    && (forall typ :: Says(f.types, typ, Count(ss, Typed(typ))))
    && (forall mode :: Says(f.redactions, mode, Count(ss, CutAs(mode))))
    && (f.high <==> |Texts(ss)| > MAX_VALUES_PER_FIELD)
    && (if f.high then f.values == map[] else Lists(f.values, ss))
  }

  ghost predicate Lists(values: map<string, nat>, ss: seq<Sight>) {
    values.Keys == Texts(ss) && forall text :: Says(values, text, Count(ss, Valued(text)))
  }

  lemma BumpedBy<K>(m: map<K, nat>, k: K)
    ensures Bump(m, k).Keys == m.Keys + {k} && forall x, n: nat | Says(m, x, n) :: Says(Bump(m, k), x, n + if x == k then 1 else 0)
  {
    forall x, n: nat | Says(m, x, n) ensures Says(Bump(m, k), x, n + if x == k then 1 else 0) { BumpSays(m, x, n, k); }
  }

  lemma MoreTexts(a: set<string>, b: set<string>)
    requires a <= b
    ensures |a| <= |b|
  {
    assert b == a + (b - a);
  }

  lemma TextCounted(f: ObservedField, ss: seq<Sight>, s: Sight)
    requires ss != [] && s == Last(ss) && s.Leaf? && s.visit.verbatim && s.visit.text.Some?
    requires f.high <==> |Texts(Front(ss))| > MAX_VALUES_PER_FIELD
    requires if f.high then f.values == map[] else Lists(f.values, Front(ss))
    ensures var g := CountValue(f, s.visit.text);
            (g.high <==> |Texts(ss)| > MAX_VALUES_PER_FIELD) && if g.high then g.values == map[] else Lists(g.values, ss)
  {
    hide Bump, Says;
    var text := s.visit.text.value;
    MoreTexts(Texts(Front(ss)), Texts(ss));
    BumpedBy(f.values, text);
    var values := Bump(f.values, text);
    assert |values| == |values.Keys|;
    if !f.high {
      forall t ensures Says(values, t, Count(ss, Valued(t))) {
        assert Says(f.values, t, Count(Front(ss), Valued(t)));
      }
    }
  }

  lemma NoTextCounted(f: ObservedField, ss: seq<Sight>, s: Sight)
    requires ss != [] && s == Last(ss) && !(s.Leaf? && s.visit.verbatim && s.visit.text.Some?)
    requires f.high <==> |Texts(Front(ss))| > MAX_VALUES_PER_FIELD
    requires if f.high then f.values == map[] else Lists(f.values, Front(ss))
    ensures (f.high <==> |Texts(ss)| > MAX_VALUES_PER_FIELD) && if f.high then f.values == map[] else Lists(f.values, ss)
  {
    hide Says;
    forall t ensures Count(ss, Valued(t)) == Count(Front(ss), Valued(t)) {}
  }

  lemma TypesCounted(f: ObservedField, ss: seq<Sight>)
    requires ss != [] && (forall typ :: Says(f.types, typ, Count(Front(ss), Typed(typ))))
    ensures forall typ :: Says(Take(f, Last(ss)).types, typ, Count(ss, Typed(typ)))
  {
    hide Bump, Says;
    if Last(ss).Leaf? { BumpedBy(f.types, Last(ss).visit.typ); }
    forall typ ensures Says(Take(f, Last(ss)).types, typ, Count(ss, Typed(typ))) {
      assert Says(f.types, typ, Count(Front(ss), Typed(typ)));
    }
  }

  lemma CutsCounted(f: ObservedField, ss: seq<Sight>)
    requires ss != [] && (forall mode :: Says(f.redactions, mode, Count(Front(ss), CutAs(mode))))
    ensures forall mode :: Says(Take(f, Last(ss)).redactions, mode, Count(ss, CutAs(mode)))
  {
    hide Bump, Says;
    if Last(ss).Cut? { BumpedBy(f.redactions, Last(ss).mode); }
    forall mode ensures Says(Take(f, Last(ss)).redactions, mode, Count(ss, CutAs(mode))) {
      assert Says(f.redactions, mode, Count(Front(ss), CutAs(mode)));
    }
  }

  lemma {:induction false} TakenCounts(ss: seq<Sight>)
    ensures Counts(Taken(NEW_FIELD, ss), ss)
  {
    if ss != [] {
      hide Says, Count, Texts, Lists, Bump, CountValue;
      TakenCounts(Front(ss));
      var f := Taken(NEW_FIELD, Front(ss));
      TypesCounted(f, ss);
      CutsCounted(f, ss);
      var s := Last(ss);
      if s.Leaf? && s.visit.verbatim && s.visit.text.Some? {
        var g := f.(seen := f.seen + 1, types := Bump(f.types, s.visit.typ));
        TextCounted(g, ss, s);
        CountValueOnly(g, s.visit.text);
      } else {
        NoTextCounted(f, ss, s);
        if s.Leaf? { CountValueNone(f.(seen := f.seen + 1, types := Bump(f.types, s.visit.typ))); }
      }
    }
  }

  lemma CountValueOnly(f: ObservedField, text: Option<string>)
    ensures CountValue(f, text).seen == f.seen
  {}

  lemma CountValueNone(f: ObservedField)
    ensures CountValue(f, None) == f
  {}

  /** Every field of every endpoint, after every run, counts the sightings in the records of that
      endpoint, and has been there since the first of them. */
  lemma FieldCounts(rs: seq<Timed>, k: string, p: string)
    requires k in ObserveRun(rs) && p in ObserveRun(rs)[k].fields
    ensures var mine := RecordsOf(rs, k);
            var f := ObserveRun(rs)[k].fields[p];
            Counts(f, AllSights(mine, p)) && f.samples == Since(mine, p) > 0
  {
    hide ObserveAll, ObserveRun, RecordsOf, AllSights, Taken, Since;
    EndpointIsItsRecords(rs, k);
    var mine := RecordsOf(rs, k);
    RunSights(mine, p);
    RunTakes(mine, p);
    TakenCounts(AllSights(mine, p));
    SameCounts(ObserveRun(rs)[k].fields[p], AllSights(mine, p));
  }

  lemma SameCounts(f: ObservedField, ss: seq<Sight>)
    requires Counts(Bare(f), ss)
    ensures Counts(f, ss)
  {}

  // ---- The endpoint itself ----

  function Answers(rs: seq<Timed>, code: string): nat {
    if rs == [] then 0 else Answers(Front(rs), code) + if CodeText(Last(rs).r.status) == code then 1 else 0
  }

  lemma HeadOf(ep: ObservedEndpoint, r: Record, now: int)
    ensures var e := ObserveEndpoint(ep, r, now);
            && e.samples == ep.samples + 1 && e.lastSeen == now && e.firstSeen == ep.firstSeen
            && e.statusCodes == Bump(ep.statusCodes, CodeText(r.status))
            && (e.verb, e.template, e.statusClass) == (ep.verb, ep.template, ep.statusClass)
  {
    hide SeeAll, RedactAll, Sampled;
    var counted := ep.(samples := ep.samples + 1, lastSeen := now, statusCodes := Bump(ep.statusCodes, CodeText(r.status)));
    SameHeadAll(counted, r.visits);
    SameHeadCut(SeeAll(counted, r.visits), SeenPaths(counted, r.visits), r.redactions);
  }

  /** Two stages of one endpoint differ in their fields alone. */
  predicate SameHead(a: ObservedEndpoint, b: ObservedEndpoint) { a.(fields := b.fields, latch := b.latch) == b }

  lemma SeeKeepsHead(ep: ObservedEndpoint, v: Visit)
    ensures SameHead(See(ep, v), ep)
  {
    hide SeeField;
  }

  lemma RedactKeepsHead(ep: ObservedEndpoint, seen: set<string>, r: Redaction)
    ensures SameHead(Redact(ep, seen, r), ep)
  {
    hide RedactField;
  }

  lemma {:induction false} SameHeadAll(ep: ObservedEndpoint, vs: seq<Visit>)
    ensures SameHead(SeeAll(ep, vs), ep)
  {
    if vs != [] {
      hide See;
      SeeKeepsHead(SeeAll(ep, Front(vs)), Last(vs));
      SameHeadAll(ep, Front(vs));
    }
  }

  lemma {:induction false} SameHeadCut(ep: ObservedEndpoint, seen: set<string>, rs: seq<Redaction>)
    ensures SameHead(RedactAll(ep, seen, rs), ep)
  {
    if rs != [] {
      hide Redact;
      RedactKeepsHead(RedactAll(ep, seen, Front(rs)), seen, Last(rs));
      SameHeadCut(ep, seen, Front(rs));
    }
  }

  lemma {:induction false} RunHead(rs: seq<Timed>)
    requires rs != []
    ensures var e := ObserveAll(rs);
            && e.samples == |rs| && e.firstSeen == rs[0].now && e.lastSeen == Last(rs).now
            && (e.verb, e.template, e.statusClass) == (rs[0].r.verb, rs[0].r.template, StatusClass(rs[0].r.status))
            && forall code :: Says(e.statusCodes, code, Answers(rs, code))
  {
    hide ObserveEndpoint, Bump, Says;
    var last := Last(rs);
    if |rs| > 1 {
      RunHead(Front(rs));
      HeadOf(ObserveAll(Front(rs)), last.r, last.now);
      BumpedBy(ObserveAll(Front(rs)).statusCodes, CodeText(last.r.status));
      forall code ensures Says(ObserveAll(rs).statusCodes, code, Answers(rs, code)) {
        assert Says(ObserveAll(Front(rs)).statusCodes, code, Answers(Front(rs), code));
      }
    } else {
      HeadOf(NewEndpoint(last.r, last.now), last.r, last.now);
      FirstAnswer(last, rs);
    }
  }

  lemma FirstAnswer(t: Timed, rs: seq<Timed>)
    requires rs == [t]
    ensures forall code :: Says(Bump(map[], CodeText(t.r.status)), code, Answers(rs, code))
  {
    assert Front(rs) == [] && Last(rs) == t;
    forall code ensures Answers(rs, code) == if CodeText(t.r.status) == code then 1 else 0 {
      assert Answers(Front(rs), code) == 0;
    }
  }

  /** And the endpoint counts its records, in all and by status code, and has the method,
      template and class of the first and the times of the first and the last. */
  lemma EndpointCounts(rs: seq<Timed>, k: string)
    requires k in ObserveRun(rs)
    ensures var mine, e := RecordsOf(rs, k), ObserveRun(rs)[k];
            && mine != [] && e.samples == |mine| && e.firstSeen == mine[0].now && e.lastSeen == Last(mine).now
            && (e.verb, e.template, e.statusClass) == (mine[0].r.verb, mine[0].r.template, StatusClass(mine[0].r.status))
            && forall code :: Says(e.statusCodes, code, Answers(mine, code))
  {
    hide ObserveRun, RecordsOf, ObserveAll;
    EndpointIsItsRecords(rs, k);
    RunHead(RecordsOf(rs, k));
  }

  // ---- Status codes ----

  /** A code below 300 is of class 2xx and one from 500 on of class 5xx, any other of its hundred. */
  lemma StatusClassIs(status: int)
    ensures 200 <= status < 600 ==> StatusClass(status) == [('0' as int + status / 100) as char] + "xx"
    ensures status < 200 ==> StatusClass(status) == "2xx"
    ensures status >= 600 ==> StatusClass(status) == "5xx"
  {}

  /** Codes of three digits are told apart by their texts; all others are counted as 0. */
  lemma CodeTextIs(status: int)
    ensures ToNat(CodeText(status)) == if 99 < status < 1000 then status else 0
  {
    if 99 < status < 1000 { ToNatItoa(status); }
    assert ToNat("0") == 0 by { assert "0"[..0] == ""; }
  }
}
