/** What a family remembers when segments are promoted and families merge: the observations each
    table was built from, carried along with the families. */
module MergedHistory {
  import opened Baseline
  import opened FamilyHistory
  import opened Learning
  import PathGuard
  import opened Tallies
  import opened Text
  import opened Totals

  /** The observations in a family's live table, and those in its frozen reference; and for each
      of the two whether all merges on the way to it kept the strings they took over. */
  datatype Past = Past(live: seq<FamilyEvent>, reference: seq<FamilyEvent>, kept: bool, founded: bool)

  type Pasts = map<Key, Past>

  const NO_PAST: Past := Past([], [], true, true)

  // ---- The observations go where the families go ----

  /** The past of a family that takes in another. */
  function Joined(f: Family, other: Family, p: Past, q: Past): Past {
    Past(p.live + q.live, [], p.kept && q.kept && KeepsAll(f.fields, other.fields), true)
  }

  /** The key a merge files a family under. */
  function Target(c: Settings, g: PathGuard.State, f: Family): Key {
    KeyOf(f.(template := PathGuard.Applied(c.threshold, c.classify, g, f.template).out))
  }

  predicate Ordered(l: Learned, ps: Pasts, order: seq<Key>) {
    forall i | 0 <= i < |order| :: order[i] in l.families && order[i] in ps
  }

  function MergePasts(c: Settings, l: Learned, ps: Pasts, order: seq<Key>): (after: Pasts)
    requires Ordered(l, ps, order)
    ensures after.Keys == Merge(c, l, order).families.Keys
  {
    if order == [] then map[]
    else
      var past, before := MergePasts(c, l, ps, Front(order)), Merge(c, l, Front(order));
      var f, p := l.families[Last(order)], ps[Last(order)];
      var k := Target(c, before.guard, f);
      past[k := if k in past then Joined(before.families[k], f, past[k], p) else p]
  }

  ghost function RegroupedPasts(c: Settings, l: Learned, e: Event, ps: Pasts): Pasts
    requires e.Observe? && Allowed(c, l, e) && ps.Keys == l.families.Keys
  {
    var w := Guarded(c, l, e);
    if w.promo.Some? then MergePasts(c, Learned(w.state, l.families), ps, e.order) else ps
  }

  function Refounded(p: Past): Past { Past(p.live, p.live, p.kept, p.kept) }

  function PastAt(ps: Pasts, k: Key): Past { if k in ps then ps[k] else NO_PAST }

  function SeenIn(e: Event): FamilyEvent
    requires e.Observe?
  {
    Seen(e.ts, e.now, e.status, e.obs, e.admitted)
  }

  function FiledPast(c: Settings, f: Family, p: Past, e: Event): Past
    requires e.Observe?
  {
    var q := if IsWarm(c, f, e.ts) then Refounded(p) else p;
    q.(live := q.live + [SeenIn(e)])
  }

  ghost function StepPasts(c: Settings, l: Learned, e: Event, ps: Pasts): Pasts
    requires Allowed(c, l, e) && ps.Keys == l.families.Keys
  {
    match e
    case Refreeze(_, _, _) => map k | k in ps :: if Learning.Refrozen(l.families[k], e) then Refounded(ps[k]) else ps[k]
    case Observe(_, _, _, _, _, _, _, _) =>
      var r, rp, k := Regrouped(c, l, e).families, RegroupedPasts(c, l, e, ps), KeyFor(c, l, e);
      rp[k := FiledPast(c, FamilyFor(r, k, e.ts), PastAt(rp, k), e)]
  }

  // ---- What tables know ----

  predicate Small(os: seq<FamilyEvent>) { |Paths(os)| <= FIELD_TRACK_CAP }

  ghost predicate AllSeen(os: seq<FamilyEvent>) { forall i | 0 <= i < |os| :: os[i].Seen? }

  /** Statuses are counted; under the cap so are all fields and types, and, where no merge on the
      way forgot any, the strings listed. */
  ghost predicate Knows(c: Settings, t: Table, codes: map<int, nat>, os: seq<FamilyEvent>, kept: bool) {
    && CountsCodes(codes, os)
    && (Small(os) ==> t.Keys == Paths(os) && CountsTable(t, os) && (kept ==> ListsTable(t, os, c.volatile)))
  }

  /** The live table knows all it was built from; a frozen reference knows the first of them. */
  ghost predicate BuiltFrom(c: Settings, f: Family, p: Past) {
    && AllSeen(p.live) && f.samples == |p.live| && Knows(c, f.fields, f.statusCodes, p.live, p.kept)
    && (f.frozen ==>
          f.reference.Some? && f.frozenSamples == |p.reference| && p.reference <= p.live
          && Knows(c, f.reference.value, f.refStatusCodes, p.reference, p.founded))
  }

  lemma {:induction false} PathsAppend(a: seq<FamilyEvent>, b: seq<FamilyEvent>)
    ensures Paths(a + b) == Paths(a) + Paths(b)
  {
    if b == [] {
      assert a + b == a;
    } else {
      PathsAppend(a, Front(b));
      assert Front(a + b) == a + Front(b);
    }
  }

  lemma SmallParts(a: seq<FamilyEvent>, b: seq<FamilyEvent>)
    requires Small(a + b)
    ensures Small(a) && Small(b)
  {
    PathsAppend(a, b);
    PathGuard.SubsetSize(Paths(a), Paths(a + b));
    PathGuard.SubsetSize(Paths(b), Paths(a + b));
  }

  lemma PathsSnoc(os: seq<FamilyEvent>, e: FamilyEvent)
    requires e.Seen?
    ensures Paths(os + [e]) == Paths(os) + e.obs.Keys
  {
    assert Front(os + [e]) == os;
  }

  lemma RecordKnows(c: Settings, t: Table, codes: map<int, nat>, os: seq<FamilyEvent>, e: FamilyEvent, kept: bool)
    requires Knows(c, t, codes, os, kept) && e.Seen? && MayAdmit(t, e.obs, e.admitted)
    ensures Knows(c, RecordFields(t, e.obs, e.admitted, c.volatile), Bump(codes, e.status), os + [e], kept)
  {
    hide RecordFields, CountsTable, ListsTable, CountsCodes, MayAdmit, Paths, Bump;
    CodesCounted(codes, os, e);
    if Small(os + [e]) {
      SmallParts(os, [e]);
      PathsSnoc(os, e);
      AllAdmitted(t, e.obs, e.admitted);
      RecordedKeys(c, t, e);
      RecordCounts(t, os, e, c.volatile);
      if kept { RecordLists(t, os, e, c.volatile); }
    }
  }

  lemma RecordedKeys(c: Settings, t: Table, e: FamilyEvent)
    requires e.Seen?
    ensures RecordFields(t, e.obs, e.admitted, c.volatile).Keys == t.Keys + e.admitted * e.obs.Keys
  {
    hide RecordField;
  }

  lemma AbsorbKnows(c: Settings, t: Table, other: Table, codes: map<int, nat>, more: map<int, nat>,
                    a: seq<FamilyEvent>, b: seq<FamilyEvent>, kept: bool)
    requires Knows(c, t, codes, a, kept) && Knows(c, other, more, b, kept) && (kept ==> KeepsAll(t, other))
    ensures Knows(c, AbsorbFields(t, other), Plus(codes, more), a + b, kept)
  {
    hide CountsTable, ListsTable, CountsCodes, Paths, Plus, KeepsAll;
    AbsorbCodes(codes, more, a, b);
    if Small(a + b) {
      SmallParts(a, b);
      PathsAppend(a, b);
      AbsorbedKeys(t, other);
      hide AbsorbFields;
      AbsorbCounts(t, other, a, b);
      if kept { AbsorbLists(t, other, a, b, c.volatile); }
    }
  }

  lemma AbsorbedKeys(t: Table, other: Table)
    ensures AbsorbFields(t, other).Keys == t.Keys + other.Keys
  {
    hide AbsorbStats;
  }

  lemma Weaker(c: Settings, t: Table, codes: map<int, nat>, os: seq<FamilyEvent>, kept: bool, more: bool)
    requires Knows(c, t, codes, os, more) && (kept ==> more)
    ensures Knows(c, t, codes, os, kept)
  {}

  /** What a table knows of it remembers. */
  lemma KnowsEach(c: Settings, t: Table, codes: map<int, nat>, os: seq<FamilyEvent>, i: nat)
    requires Knows(c, t, codes, os, true) && Small(os) && i < |os| && os[i].Seen?
    ensures RemembersAll(t, os[i].obs) && os[i].status in codes
  {
    hide Small, Paths, Strings, Says, Shows, Remembers;
    var obs := os[i].obs;
    Shown(os, i, Answered(os[i].status));
    assert Says(codes, os[i].status, Count(os, Answered(os[i].status)));
    InCodes(codes, os[i].status, Count(os, Answered(os[i].status)));
    hide Count;
    forall p | p in obs ensures p in t && Remembers(t[p], obs[p]) {
      assert CountsField(StatsAt(t, p), os, p) && ListsField(StatsAt(t, p), os, p, c.volatile(p));
      FieldRemembers(StatsAt(t, p), os, i, p, c.volatile(p));
    }
  }

  // ---- Every step keeps the fit ----

  lemma FreezeFits(c: Settings, f: Family, p: Past, at: int)
    requires BuiltFrom(c, f, p)
    ensures BuiltFrom(c, Freeze(f, at), Refounded(p))
  {
    hide Knows;
  }

  lemma RecordFits(c: Settings, f: Family, p: Past, e: Event)
    requires BuiltFrom(c, f, p) && e.Observe? && MayAdmit(f.fields, e.obs, e.admitted)
    ensures BuiltFrom(c, Record(f, e.ts, e.status, e.obs, e.admitted, c.volatile), p.(live := p.live + [SeenIn(e)]))
  {
    hide Knows, RecordFields, Bump, MayAdmit;
    RecordKnows(c, f.fields, f.statusCodes, p.live, SeenIn(e), p.kept);
  }

  lemma FiledFits(c: Settings, f: Family, p: Past, e: Event)
    requires BuiltFrom(c, f, p) && e.Observe? && MayAdmit(f.fields, e.obs, e.admitted)
    ensures BuiltFrom(c, Learning.Filed(c, f, e), FiledPast(c, f, p, e))
  {
    var g := Warmed(c, f, e.ts, e.now);
    assert g.fields == f.fields;
    hide BuiltFrom, Record, MayAdmit;
    if IsWarm(c, f, e.ts) {
      FreezeFits(c, f, p, e.now);
      hide Freeze;
      RecordFits(c, g, Refounded(p), e);
    } else {
      RecordFits(c, f, p, e);
    }
  }

  lemma AbsorbFits(c: Settings, f: Family, other: Family, p: Past, q: Past)
    requires BuiltFrom(c, f, p) && BuiltFrom(c, other, q)
    ensures BuiltFrom(c, Absorb(f, other), Joined(f, other, p, q))
  {
    hide Knows, AbsorbFields, Plus, KeepsAll;
    var kept := Joined(f, other, p, q).kept;
    Weaker(c, f.fields, f.statusCodes, p.live, kept, p.kept);
    Weaker(c, other.fields, other.statusCodes, q.live, kept, q.kept);
    AbsorbKnows(c, f.fields, other.fields, f.statusCodes, other.statusCodes, p.live, q.live, kept);
  }

  ghost predicate AllFit(c: Settings, fs: Families, ps: Pasts) { ps.Keys == fs.Keys && forall k | k in fs :: BuiltFrom(c, fs[k], ps[k]) }

  lemma MovedFits(c: Settings, f: Family, p: Past, template: PathGuard.Path)
    requires BuiltFrom(c, f, p)
    ensures BuiltFrom(c, f.(template := template), p)
  {
    hide Knows;
  }

  lemma OneMergeFits(c: Settings, before: Learned, f: Family, past: Pasts, p: Past)
    requires AllFit(c, before.families, past) && BuiltFrom(c, f, p)
    ensures var k := Target(c, before.guard, f);
            AllFit(c, MergeOne(c, before, f).families, past[k := if k in past then Joined(before.families[k], f, past[k], p) else p])
  {
    hide BuiltFrom, PathGuard.Applied, Absorb, Joined;
    var k := Target(c, before.guard, f);
    if k in before.families {
      AbsorbFits(c, before.families[k], f, past[k], p);
    } else {
      MovedFits(c, f, p, k.template);
    }
  }

  lemma {:induction false} MergeFits(c: Settings, l: Learned, ps: Pasts, order: seq<Key>)
    requires AllFit(c, l.families, ps) && Ordered(l, ps, order)
    ensures AllFit(c, Merge(c, l, order).families, MergePasts(c, l, ps, order))
  {
    if order != [] {
      hide BuiltFrom, PathGuard.Applied, MergeOne, Target, Joined;
      MergeFits(c, l, ps, Front(order));
      OneMergeFits(c, Merge(c, l, Front(order)), l.families[Last(order)], MergePasts(c, l, ps, Front(order)), ps[Last(order)]);
    }
  }

  lemma RegroupedFits(c: Settings, l: Learned, e: Event, ps: Pasts)
    requires e.Observe? && Allowed(c, l, e) && AllFit(c, l.families, ps)
    ensures AllFit(c, Regrouped(c, l, e).families, RegroupedPasts(c, l, e, ps))
  {
    hide BuiltFrom, Merge, MergePasts, PathGuard.Applied, MayAdmit;
    if Guarded(c, l, e).promo.Some? {
      MergeFits(c, Learned(Guarded(c, l, e).state, l.families), ps, e.order);
    }
  }

  lemma NewFits(c: Settings, k: Key, ts: int)
    ensures BuiltFrom(c, NewFamily(k, ts), NO_PAST)
  {}

  lemma RefreezeFits(c: Settings, fs: Families, e: Event, ps: Pasts)
    requires e.Refreeze? && AllFit(c, fs, ps)
    ensures AllFit(c, RefreezeAll(fs, e), map k | k in ps :: if Learning.Refrozen(fs[k], e) then Refounded(ps[k]) else ps[k])
  {
    hide BuiltFrom, Freeze;
    forall k | k in fs && Learning.Refrozen(fs[k], e) ensures BuiltFrom(c, Freeze(fs[k], e.now), Refounded(ps[k])) {
      FreezeFits(c, fs[k], ps[k], e.now);
    }
  }

  lemma ObserveFits(c: Settings, r: Families, rp: Pasts, k: Key, e: Event)
    requires e.Observe? && AllFit(c, r, rp) && MayAdmit(FamilyFor(r, k, e.ts).fields, e.obs, e.admitted)
    ensures AllFit(c, r[k := Learning.Filed(c, FamilyFor(r, k, e.ts), e)], rp[k := FiledPast(c, FamilyFor(r, k, e.ts), PastAt(rp, k), e)])
  {
    hide BuiltFrom, MayAdmit, Learning.Filed, FiledPast;
    NewFits(c, k, e.ts);
    FiledFits(c, FamilyFor(r, k, e.ts), PastAt(rp, k), e);
  }

  lemma StepFits(c: Settings, l: Learned, e: Event, ps: Pasts)
    requires Allowed(c, l, e) && AllFit(c, l.families, ps)
    ensures AllFit(c, Step(c, l, e).families, StepPasts(c, l, e, ps))
  {
    hide BuiltFrom, Regrouped, RegroupedPasts, MayAdmit, Learning.Filed, FiledPast, Guarded, FamilyFor, KeyFor, RefreezeAll;
    if e.Refreeze? {
      RefreezeFits(c, l.families, e, ps);
    } else {
      RegroupedFits(c, l, e, ps);
      ObserveFits(c, Regrouped(c, l, e).families, RegroupedPasts(c, l, e, ps), KeyFor(c, l, e), e);
    }
  }

  /** What the families of a run were built from. */
  ghost function PastsOf(c: Settings, es: seq<Event>): (ps: Pasts)
    requires Runs(c, es)
    ensures ps.Keys == Learning.After(c, es).families.Keys
  {
    if es == [] then map[]
    else
      var l, ps := Learning.After(c, Front(es)), PastsOf(c, Front(es));
      StepKeys(c, l, Last(es), ps);
      StepPasts(c, l, Last(es), ps)
  }

  lemma RegroupedKeys(c: Settings, l: Learned, e: Event, ps: Pasts)
    requires e.Observe? && Allowed(c, l, e) && ps.Keys == l.families.Keys
    ensures RegroupedPasts(c, l, e, ps).Keys == Regrouped(c, l, e).families.Keys
  {
    hide Merge, MergePasts, PathGuard.Applied, MayAdmit;
  }

  lemma StepKeys(c: Settings, l: Learned, e: Event, ps: Pasts)
    requires Allowed(c, l, e) && ps.Keys == l.families.Keys
    ensures StepPasts(c, l, e, ps).Keys == Step(c, l, e).families.Keys
  {
    hide Regrouped, RegroupedPasts, MayAdmit, Learning.Filed, FiledPast, Guarded, FamilyFor, KeyFor;
    if e.Observe? { RegroupedKeys(c, l, e, ps); }
  }

  lemma {:induction false} RunFits(c: Settings, es: seq<Event>)
    requires Runs(c, es)
    ensures AllFit(c, Learning.After(c, es).families, PastsOf(c, es))
  {
    if es != [] {
      hide Allowed, Step, StepPasts, BuiltFrom;
      RunFits(c, Front(es));
      StepFits(c, Learning.After(c, Front(es)), Last(es), PastsOf(c, Front(es)));
    }
  }

  // ---- No observation drops out ----

  ghost predicate Held(ps: Pasts, o: FamilyEvent) { exists k | k in ps :: o in ps[k].live }

  lemma {:induction false} MergeHolds(c: Settings, l: Learned, ps: Pasts, order: seq<Key>, i: nat, o: FamilyEvent)
    requires Ordered(l, ps, order) && i < |order| && o in ps[order[i]].live
    ensures Held(MergePasts(c, l, ps, order), o)
  {
    hide Target, Merge;
    var before := MergePasts(c, l, ps, Front(order));
    var k := Target(c, Merge(c, l, Front(order)).guard, l.families[Last(order)]);
    var after := MergePasts(c, l, ps, order);
    if i < |order| - 1 {
      MergeHolds(c, l, ps, Front(order), i, o);
      var k' :| k' in before && o in before[k'].live;
      assert o in after[k'].live;
    } else {
      assert o in after[k].live;
    }
  }

  lemma RegroupedHolds(c: Settings, l: Learned, e: Event, ps: Pasts, o: FamilyEvent)
    requires e.Observe? && Allowed(c, l, e) && ps.Keys == l.families.Keys && Held(ps, o)
    ensures Held(RegroupedPasts(c, l, e, ps), o)
  {
    hide MergePasts, PathGuard.Applied, MayAdmit;
    if Guarded(c, l, e).promo.Some? {
      var k :| k in ps && o in ps[k].live;
      assert k in e.order;
      var i :| 0 <= i < |e.order| && e.order[i] == k;
      MergeHolds(c, Learned(Guarded(c, l, e).state, l.families), ps, e.order, i, o);
    }
  }

  lemma FiledHolds(ps: Pasts, k: Key, p: Past, o: FamilyEvent)
    requires Held(ps, o) || o in p.live
    requires forall x | x in PastAt(ps, k).live :: x in p.live
    ensures Held(ps[k := p], o)
  {
    if o in p.live {
      assert o in ps[k := p][k].live;
    } else {
      var k' :| k' in ps && o in ps[k'].live;
      assert o in ps[k := p][k'].live;
    }
  }

  lemma StepHolds(c: Settings, l: Learned, e: Event, ps: Pasts, o: FamilyEvent)
    requires Allowed(c, l, e) && ps.Keys == l.families.Keys && (Held(ps, o) || (e.Observe? && o == SeenIn(e)))
    ensures Held(StepPasts(c, l, e, ps), o)
  {
    hide Regrouped, RegroupedPasts, MayAdmit, FamilyFor, KeyFor, Guarded;
    if e.Refreeze? {
      var k :| k in ps && o in ps[k].live;
      assert o in StepPasts(c, l, e, ps)[k].live;
    } else {
      hide Held;
      if Held(ps, o) { RegroupedHolds(c, l, e, ps, o); }
      var r, rp, k := Regrouped(c, l, e).families, RegroupedPasts(c, l, e, ps), KeyFor(c, l, e);
      FiledHolds(rp, k, FiledPast(c, FamilyFor(r, k, e.ts), PastAt(rp, k), e), o);
    }
  }

  /** Each observation of a run is in the past of some family, however families merged. */
  lemma {:induction false} EveryObservationHeld(c: Settings, es: seq<Event>, i: nat)
    requires Runs(c, es) && i < |es| && es[i].Observe?
    ensures Held(PastsOf(c, es), SeenIn(es[i]))
  {
    hide Allowed, Step, StepPasts, Held;
    if i < |es| - 1 { EveryObservationHeld(c, Front(es), i); }
    StepHolds(c, Learning.After(c, Front(es)), Last(es), PastsOf(c, Front(es)), SeenIn(es[i]));
  }

  /** The newest observation is the last one of the family of its verb, its guarded path and its
      status class. */
  lemma FiledUnder(c: Settings, es: seq<Event>)
    requires es != [] && Runs(c, es) && Last(es).Observe?
    ensures var e, l := Last(es), Learning.After(c, Front(es));
            var k := Key(e.verb, PathGuard.Applied(c.threshold, c.classify, l.guard, e.path).out, StatusClass(e.status));
            && k in PastsOf(c, es) && PastsOf(c, es)[k].live != [] && Last(PastsOf(c, es)[k].live) == SeenIn(e)
            && k in Learning.After(c, es).families && Learning.After(c, es).families[k].lastSeen == e.ts
  {
    hide PathGuard.Applied, MayAdmit, Regrouped, RegroupedPasts, IsWarm, Freeze, RecordFields;
  }
}
