/** The learner: observations filed under their guarded template, families merged in any order
    whenever a segment is promoted. */
module Learning {
  import opened Baseline
  import opened PathGuard
  import opened Text
  import opened Totals

  type Families = map<Key, Family>

  /** Configuration, and the parts of it this model leaves open. */
  datatype Settings = Settings(
    threshold: nat, classify: string -> string, volatile: string -> bool, minSamples: int, minAge: int)

  datatype Learned = Learned(guard: State, families: Families)

  /** `order` is the order a merge walks the families in, `admitted` the new fields recorded. */
  datatype Event =
    | Observe(verb: string, path: Path, status: int, obs: Fields, ts: int, now: int,
              order: seq<Key>, admitted: set<string>)
    | Refreeze(refrozen: string, template: Path, now: int)

  const NOTHING: Learned := Learned(EMPTY, map[])

  // ---- Steps ----

  function MergeOne(c: Settings, l: Learned, f: Family): Learned {
    var w := Applied(c.threshold, c.classify, l.guard, f.template);
    var moved := f.(template := w.out);
    var k := KeyOf(moved);
    Learned(w.state, l.families[k := if k in l.families then Absorb(l.families[k], f) else moved])
  }

  function Merge(c: Settings, l: Learned, order: seq<Key>): Learned
    requires forall i | 0 <= i < |order| :: order[i] in l.families
  {
    if order == [] then Learned(l.guard, map[])
    else MergeOne(c, Merge(c, l, Front(order)), l.families[Last(order)])
  }

  ghost predicate Lists(order: seq<Key>, fs: Families) {
    && (forall i | 0 <= i < |order| :: order[i] in fs)
    && (forall i, j | 0 <= i < j < |order| :: order[i] != order[j])
    && (forall k | k in fs :: k in order)
  }

  function Guarded(c: Settings, l: Learned, e: Event): Walk
    requires e.Observe?
  {
    Applied(c.threshold, c.classify, l.guard, e.path)
  }

  /** The families once the path is guarded and a promotion has been followed up. */
  function Regrouped(c: Settings, l: Learned, e: Event): Learned
    requires e.Observe? && forall i | 0 <= i < |e.order| :: e.order[i] in l.families
  {
    var w := Guarded(c, l, e);
    if w.promo.Some? then Merge(c, Learned(w.state, l.families), e.order) else Learned(w.state, l.families)
  }

  function KeyFor(c: Settings, l: Learned, e: Event): Key
    requires e.Observe?
  {
    Key(e.verb, Guarded(c, l, e).out, StatusClass(e.status))
  }

  function NewFamily(k: Key, ts: int): Family {
    Family(k.verb, k.template, k.statusClass, 0, ts, ZERO_TIME, map[], map[], map[], false, None, ZERO_TIME, 0)
  }

  function FamilyFor(fs: Families, k: Key, ts: int): Family { if k in fs then fs[k] else NewFamily(k, ts) }

  predicate IsWarm(c: Settings, f: Family, ts: int) {
    !f.frozen && f.samples >= c.minSamples && ts - f.firstSeen >= c.minAge
  }

  /** A family warm enough freezes before it takes the observation. */
  function Warmed(c: Settings, f: Family, ts: int, now: int): Family { if IsWarm(c, f, ts) then Freeze(f, now) else f }

  predicate Refrozen(f: Family, e: Event)
    requires e.Refreeze?
  {
    f.verb == e.refrozen && f.template == e.template && f.frozen
  }

  function Filed(c: Settings, f: Family, e: Event): Family
    requires e.Observe?
  {
    Record(Warmed(c, f, e.ts, e.now), e.ts, e.status, e.obs, e.admitted, c.volatile)
  }

  function RefrozenKeys(fs: Families, e: Event): set<Key>
    requires e.Refreeze?
  {
    set k | k in fs && Refrozen(fs[k], e)
  }

  function RefreezeAll(fs: Families, e: Event): Families
    requires e.Refreeze?
  {
    map k | k in fs :: if Refrozen(fs[k], e) then Freeze(fs[k], e.now) else fs[k]
  }

  ghost predicate Allowed(c: Settings, l: Learned, e: Event) {
    e.Observe? ==>
      (if Guarded(c, l, e).promo.Some? then Lists(e.order, l.families) else e.order == [])
      && MayAdmit(FamilyFor(Regrouped(c, l, e).families, KeyFor(c, l, e), e.ts).fields, e.obs, e.admitted)
  }

  ghost function Step(c: Settings, l: Learned, e: Event): Learned
    requires Allowed(c, l, e)
  {
    match e
    case Refreeze(_, _, _) => l.(families := RefreezeAll(l.families, e))
    case Observe(_, _, _, _, _, _, _, _) =>
      var r, k := Regrouped(c, l, e), KeyFor(c, l, e);
      r.(families := r.families[k := Filed(c, FamilyFor(r.families, k, e.ts), e)])
  }

  ghost predicate Runs(c: Settings, es: seq<Event>)
    decreases |es|, 0
  {
    es == [] || (Runs(c, Front(es)) && Allowed(c, After(c, Front(es)), Last(es)))
  }

  ghost function After(c: Settings, es: seq<Event>): Learned
    requires Runs(c, es)
    decreases |es|, 1
  {
    if es == [] then NOTHING else Step(c, After(c, Front(es)), Last(es))
  }

  // ---- Nothing observed is lost or counted twice ----

  function SamplesBy(fs: Families): map<Key, nat> { map k | k in fs :: fs[k].samples }

  ghost function Samples(fs: Families): nat { Total(SamplesBy(fs)) }

  function SumOver(fs: Families, order: seq<Key>): nat
    requires forall i | 0 <= i < |order| :: order[i] in fs
  {
    if order == [] then 0 else SumOver(fs, Front(order)) + fs[Last(order)].samples
  }

  ghost predicate Inv(fs: Families) { forall k | k in fs :: KeyOf(fs[k]) == k && FamilyOk(fs[k]) }

  lemma SamplesUpdate(fs: Families, k: Key, f: Family)
    ensures Samples(fs[k := f]) == Samples(fs) - (if k in fs then fs[k].samples else 0) + f.samples
  {
    TotalUpdate(SamplesBy(fs), k, f.samples);
    assert SamplesBy(fs[k := f]) == SamplesBy(fs)[k := f.samples];
  }

  lemma {:induction false} SumOverAll(fs: Families, order: seq<Key>)
    requires Lists(order, fs)
    ensures SumOver(fs, order) == Samples(fs)
  {
    if order == [] {
      assert SamplesBy(fs) == map[];
    } else {
      ListsFront(order, fs);
      hide Lists, Samples;
      var k := Last(order);
      var rest := fs - {k};
      SumOverAll(rest, Front(order));
      SumOverSame(fs, rest, Front(order));
      SamplesUpdate(rest, k, fs[k]);
      assert rest[k := fs[k]] == fs;
    }
  }

  lemma ListsFront(order: seq<Key>, fs: Families)
    requires Lists(order, fs) && order != []
    ensures Last(order) in fs && Lists(Front(order), fs - {Last(order)})
    ensures forall i | 0 <= i < |Front(order)| :: Front(order)[i] in fs - {Last(order)}
  {}

  lemma {:induction false} SumOverSame(fs: Families, gs: Families, order: seq<Key>)
    requires forall i | 0 <= i < |order| :: order[i] in fs && order[i] in gs && fs[order[i]] == gs[order[i]]
    ensures SumOver(fs, order) == SumOver(gs, order)
  {
    if order != [] { SumOverSame(fs, gs, Front(order)); }
  }

  lemma MergeOneKeeps(c: Settings, l: Learned, f: Family)
    requires Inv(l.families) && FamilyOk(f)
    ensures var m := MergeOne(c, l, f); Inv(m.families) && Samples(m.families) == Samples(l.families) + f.samples
  {
    hide FamilyOk, Applied, Samples;
    var w := Applied(c.threshold, c.classify, l.guard, f.template);
    var moved := f.(template := w.out);
    var k := KeyOf(moved);
    MovedOk(f, w.out);
    if k in l.families {
      AbsorbOk(l.families[k], f);
      SamplesUpdate(l.families, k, Absorb(l.families[k], f));
    } else {
      SamplesUpdate(l.families, k, moved);
    }
  }

  lemma MovedOk(f: Family, template: Path)
    requires FamilyOk(f)
    ensures FamilyOk(f.(template := template))
  {}

  lemma {:induction false} MergeKeeps(c: Settings, l: Learned, order: seq<Key>)
    requires Inv(l.families) && forall i | 0 <= i < |order| :: order[i] in l.families
    ensures var m := Merge(c, l, order); Inv(m.families) && Samples(m.families) == SumOver(l.families, order)
  {
    if order == [] {
      assert SamplesBy(map[]) == map[];
    } else {
      hide MergeOne, Samples;
      MergeKeeps(c, l, Front(order));
      MergeOneKeeps(c, Merge(c, l, Front(order)), l.families[Last(order)]);
    }
  }

  lemma RegroupedKeeps(c: Settings, l: Learned, e: Event)
    requires Inv(l.families) && e.Observe? && Allowed(c, l, e)
    ensures var r := Regrouped(c, l, e); Inv(r.families) && Samples(r.families) == Samples(l.families)
  {
    hide Inv, Samples, Merge, Applied, Lists;
    if Guarded(c, l, e).promo.Some? {
      ListsAre(e.order, l.families);
      MergeKeeps(c, Learned(Guarded(c, l, e).state, l.families), e.order);
      SumOverAll(l.families, e.order);
    }
  }

  lemma ListsAre(order: seq<Key>, fs: Families)
    requires Lists(order, fs)
    ensures forall i | 0 <= i < |order| :: order[i] in fs
  {}

  lemma FiledOk(c: Settings, f: Family, e: Event)
    requires e.Observe? && FamilyOk(f)
    ensures FamilyOk(Filed(c, f, e)) && KeyOf(Filed(c, f, e)) == KeyOf(f) && Filed(c, f, e).samples == f.samples + 1
  {
    var g := Warmed(c, f, e.ts, e.now);
    assert FamilyOk(g);
    hide FamilyOk;
    RecordOk(g, e.ts, e.status, e.obs, e.admitted, c.volatile);
  }

  lemma FamilyForOk(fs: Families, k: Key, ts: int)
    requires Inv(fs)
    ensures FamilyOk(FamilyFor(fs, k, ts)) && KeyOf(FamilyFor(fs, k, ts)) == k
    ensures FamilyFor(fs, k, ts).samples == if k in fs then fs[k].samples else 0
  {}

  lemma RefreezeKeeps(fs: Families, e: Event)
    requires Inv(fs) && e.Refreeze?
    ensures Inv(RefreezeAll(fs, e)) && Samples(RefreezeAll(fs, e)) == Samples(fs)
  {
    assert SamplesBy(RefreezeAll(fs, e)) == SamplesBy(fs);
  }

  lemma StepKeeps(c: Settings, l: Learned, e: Event)
    requires Inv(l.families) && Allowed(c, l, e)
    ensures var l' := Step(c, l, e);
            Inv(l'.families) && Samples(l'.families) == Samples(l.families) + if e.Observe? then 1 else 0
  {
    if e.Refreeze? {
      hide Inv, Samples;
      RefreezeKeeps(l.families, e);
    } else {
      hide Samples, FamilyOk, Allowed, Regrouped, FamilyFor, Filed, KeyFor, Guarded;
      var r, k := Regrouped(c, l, e), KeyFor(c, l, e);
      RegroupedKeeps(c, l, e);
      FamilyForOk(r.families, k, e.ts);
      FiledOk(c, FamilyFor(r.families, k, e.ts), e);
      SamplesUpdate(r.families, k, Filed(c, FamilyFor(r.families, k, e.ts), e));
    }
  }

  function Observations(es: seq<Event>): nat {
    if es == [] then 0 else Observations(Front(es)) + if Last(es).Observe? then 1 else 0
  }

  /** Over every run, with merges in whatever order: the families' samples add up to the
      observations made, every family is filed under its own key, its status codes add up to
      its samples, and each of its fields was counted once per type and at most once a sample. */
  lemma {:induction false} EveryObservationCountedOnce(c: Settings, es: seq<Event>)
    requires Runs(c, es)
    ensures var fs := After(c, es).families;
            Samples(fs) == Observations(es) && forall k | k in fs :: KeyOf(fs[k]) == k && FamilyOk(fs[k])
  {
    if es == [] {
      assert SamplesBy(map[]) == map[];
    } else {
      hide Samples, FamilyOk, Step, Allowed;
      EveryObservationCountedOnce(c, Front(es));
      StepKeeps(c, After(c, Front(es)), Last(es));
    }
  }
}
