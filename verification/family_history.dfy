/** What a family remembers: its live table is the fold of all its observations, and its frozen
    reference the fold of the first of them. */
module FamilyHistory {
  import opened Baseline
  import opened Learning
  import PathGuard
  import opened Text
  import opened Totals

  /** What happens to one family. */
  datatype FamilyEvent =
    | Seen(ts: int, now: int, status: int, obs: Fields, admitted: set<string>)
    | Refrozen(now: int)

  /** The family under key `k` after its own events, when no merge touches it. */
  function FamilyAfter(c: Settings, k: Key, es: seq<FamilyEvent>): Option<Family> {
    if es == [] then None else FamilyStep(c, k, FamilyAfter(c, k, Front(es)), Last(es))
  }

  function FamilyStep(c: Settings, k: Key, f: Option<Family>, e: FamilyEvent): Option<Family> {
    match e
    case Refrozen(now) => if f.Some? && f.value.frozen then Some(Freeze(f.value, now)) else f
    case Seen(ts, now, status, obs, admitted) =>
      var g := if f.Some? then f.value else NewFamily(k, ts);
      Some(Record(Warmed(c, g, ts, now), ts, status, obs, admitted, c.volatile))
  }

  // ---- A learner that never merges is one history per family ----

  ghost predicate NoMerge(c: Settings, es: seq<Event>)
    requires Runs(c, es)
  {
    es == [] || (NoMerge(c, Front(es)) && (Last(es).Observe? ==> Guarded(c, After(c, Front(es)), Last(es)).promo.None?))
  }

  ghost function EventFor(c: Settings, l: Learned, e: Event, k: Key): seq<FamilyEvent> {
    match e
    case Observe(_, _, status, obs, ts, now, _, admitted) =>
      if KeyFor(c, l, e) == k then [Seen(ts, now, status, obs, admitted)] else []
    case Refreeze(verb, template, now) => if k.verb == verb && k.template == template then [Refrozen(now)] else []
  }

  ghost function EventsFor(c: Settings, es: seq<Event>, k: Key): seq<FamilyEvent>
    requires Runs(c, es)
  {
    if es == [] then [] else EventsFor(c, Front(es), k) + EventFor(c, After(c, Front(es)), Last(es), k)
  }

  function Lookup(fs: Families, k: Key): Option<Family> { if k in fs then Some(fs[k]) else None }

  ghost predicate Filed(fs: Families) { forall k | k in fs :: KeyOf(fs[k]) == k }

  lemma StepForOne(c: Settings, l: Learned, e: Event, k: Key)
    requires Allowed(c, l, e) && Filed(l.families) && (e.Observe? ==> Guarded(c, l, e).promo.None?)
    ensures var l' := Step(c, l, e).families;
            Lookup(l', k) == if EventFor(c, l, e, k) == [] then Lookup(l.families, k)
                             else FamilyStep(c, k, Lookup(l.families, k), EventFor(c, l, e, k)[0])
  {
    hide MayAdmit, Record, Freeze, Warmed, PathGuard.Applied;
  }

  /** Without merges every family is the fold of the events that concern it. */
  lemma {:induction false} LearnerIsHistories(c: Settings, es: seq<Event>, k: Key)
    requires Runs(c, es) && NoMerge(c, es)
    ensures Lookup(After(c, es).families, k) == FamilyAfter(c, k, EventsFor(c, es, k))
  {
    if es != [] {
      hide Allowed, Step, FamilyStep, EventFor;
      var l, e := After(c, Front(es)), Last(es);
      LearnerIsHistories(c, Front(es), k);
      AllFiled(c, Front(es));
      StepForOne(c, l, e, k);
      AppendEvent(c, k, EventsFor(c, Front(es), k), EventFor(c, l, e, k));
      OneEvent(c, l, e, k);
    }
  }

  lemma OneEvent(c: Settings, l: Learned, e: Event, k: Key)
    ensures |EventFor(c, l, e, k)| <= 1
  {}

  lemma AllFiled(c: Settings, es: seq<Event>)
    requires Runs(c, es)
    ensures Filed(After(c, es).families)
  {
    EveryObservationCountedOnce(c, es);
  }

  lemma AppendEvent(c: Settings, k: Key, es: seq<FamilyEvent>, more: seq<FamilyEvent>)
    requires |more| <= 1
    ensures FamilyAfter(c, k, es + more)
            == if more == [] then FamilyAfter(c, k, es) else FamilyStep(c, k, FamilyAfter(c, k, es), more[0])
  {
    if more == [] { assert es + more == es; } else { assert Front(es + more) == es; }
  }

  // ---- Live tables and references are folds ----

  /** The observations among the events, in order. */
  function Taken(es: seq<FamilyEvent>): seq<FamilyEvent> {
    if es == [] then [] else Taken(Front(es)) + if Last(es).Seen? then [Last(es)] else []
  }

  function Learnt(c: Settings, os: seq<FamilyEvent>): Table {
    if os == [] then map[]
    else if Last(os).Seen? then RecordFields(Learnt(c, Front(os)), Last(os).obs, Last(os).admitted, c.volatile)
    else Learnt(c, Front(os))
  }

  function Codes(os: seq<FamilyEvent>): map<int, nat> {
    if os == [] then map[]
    else if Last(os).Seen? then Bump(Codes(Front(os)), Last(os).status)
    else Codes(Front(os))
  }

  /** The live table folds all observations; a frozen reference folds the first `frozenSamples`. */
  ghost predicate IsFold(c: Settings, f: Family, os: seq<FamilyEvent>) {
    && f.samples == |os| && f.fields == Learnt(c, os) && f.statusCodes == Codes(os)
    && (f.frozen ==> f.frozenSamples <= |os| && f.reference == Some(Learnt(c, os[..f.frozenSamples]))
                     && f.refStatusCodes == Codes(os[..f.frozenSamples]))
    && (!f.frozen ==> f.reference == None && f.refStatusCodes == map[])
  }

  lemma FreezeIsFold(c: Settings, f: Family, os: seq<FamilyEvent>, at: int)
    requires IsFold(c, f, os)
    ensures IsFold(c, Freeze(f, at), os)
  {
    assert os[..|os|] == os;
  }

  lemma RecordIsFold(c: Settings, f: Family, os: seq<FamilyEvent>, e: FamilyEvent)
    requires IsFold(c, f, os) && e.Seen?
    ensures IsFold(c, Record(f, e.ts, e.status, e.obs, e.admitted, c.volatile), os + [e])
  {
    hide RecordFields, Bump;
    assert Front(os + [e]) == os;
    if f.frozen { assert (os + [e])[..f.frozenSamples] == os[..f.frozenSamples]; }
  }

  /** The frozen reference is exactly the fold of the first `frozenSamples` observations. */
  lemma {:induction false} FamilyIsFold(c: Settings, k: Key, es: seq<FamilyEvent>)
    ensures var f := FamilyAfter(c, k, es); if f.Some? then IsFold(c, f.value, Taken(es)) else Taken(es) == []
  {
    if es != [] {
      FamilyIsFold(c, k, Front(es));
      hide IsFold, Record, Freeze, FamilyAfter, NewFamily;
      var e, f := Last(es), FamilyAfter(c, k, Front(es));
      UnfoldFamily(c, k, es);
      if e.Refrozen? {
        assert Taken(es) == Taken(Front(es));
        if f.Some? && f.value.frozen { FreezeIsFold(c, f.value, Taken(Front(es)), e.now); }
      } else {
        NewIsFold(c, k, e.ts);
        var g := if f.Some? then f.value else NewFamily(k, e.ts);
        if Warmed(c, g, e.ts, e.now) != g { FreezeIsFold(c, g, Taken(Front(es)), e.now); }
        RecordIsFold(c, Warmed(c, g, e.ts, e.now), Taken(Front(es)), e);
      }
    }
  }

  lemma UnfoldFamily(c: Settings, k: Key, es: seq<FamilyEvent>)
    requires es != []
    ensures FamilyAfter(c, k, es) == FamilyStep(c, k, FamilyAfter(c, k, Front(es)), Last(es))
  {}

  lemma NewIsFold(c: Settings, k: Key, ts: int)
    ensures IsFold(c, NewFamily(k, ts), [])
  {}

  /** What a judgement reads of a family. */
  datatype Frozen = Frozen(reference: Option<Table>, refStatusCodes: map<int, nat>, frozenAt: int, frozenSamples: nat)

  function FrozenPart(f: Family): Frozen { Frozen(f.reference, f.refStatusCodes, f.frozenAt, f.frozenSamples) }

  /** Once frozen, no later observation touches it. */
  lemma {:induction false} FrozenUntouched(c: Settings, k: Key, es: seq<FamilyEvent>, more: seq<FamilyEvent>)
    requires FamilyAfter(c, k, es).Some? && FamilyAfter(c, k, es).value.frozen && forall i | 0 <= i < |more| :: more[i].Seen?
    ensures var f := FamilyAfter(c, k, es + more);
            f.Some? && f.value.frozen && FrozenPart(f.value) == FrozenPart(FamilyAfter(c, k, es).value)
  {
    if more == [] {
      assert es + more == es;
    } else {
      FrozenUntouched(c, k, es, Front(more));
      assert Front(es + more) == es + Front(more);
    }
  }

  // ---- When a family freezes ----

  /** Observation `i` has enough before it, and comes late enough after the first. */
  predicate Ripe(c: Settings, os: seq<FamilyEvent>, i: nat) {
    i < |os| && os[0].Seen? && os[i].Seen? && i >= c.minSamples && os[i].ts - os[0].ts >= c.minAge
  }

  lemma RipeMore(c: Settings, os: seq<FamilyEvent>, e: FamilyEvent, i: nat)
    requires i < |os|
    ensures Ripe(c, os + [e], i) <==> Ripe(c, os, i)
  {}

  /** Age is counted from the first observation, and a family is frozen exactly if some
      observation was ripe. */
  lemma {:induction false} FrozenIffRipe(c: Settings, k: Key, es: seq<FamilyEvent>)
    ensures var f, os := FamilyAfter(c, k, es), Taken(es);
            && (f.Some? <==> os != [])
            && (f.Some? ==> os[0].Seen? && f.value.firstSeen == os[0].ts && f.value.samples == |os|)
            && (f.Some? ==> (f.value.frozen <==> exists i: nat :: Ripe(c, os, i)))
  {
    if es != [] {
      FrozenIffRipe(c, k, Front(es));
      FamilyIsFold(c, k, Front(es));
      hide RecordFields, IsFold, Ripe, FamilyAfter, Taken;
      UnfoldFamily(c, k, es);
      FrontIs(es);
      TakenMore(Front(es), [Last(es)]);
      if Last(es).Seen? {
        RipeLast(c, Taken(Front(es)), Last(es));
      } else {
        assert Taken(Front(es)) + [] == Taken(Front(es));
      }
    }
  }

  lemma FrontIs<T>(es: seq<T>)
    requires es != []
    ensures Front(es) + [Last(es)] == es
  {}

  lemma RipeLast(c: Settings, os: seq<FamilyEvent>, e: FamilyEvent)
    requires e.Seen?
    ensures (exists i: nat :: Ripe(c, os + [e], i)) <==> (exists i: nat :: Ripe(c, os, i)) || Ripe(c, os + [e], |os|)
    ensures os != [] && os[0].Seen? ==> (Ripe(c, os + [e], |os|) <==> |os| >= c.minSamples && e.ts - os[0].ts >= c.minAge)
    ensures os == [] ==> (Ripe(c, os + [e], |os|) <==> 0 >= c.minSamples && 0 >= c.minAge)
  {
    forall i: nat | i < |os| ensures Ripe(c, os + [e], i) <==> Ripe(c, os, i) { RipeMore(c, os, e, i); }
    if i: nat :| Ripe(c, os + [e], i) {
      assert i < |os| ==> Ripe(c, os, i);
    }
    if i: nat :| Ripe(c, os, i) {
      assert Ripe(c, os + [e], i);
    }
  }

  /** It freezes at the first ripe observation, before counting it, unless it is refrozen later. */
  lemma {:induction false} FreezePoint(c: Settings, k: Key, es: seq<FamilyEvent>)
    requires es != [] && forall i | 0 <= i < |es| :: es[i].Seen?
    ensures var f := FamilyAfter(c, k, es);
            && f.Some?
            && (f.value.frozen ==>
                  var n := f.value.frozenSamples;
                  Ripe(c, es, n) && f.value.frozenAt == es[n].now && forall i: nat | i < n :: !Ripe(c, es, i))
  {
    var past := Front(es);
    FrontIs(es);
    AllTaken(past);
    FrozenIffRipe(c, k, past);
    UnfoldFamily(c, k, es);
    hide RecordFields, FamilyAfter, Ripe;
    RipeLast(c, past, Last(es));
    if past != [] {
      FreezePoint(c, k, past);
      forall i: nat | i < |past| ensures Ripe(c, es, i) <==> Ripe(c, past, i) { RipeMore(c, past, Last(es), i); }
      if FamilyAfter(c, k, past).value.frozen { RipeWithin(c, past, FamilyAfter(c, k, past).value.frozenSamples); }
    }
  }

  lemma RipeWithin(c: Settings, os: seq<FamilyEvent>, i: nat)
    requires Ripe(c, os, i)
    ensures i < |os|
  {}

  lemma {:induction false} AllTaken(es: seq<FamilyEvent>)
    requires forall i | 0 <= i < |es| :: es[i].Seen?
    ensures Taken(es) == es
  {
    hide Taken;
    if es == [] {
      NoneTaken();
    } else {
      AllTaken(Front(es));
      FrontIs(es);
      TakenMore(Front(es), [Last(es)]);
    }
  }

  lemma NoneTaken()
    ensures Taken([]) == []
  {}

  /** A refreeze takes all observed so far as the reference, of a frozen family only. */
  lemma RefreezeTakesAll(c: Settings, k: Key, es: seq<FamilyEvent>, now: int)
    requires FamilyAfter(c, k, es).Some?
    ensures var f, g := FamilyAfter(c, k, es).value, FamilyAfter(c, k, es + [Refrozen(now)]);
            if f.frozen then g.Some? && g.value.frozen && g.value.frozenSamples == |Taken(es)| && g.value.frozenAt == now
            else g == Some(f)
  {
    FamilyIsFold(c, k, es);
    assert Front(es + [Refrozen(now)]) == es;
  }

  // ---- What was learnt is remembered ----

  /** The value is one a diff would pass: its type was seen, and a string is either beyond
      tracking or among the values kept. */
  predicate Remembers(st: Stats, fv: FieldValue) {
    fv.typ in st.types
    && (fv.typ == "string" ==> st.high || (st.values.Some? && fv.value in st.values.value))
  }

  /** Strings were seen only if they are tracked or given up. */
  predicate Tracks(st: Stats) { "string" in st.types ==> st.high || st.values.Some? }

  lemma RecordRemembers(st: Stats, fv: FieldValue, volatile: bool, past: FieldValue)
    requires Tracks(st)
    ensures var st' := RecordField(st, fv, volatile);
            Tracks(st') && Remembers(st', fv) && (Remembers(st, past) ==> Remembers(st', past))
  {}

  /** All the paths of some observations. */
  function Paths(os: seq<FamilyEvent>): set<string> {
    if os == [] then {} else Paths(Front(os)) + if Last(os).Seen? then Last(os).obs.Keys else {}
  }

  /** Every new field was admitted as the cap allows. */
  ghost predicate Admits(c: Settings, os: seq<FamilyEvent>) {
    os == [] || (Admits(c, Front(os))
                 && (Last(os).Seen? ==> MayAdmit(Learnt(c, Front(os)), Last(os).obs, Last(os).admitted)))
  }

  lemma SubsetOfSize(a: set<string>, b: set<string>)
    requires a <= b && |a| == |b|
    ensures a == b
  {
    if a != b {
      var x :| x in b && x !in a;
      PathGuard.SubsetSize(a, b - {x});
      assert false;
    }
  }

  /** Under the cap all new fields are admitted. */
  lemma AllAdmitted(t: Table, obs: Fields, admitted: set<string>)
    requires MayAdmit(t, obs, admitted) && |t.Keys + obs.Keys| <= FIELD_TRACK_CAP
    ensures t.Keys + admitted * obs.Keys == t.Keys + obs.Keys
  {
    var unseen := obs.Keys - t.Keys;
    assert |t| == |t.Keys|;
    SplitSize(t.Keys, obs.Keys);
    SubsetOfSize(admitted, unseen);
  }

  lemma SplitSize(a: set<string>, b: set<string>)
    ensures |a + b| == |a| + |b - a|
  {}

  lemma {:induction false} LearntPaths(c: Settings, os: seq<FamilyEvent>)
    requires Admits(c, os) && |Paths(os)| <= FIELD_TRACK_CAP
    ensures Learnt(c, os).Keys == Paths(os)
  {
    if os != [] {
      hide MayAdmit, RecordField;
      PathGuard.SubsetSize(Paths(Front(os)), Paths(os));
      LearntPaths(c, Front(os));
      if Last(os).Seen? { AllAdmitted(Learnt(c, Front(os)), Last(os).obs, Last(os).admitted); }
    }
  }

  /** Each observation learnt is remembered field by field, if no more than the cap of fields
      ever occurred. */
  ghost predicate RemembersAll(t: Table, obs: Fields) { forall p | p in obs :: p in t && Remembers(t[p], obs[p]) }

  ghost predicate TracksAll(t: Table) { forall p | p in t :: Tracks(t[p]) }

  lemma RecordFieldsRemember(c: Settings, t: Table, e: FamilyEvent, past: Fields)
    requires e.Seen? && TracksAll(t) && t.Keys + e.admitted * e.obs.Keys == t.Keys + e.obs.Keys
    ensures var t' := RecordFields(t, e.obs, e.admitted, c.volatile);
            TracksAll(t') && RemembersAll(t', e.obs) && (RemembersAll(t, past) ==> RemembersAll(t', past))
  {
    hide RecordField, Tracks, Remembers;
    var t' := RecordFields(t, e.obs, e.admitted, c.volatile);
    forall p | p in t' ensures Tracks(t'[p]) && (p in e.obs ==> Remembers(t'[p], e.obs[p])) {
      NoStatsTrack();
      if p in e.obs { RecordRemembers(StatsAt(t, p), e.obs[p], c.volatile(p), e.obs[p]); }
    }
    if RemembersAll(t, past) {
      forall p | p in past ensures p in t' && Remembers(t'[p], past[p]) {
        if p in e.obs { RecordRemembers(StatsAt(t, p), e.obs[p], c.volatile(p), past[p]); }
      }
    }
  }

  lemma NoStatsTrack()
    ensures Tracks(NO_STATS)
  {}

  lemma {:induction false} LearntRemembers(c: Settings, os: seq<FamilyEvent>, i: nat)
    requires Admits(c, os) && |Paths(os)| <= FIELD_TRACK_CAP
    ensures TracksAll(Learnt(c, os))
    ensures i < |os| && os[i].Seen? ==> RemembersAll(Learnt(c, os), os[i].obs)
  {
    if os != [] {
      hide MayAdmit, RecordFields, RemembersAll, TracksAll;
      PathGuard.SubsetSize(Paths(Front(os)), Paths(os));
      LearntRemembers(c, Front(os), i);
      var e := Last(os);
      LearntPaths(c, Front(os));
      if e.Seen? {
        AllAdmitted(Learnt(c, Front(os)), e.obs, e.admitted);
        RecordFieldsRemember(c, Learnt(c, Front(os)), e, if i < |Front(os)| && os[i].Seen? then os[i].obs else map[]);
      }
    } else {
      assert TracksAll(map[]);
    }
  }

  lemma {:induction false} AdmitsPrefix(c: Settings, os: seq<FamilyEvent>, n: nat)
    requires Admits(c, os) && n <= |os|
    ensures Admits(c, os[..n]) && Paths(os[..n]) <= Paths(os)
  {
    if n == |os| {
      assert os[..n] == os;
    } else {
      AdmitsPrefix(c, Front(os), n);
      assert Front(os)[..n] == os[..n];
    }
  }

  lemma TakenMore(es: seq<FamilyEvent>, more: seq<FamilyEvent>)
    requires |more| <= 1
    ensures Taken(es + more) == Taken(es) + if more != [] && more[0].Seen? then more else []
  {
    if more == [] { assert es + more == es; } else { assert Front(es + more) == es && more == [more[0]]; }
  }

  /** A learner admits as the cap allows. */
  lemma {:induction false} RunAdmits(c: Settings, es: seq<Event>, k: Key)
    requires Runs(c, es) && NoMerge(c, es)
    ensures Admits(c, Taken(EventsFor(c, es, k)))
  {
    if es != [] {
      RunAdmits(c, Front(es), k);
      var l, e := After(c, Front(es)), Last(es);
      var past, more := EventsFor(c, Front(es), k), EventFor(c, l, e, k);
      OneEvent(c, l, e, k);
      TakenMore(past, more);
      LearnerIsHistories(c, Front(es), k);
      FamilyIsFold(c, k, past);
      hide FamilyAfter, MayAdmit, Learnt, Taken;
      if more != [] && more[0].Seen? {
        LearntHere(c, l, e, k, past);
        assert Front(Taken(past) + more) == Taken(past);
      } else {
        assert Taken(past) + [] == Taken(past);
      }
    }
  }

  lemma LearntHere(c: Settings, l: Learned, e: Event, k: Key, past: seq<FamilyEvent>)
    requires Allowed(c, l, e) && e.Observe? && Guarded(c, l, e).promo.None? && KeyFor(c, l, e) == k
    requires Lookup(l.families, k) == FamilyAfter(c, k, past)
    requires var f := FamilyAfter(c, k, past); if f.Some? then IsFold(c, f.value, Taken(past)) else Taken(past) == []
    ensures MayAdmit(Learnt(c, Taken(past)), e.obs, e.admitted)
  {
    hide FamilyAfter, MayAdmit, PathGuard.Applied, Taken;
  }

  // ---- What merging remembers ----

  /** A merge keeps what the receiver remembers. What the other one remembers it keeps too,
      save strings the receiver has no values for: exactly those are forgotten. */
  lemma AbsorbRemembers(mine: Stats, st: Stats, fv: FieldValue)
    ensures Remembers(mine, fv) ==> Remembers(AbsorbStats(mine, st), fv)
    ensures Remembers(st, fv) ==>
              (Remembers(AbsorbStats(mine, st), fv) <==>
               !(fv.typ == "string" && !st.high && !mine.high && mine.values.None?))
  {}
}
