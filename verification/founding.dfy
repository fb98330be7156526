/** A judgement in terms of what was observed: which findings a diff makes of an observation, by
    how many of the observations a frozen family was founded on showed what. */
module FoundedJudgement {
  import opened Baseline
  import opened Drift
  import opened FamilyHistory
  import opened Learning
  import opened MergedHistory
  import opened Names
  import PathGuard
  import opened Tallies
  import opened Text
  import opened Totals

  /** The reference of a frozen family stands for the observations `os`, no more fields than the cap. */
  ghost predicate Founded(c: Settings, f: Family, os: seq<FamilyEvent>, kept: bool) {
    && f.frozen && f.reference.Some? && f.frozenSamples == |os| <= f.samples
    && AllSeen(os) && Small(os) && Knows(c, f.reference.value, f.refStatusCodes, os, kept)
  }

  // ---- Runs found their families ----

  /** In every run, merges included. */
  lemma RunsFound(c: Settings, es: seq<Event>, k: Key)
    requires Runs(c, es) && k in Learning.After(c, es).families && Learning.After(c, es).families[k].frozen
    requires Small(PastsOf(c, es)[k].reference)
    ensures Founded(c, Learning.After(c, es).families[k], PastsOf(c, es)[k].reference, PastsOf(c, es)[k].founded)
  {
    hide Runs, Learning.After, PastsOf, Knows, Small;
    RunFits(c, es);
    assert BuiltFrom(c, Learning.After(c, es).families[k], PastsOf(c, es)[k]);
  }

  lemma LearntOne(c: Settings, os: seq<FamilyEvent>)
    requires os != [] && Last(os).Seen?
    ensures Learnt(c, os) == RecordFields(Learnt(c, Front(os)), Last(os).obs, Last(os).admitted, c.volatile)
    ensures Codes(os) == Bump(Codes(Front(os)), Last(os).status)
  {}

  lemma {:induction false} LearntKnows(c: Settings, os: seq<FamilyEvent>)
    requires Admits(c, os) && AllSeen(os)
    ensures Knows(c, Learnt(c, os), Codes(os), os, true)
  {
    if os == [] {
      NothingCounted(c.volatile);
    } else {
      assert Admits(c, Front(os)) && MayAdmit(Learnt(c, Front(os)), Last(os).obs, Last(os).admitted);
      hide *;
      LearntKnows(c, Front(os));
      OneMore(c, os);
    }
  }

  lemma OneMore(c: Settings, os: seq<FamilyEvent>)
    requires os != [] && Last(os).Seen? && MayAdmit(Learnt(c, Front(os)), Last(os).obs, Last(os).admitted)
    requires Knows(c, Learnt(c, Front(os)), Codes(Front(os)), Front(os), true)
    ensures Knows(c, Learnt(c, os), Codes(os), os, true)
  {
    hide *;
    LearntOne(c, os);
    RecordKnows(c, Learnt(c, Front(os)), Codes(Front(os)), Front(os), Last(os), true);
    FrontLast(os);
  }

  lemma FrontLast(os: seq<FamilyEvent>)
    requires os != []
    ensures os == Front(os) + [Last(os)]
  {}

  lemma {:induction false} TakenSeen(es: seq<FamilyEvent>)
    ensures AllSeen(Taken(es))
  {
    if es != [] { TakenSeen(Front(es)); }
  }

  /** In every run without merges the founding observations are the family's first ones. */
  lemma HistoriesFound(c: Settings, es: seq<Event>, k: Key)
    requires Runs(c, es) && NoMerge(c, es)
    requires k in Learning.After(c, es).families && Learning.After(c, es).families[k].frozen
    requires var f := Learning.After(c, es).families[k]; Small(Founding(Taken(EventsFor(c, es, k)), f.frozenSamples))
    ensures var f := Learning.After(c, es).families[k];
            Founded(c, f, Founding(Taken(EventsFor(c, es, k)), f.frozenSamples), true)
  {
    hide Learning.After, EventsFor, Runs, NoMerge, Learnt, Taken, Codes, Knows, Small, Admits, FamilyAfter;
    var os, n := Taken(EventsFor(c, es, k)), Learning.After(c, es).families[k].frozenSamples;
    LearnerIsHistories(c, es, k);
    FamilyIsFold(c, k, EventsFor(c, es, k));
    RunAdmits(c, es, k);
    AdmitsPrefix(c, os, n);
    TakenSeen(EventsFor(c, es, k));
    LearntKnows(c, os[..n]);
  }

  // ---- Presence ----

  /** The rate of a field is the part of the founding observations that hold it. */
  lemma PresenceIs(c: Settings, f: Family, os: seq<FamilyEvent>, kept: bool, p: string)
    requires Founded(c, f, os, kept)
    ensures PresenceRatio(f, p) * |os| as real == Count(os, Holds(p)) as real
  {
    assert CountsField(StatsAt(f.reference.value, p), os, p);
    HeldAtLeast(os, p, "");
  }

  /** Whatever is observed after the freeze. */
  lemma PresenceStays(c: Settings, k: Key, es: seq<FamilyEvent>, more: seq<FamilyEvent>, p: string)
    requires FamilyAfter(c, k, es).Some? && FamilyAfter(c, k, es).value.frozen && AllSeen(more)
    ensures var f := FamilyAfter(c, k, es + more);
            f.Some? && PresenceRatio(f.value, p) == PresenceRatio(FamilyAfter(c, k, es).value, p)
  {
    hide FamilyAfter, Learnt, Codes;
    FrozenUntouched(c, k, es, more);
    FamilyIsFold(c, k, es);
    FamilyIsFold(c, k, es + more);
    TakenAppend(es, more);
    NothingLearnt(c);
  }

  lemma NothingLearnt(c: Settings)
    ensures Learnt(c, []) == map[]
  {}

  lemma {:induction false} TakenAppend(es: seq<FamilyEvent>, more: seq<FamilyEvent>)
    requires AllSeen(more)
    ensures Taken(es + more) == Taken(es) + more
  {
    hide Taken;
    if more == [] {
      assert es + more == es;
    } else {
      TakenAppend(es, Front(more));
      assert es + more == es + Front(more) + [Last(more)];
      TakenMore(es + Front(more), [Last(more)]);
      assert Taken(es) + Front(more) + [Last(more)] == Taken(es) + more;
    }
  }

  // ---- What a diff finds ----

  /** Held by two of the founding observations at least, and by 98 in a hundred. */
  ghost predicate Expected(os: seq<FamilyEvent>, p: string) {
    Count(os, Holds(p)) >= 2 && 100 * Count(os, Holds(p)) >= 98 * |os|
  }

  predicate Unheard(os: seq<FamilyEvent>, p: string) { Count(os, Holds(p)) == 0 }

  /** The type most of them hold the field with, the first in the alphabet of equals. */
  ghost predicate Commonest(os: seq<FamilyEvent>, p: string, t: string) {
    && Count(os, Typed(p, t)) > 0
    && forall u | u != t && Count(os, Typed(p, u)) > 0 ::
         Count(os, Typed(p, t)) > Count(os, Typed(p, u)) || (Count(os, Typed(p, t)) == Count(os, Typed(p, u)) && Less(t, u))
  }

  /** An error that has a field never held and lacks one expected is one change of shape. */
  ghost predicate Reshaped(j: Judged, os: seq<FamilyEvent>) {
    j.family.statusClass in {"4xx", "5xx"} && (exists p | p in j.obs :: Unheard(os, p)) && (exists p | p !in j.obs :: Expected(os, p))
  }

  /** A string none of few held, in a field that is not volatile. */
  ghost predicate UnheardString(c: Settings, os: seq<FamilyEvent>, p: string, v: string) {
    && !c.volatile(p) && 0 < |Strings(os, p)| <= 24 && v !in Strings(os, p)
  }

  /** The findings called for, kind by kind, with what each shows as before and after. */
  ghost predicate CalledFor(c: Settings, j: Judged, os: seq<FamilyEvent>, x: Finding) {
    && x.upstream == j.upstream && x.family == KeyOf(j.family)
    && match x.kind
       case StatusNew =>
         j.family.statusClass !in j.known && x.field == "" && x.before == Nothing && x.after == Word(j.family.statusClass)
       case StatusCodeChanged =>
         && j.status != 0 && os != [] && Count(os, Answered(j.status)) == 0 && x.field == "" && x.after == Code(j.status)
         && x.before.CodeSet? && (forall s :: s in x.before.codes <==> Count(os, Answered(s)) > 0)
       case FieldAdded =>
         && !Reshaped(j, os) && x.field in j.obs && Unheard(os, x.field)
         && x.before == Nothing && x.after == Word(j.obs[x.field].typ)
       case FieldNullable =>
         && x.field in j.obs && !Unheard(os, x.field)
         && j.obs[x.field].typ == "null" && Count(os, Typed(x.field, "null")) == 0
         && x.before.Word? && Commonest(os, x.field, x.before.w) && x.after == Word("null")
       case TypeChanged =>
         && x.field in j.obs && !Unheard(os, x.field)
         && j.obs[x.field].typ != "null" && Count(os, Typed(x.field, j.obs[x.field].typ)) == 0
         && x.before.Word? && Commonest(os, x.field, x.before.w) && x.after == Word(j.obs[x.field].typ)
       case EnumValueNew =>
         && x.field in j.obs && j.obs[x.field].typ == "string" && UnheardString(c, os, x.field, j.obs[x.field].value)
         && x.before == ValueSet(Strings(os, x.field)) && x.after == Word(j.obs[x.field].value)
       case FieldRemoved =>
         && !Reshaped(j, os) && x.field !in j.obs && Expected(os, x.field)
         && x.before.Word? && Commonest(os, x.field, x.before.w) && x.after == Nothing
       case ErrorShapeChanged =>
         && Reshaped(j, os) && x.field == ""
         && x.before.Shape? && Listing(x.before.paths, Paths(os)) && x.after.Shape? && Listing(x.after.paths, j.obs.Keys)
  }

  lemma CommonestIs(c: Settings, j: Judged, os: seq<FamilyEvent>, p: string, t: string)
    requires Founded(c, j.family, os, true) && p in Ref(j.family)
    ensures t == Dominant(Ref(j.family)[p].types) <==> Commonest(os, p, t)
  {
    hide Less, Count, Small, ListsTable;
    var types := Ref(j.family)[p].types;
    assert CountsField(StatsAt(Ref(j.family), p), os, p);
    forall u ensures (u in types <==> Count(os, Typed(p, u)) > 0) && (u in types ==> types[u] == Count(os, Typed(p, u))) {
      assert Says(types, u, Count(os, Typed(p, u)));
    }
    SomeType(c, j, os, p);
    if Commonest(os, p, t) {
      forall u | u in types && u != t ensures Commoner(types, t, u) { assert Count(os, Typed(p, u)) > 0; }
    }
    if IsDominant(types, t) {
      forall u | u != t && Count(os, Typed(p, u)) > 0
        ensures Count(os, Typed(p, t)) > Count(os, Typed(p, u)) || (Count(os, Typed(p, t)) == Count(os, Typed(p, u)) && Less(t, u))
      {
        assert Commoner(types, t, u);
      }
    }
    if IsDominant(types, t) { DominantUnique(types, t, Dominant(types)); }
  }

  lemma SomeType(c: Settings, j: Judged, os: seq<FamilyEvent>, p: string)
    requires Founded(c, j.family, os, true) && p in Ref(j.family)
    ensures Ref(j.family)[p].types != map[] && !Unheard(os, p)
  {
    hide ListsTable;
    InPaths(os, p);
    var i :| 0 <= i < |os| && os[i].Seen? && p in os[i].obs;
    Shown(os, i, Holds(p));
    Shown(os, i, Typed(p, os[i].obs[p].typ));
    assert CountsField(StatsAt(Ref(j.family), p), os, p);
    assert Says(Ref(j.family)[p].types, os[i].obs[p].typ, Count(os, Typed(p, os[i].obs[p].typ)));
  }

  lemma {:induction false} InPaths(os: seq<FamilyEvent>, p: string)
    ensures p in Paths(os) <==> exists i :: 0 <= i < |os| && os[i].Seen? && p in os[i].obs
    ensures p in Paths(os) <==> !Unheard(os, p)
  {
    if os != [] {
      InPaths(Front(os), p);
      assert forall i | 0 <= i < |os| - 1 :: os[i] == Front(os)[i];
      if p in Paths(os) && !(Last(os).Seen? && p in Last(os).obs) {
        var i :| 0 <= i < |Front(os)| && Front(os)[i].Seen? && p in Front(os)[i].obs;
        assert os[i].Seen? && p in os[i].obs;
      }
    }
  }

  // ---- Each part of a diff ----

  lemma {:induction false} InAdded(j: Judged, ps: seq<string>, x: Finding)
    requires forall p | p in ps :: p in j.obs
    ensures x in AllAdded(j, ps) <==> x.field in ps && x in Added(j, x.field)
    ensures x in AllChanged(j, ps) <==> x.field in ps && x in Changed(j, x.field)
  {
    if ps != [] {
      FrontAndLast(ps, x.field);
      InAdded(j, Front(ps), x);
      assert Last(ps) in ps;
    }
  }

  lemma {:induction false} InRemoved(j: Judged, ps: seq<string>, x: Finding)
    requires forall p | p in ps :: p in Ref(j.family)
    ensures x in AllRemoved(j, ps) <==> x.field in ps && x in Removed(j, x.field)
  {
    if ps != [] {
      FrontAndLast(ps, x.field);
      InRemoved(j, Front(ps), x);
      assert Last(ps) in ps;
    }
  }

  lemma HeldIs(c: Settings, f: Family, os: seq<FamilyEvent>, kept: bool, p: string)
    requires Founded(c, f, os, kept)
    ensures p in Ref(f) <==> !Unheard(os, p)
    ensures p in Ref(f) ==> Ref(f)[p].count == Count(os, Holds(p))
  {
    hide CountsCodes, ListsTable, Small, Count;
    InPaths(os, p);
    assert CountsField(StatsAt(f.reference.value, p), os, p);
  }

  lemma AtLeast98(r: real, n: nat, count: nat)
    requires n > 0 && r * n as real == count as real
    ensures r >= 0.98 <==> 100 * count >= 98 * n
  {
    if r >= 0.98 { assert r * n as real >= 0.98 * n as real; }
    else { assert r * n as real < 0.98 * n as real; }
  }

  /** A field is reported missing exactly if it was expected. */
  lemma MissingIs(c: Settings, j: Judged, os: seq<FamilyEvent>, kept: bool, p: string)
    requires Founded(c, j.family, os, kept)
    ensures p in Ref(j.family) && Missing(j, p) <==> p !in j.obs && Expected(os, p)
  {
    HeldIs(c, j.family, os, kept, p);
    PresenceIs(c, j.family, os, kept, p);
    HeldAtLeast(os, p, "");
    hide Founded, Count;
    if Count(os, Holds(p)) >= 2 { AtLeast98(PresenceRatio(j.family, p), |os|, Count(os, Holds(p))); }
  }

  lemma StatusCalled(c: Settings, j: Judged, os: seq<FamilyEvent>, x: Finding)
    requires Founded(c, j.family, os, true)
    ensures x in StatusFindings(j) <==> (x.kind.StatusNew? || x.kind.StatusCodeChanged?) && CalledFor(c, j, os, x)
  {
    hide Count, ListsTable, CountsTable, Small, Paths, Reshaped;
    var codes := j.family.refStatusCodes;
    forall s ensures s in codes <==> Count(os, Answered(s)) > 0 { assert Says(codes, s, Count(os, Answered(s))); }
    SomeCode(c, j, os);
    if x.before.CodeSet? && (forall s :: s in x.before.codes <==> Count(os, Answered(s)) > 0) {
      forall s ensures s in x.before.codes <==> s in codes.Keys { assert Says(codes, s, Count(os, Answered(s))); }
      assert x.before.codes == codes.Keys;
    }
  }

  lemma SomeCode(c: Settings, j: Judged, os: seq<FamilyEvent>)
    requires Founded(c, j.family, os, true)
    ensures j.family.refStatusCodes == map[] <==> os == []
  {
    hide ListsTable, CountsTable, Small, Paths;
    if os != [] {
      Shown(os, 0, Answered(os[0].status));
      assert Says(j.family.refStatusCodes, os[0].status, Count(os, Answered(os[0].status)));
    } else {
      forall s ensures s !in j.family.refStatusCodes { assert Says(j.family.refStatusCodes, s, Count(os, Answered(s))); }
    }
  }

  lemma AddedCalled(c: Settings, j: Judged, os: seq<FamilyEvent>, x: Finding)
    requires Founded(c, j.family, os, true) && !Reshaped(j, os)
    ensures x in AllAdded(j, Sorted(j.obs.Keys)) <==> x.kind.FieldAdded? && CalledFor(c, j, os, x)
  {
    hide Reshaped, Less, Unheard, AllAdded, Founded, Ref;
    InAdded(j, Sorted(j.obs.Keys), x);
    HeldIs(c, j.family, os, true, x.field);
  }

  lemma RemovedCalled(c: Settings, j: Judged, os: seq<FamilyEvent>, x: Finding)
    requires Founded(c, j.family, os, true) && !Reshaped(j, os)
    ensures x in AllRemoved(j, Sorted(Ref(j.family).Keys)) <==> x.kind.FieldRemoved? && CalledFor(c, j, os, x)
  {
    hide Reshaped, Less, Unheard, AllRemoved, Founded, Ref, Missing, Expected, Commonest;
    InRemoved(j, Sorted(Ref(j.family).Keys), x);
    MissingIs(c, j, os, true, x.field);
    HeldIs(c, j.family, os, true, x.field);
    if x.field in Ref(j.family) && x.before.Word? { CommonestIs(c, j, os, x.field, x.before.w); }
    if x.field in Ref(j.family) { CommonestIs(c, j, os, x.field, Dominant(Ref(j.family)[x.field].types)); }
    HeldExpected(os, x.field);
  }

  lemma HeldExpected(os: seq<FamilyEvent>, p: string)
    ensures Expected(os, p) ==> !Unheard(os, p)
  {}

  lemma NewTypeIs(c: Settings, j: Judged, os: seq<FamilyEvent>, p: string, fv: FieldValue)
    requires Founded(c, j.family, os, true) && p in Ref(j.family)
    ensures NewType(Ref(j.family)[p], fv) <==> Count(os, Typed(p, fv.typ)) == 0
  {
    hide ListsTable, CountsCodes, Small, Count, Paths;
    assert CountsField(StatsAt(Ref(j.family), p), os, p);
    assert Says(Ref(j.family)[p].types, fv.typ, Count(os, Typed(p, fv.typ)));
  }

  lemma NewValueIs(c: Settings, j: Judged, os: seq<FamilyEvent>, p: string, fv: FieldValue)
    requires Founded(c, j.family, os, true) && p in Ref(j.family) && fv.typ == "string"
    ensures !NewType(Ref(j.family)[p], fv) && NewValue(Ref(j.family)[p], fv) <==> UnheardString(c, os, p, fv.value)
    ensures UnheardString(c, os, p, fv.value) ==> Ref(j.family)[p].values.Some? && Ref(j.family)[p].values.value.Keys == Strings(os, p)
  {
    HeldIs(c, j.family, os, true, p);
    NewTypeIs(c, j, os, p, fv);
    StringsCounted(os, p, fv.value);
    hide CountsTable, CountsCodes, Small, Count, Paths, Strings, Says, NewType;
    var st := Ref(j.family)[p];
    assert ListsField(StatsAt(Ref(j.family), p), os, p, c.volatile(p));
    if !st.high && Strings(os, p) != {} { KeysAreStrings(st.values.value, os, p); }
  }

  lemma ChangedCalled(c: Settings, j: Judged, os: seq<FamilyEvent>, x: Finding)
    requires Founded(c, j.family, os, true)
    ensures x in AllChanged(j, Sorted(j.obs.Keys)) <==>
            (x.kind.FieldNullable? || x.kind.TypeChanged? || x.kind.EnumValueNew?) && CalledFor(c, j, os, x)
  {
    hide Reshaped, Less, Unheard, AllChanged, Founded, Ref, Commonest, NewType, NewValue, UnheardString;
    InAdded(j, Sorted(j.obs.Keys), x);
    HeldIs(c, j.family, os, true, x.field);
    if x.field in j.obs && x.field in Ref(j.family) {
      var st, fv := Ref(j.family)[x.field], j.obs[x.field];
      NewTypeIs(c, j, os, x.field, fv);
      CommonestIs(c, j, os, x.field, Dominant(st.types));
      if x.before.Word? { CommonestIs(c, j, os, x.field, x.before.w); }
      if fv.typ == "string" { NewValueIs(c, j, os, x.field, fv); } else { NotAString(st, fv); }
    } else if x.field in j.obs {
      NotHeld(c, os, x.field);
    }
  }

  lemma NotAString(st: Stats, fv: FieldValue)
    requires fv.typ != "string"
    ensures !NewValue(st, fv)
  {}

  lemma NotHeld(c: Settings, os: seq<FamilyEvent>, p: string)
    requires Unheard(os, p)
    ensures forall v :: !UnheardString(c, os, p, v)
  {
    hide Strings;
    HeldAtLeast(os, p, "string");
    StringsCounted(os, p, "");
  }

  lemma ReshapedIs(c: Settings, j: Judged, os: seq<FamilyEvent>)
    requires Founded(c, j.family, os, true)
    ensures Reshaped(j, os) <==>
            IsErrorClass(j.family.statusClass) && AllAdded(j, Sorted(j.obs.Keys)) != [] && AllRemoved(j, Sorted(Ref(j.family).Keys)) != []
  {
    hide Less, Unheard, AllAdded, AllRemoved, Founded, Ref, Missing, Expected;
    var paths, refPaths := Sorted(j.obs.Keys), Sorted(Ref(j.family).Keys);
    NoneMissing(j, refPaths);
    forall p ensures p in Ref(j.family) && Missing(j, p) <==> p !in j.obs && Expected(os, p) { MissingIs(c, j, os, true, p); }
    forall p ensures p in Ref(j.family) <==> !Unheard(os, p) { HeldIs(c, j.family, os, true, p); }
    SomeAdded(j, paths);
  }

  lemma {:induction false} SomeAdded(j: Judged, ps: seq<string>)
    requires forall p | p in ps :: p in j.obs
    ensures AllAdded(j, ps) != [] <==> exists p | p in ps :: IsNewField(j, p)
  {
    if ps != [] {
      hide Ref;
      SomeAdded(j, Front(ps));
      forall p ensures p in ps <==> p in Front(ps) || p == Last(ps) { FrontAndLast(ps, p); }
    }
  }

  lemma ShapeCalled(c: Settings, j: Judged, os: seq<FamilyEvent>, x: Finding)
    requires Founded(c, j.family, os, true) && Reshaped(j, os)
    ensures x == Make(j, ErrorShapeChanged, "", Shape(Sorted(Ref(j.family).Keys)), Shape(Sorted(j.obs.Keys)))
            <==> x.kind.ErrorShapeChanged? && CalledFor(c, j, os, x)
  {
    hide Reshaped, Less, Count, CountsTable, CountsCodes, ListsTable, Small, Paths;
    assert Ref(j.family).Keys == Paths(os);
    if x.before.Shape? && Listing(x.before.paths, Paths(os)) { ListingUnique(x.before.paths, Sorted(Paths(os)), Paths(os)); }
    if x.after.Shape? && Listing(x.after.paths, j.obs.Keys) { ListingUnique(x.after.paths, Sorted(j.obs.Keys), j.obs.Keys); }
  }

  /** A judgement makes exactly the findings called for. */
  lemma DiffIs(c: Settings, j: Judged, os: seq<FamilyEvent>, x: Finding)
    requires Founded(c, j.family, os, true)
    ensures x in Diff(j) <==> CalledFor(c, j, os, x)
  {
    ReshapedIs(c, j, os);
    StatusCalled(c, j, os, x);
    ChangedCalled(c, j, os, x);
    if Reshaped(j, os) {
      ShapeCalled(c, j, os, x);
      hide StatusFindings, Make, AllAdded, AllChanged, AllRemoved, Founded, Reshaped, Less, Ref, Count, Unheard, Commonest, UnheardString, Expected;
    } else {
      AddedCalled(c, j, os, x);
      RemovedCalled(c, j, os, x);
      hide StatusFindings, Make, AllAdded, AllChanged, AllRemoved, Founded, Reshaped, Less, Ref, Count, Unheard, Commonest, UnheardString, Expected;
    }
  }

  // ---- Their order ----

  function Rank(k: Kind): nat {
    match k
    case StatusNew => 0
    case StatusCodeChanged => 1
    case ErrorShapeChanged => 2
    case FieldAdded => 2
    case FieldNullable => 3
    case TypeChanged => 3
    case EnumValueNew => 3
    case FieldRemoved => 4
  }

  predicate Before(x: Finding, y: Finding) {
    Rank(x.kind) < Rank(y.kind) || (Rank(x.kind) == Rank(y.kind) && Less(x.field, y.field))
  }

  ghost predicate InOrder(xs: seq<Finding>) { forall i, k | 0 <= i < k < |xs| :: Before(xs[i], xs[k]) }

  ghost predicate Ranked(xs: seq<Finding>, rank: nat, ps: seq<string>) {
    forall i | 0 <= i < |xs| :: Rank(xs[i].kind) == rank && xs[i].field in ps
  }

  ghost predicate Ascends(ps: seq<string>) { forall i, k | 0 <= i < k < |ps| :: Less(ps[i], ps[k]) }

  lemma OneMoreInOrder(xs: seq<Finding>, more: seq<Finding>, rank: nat, ps: seq<string>)
    requires ps != [] && Ascends(ps) && InOrder(xs) && Ranked(xs, rank, Front(ps))
    requires Lone(more, rank, Last(ps))
    ensures InOrder(xs + more) && Ranked(xs + more, rank, ps)
  {
    hide Less, Rank;
    forall p | p in Front(ps) ensures Less(p, Last(ps)) && p in ps {
      var i :| 0 <= i < |Front(ps)| && Front(ps)[i] == p;
      assert ps[i] == p;
    }
    assert Last(ps) in ps;
  }

  lemma AscendsFront(ps: seq<string>)
    requires ps != [] && Ascends(ps)
    ensures Ascends(Front(ps))
  {
    hide Less;
  }

  /** At most one finding, of that rank and about that field. */
  ghost predicate Lone(xs: seq<Finding>, rank: nat, p: string) {
    |xs| <= 1 && forall i | 0 <= i < |xs| :: Rank(xs[i].kind) == rank && xs[i].field == p
  }

  lemma LoneFindings(j: Judged, p: string)
    requires p in j.obs
    ensures Lone(Added(j, p), 2, p) && Lone(Changed(j, p), 3, p)
  {
    hide Ref, NewType, NewValue;
  }

  lemma FieldsSnoc(j: Judged, ps: seq<string>)
    requires ps != [] && forall p | p in ps :: p in j.obs
    ensures Last(ps) in ps && forall p | p in Front(ps) :: p in ps
    ensures AllAdded(j, ps) == AllAdded(j, Front(ps)) + Added(j, Last(ps))
    ensures AllChanged(j, ps) == AllChanged(j, Front(ps)) + Changed(j, Last(ps))
  {
    hide Added, Changed;
  }

  lemma {:induction false} FieldsInOrder(j: Judged, ps: seq<string>)
    requires Ascends(ps) && forall p | p in ps :: p in j.obs
    ensures InOrder(AllAdded(j, ps)) && Ranked(AllAdded(j, ps), 2, ps)
    ensures InOrder(AllChanged(j, ps)) && Ranked(AllChanged(j, ps), 3, ps)
  {
    if ps != [] {
      AscendsFront(ps);
      FieldsSnoc(j, ps);
      LoneFindings(j, Last(ps));
      hide Less, Ascends, InOrder, Ranked, Added, Changed, AllAdded, AllChanged, Lone;
      FieldsInOrder(j, Front(ps));
      OneMoreInOrder(AllAdded(j, Front(ps)), Added(j, Last(ps)), 2, ps);
      OneMoreInOrder(AllChanged(j, Front(ps)), Changed(j, Last(ps)), 3, ps);
    }
  }

  lemma {:induction false} RemovalsInOrder(j: Judged, ps: seq<string>)
    requires Ascends(ps) && forall p | p in ps :: p in Ref(j.family)
    ensures InOrder(AllRemoved(j, ps)) && Ranked(AllRemoved(j, ps), 4, ps)
  {
    if ps != [] {
      AscendsFront(ps);
      hide Less, Ref, Ascends, InOrder, Ranked, Missing;
      assert Last(ps) in ps;
      assert forall p | p in Front(ps) :: p in ps;
      RemovalsInOrder(j, Front(ps));
      OneMoreInOrder(AllRemoved(j, Front(ps)), Removed(j, Last(ps)), 4, ps);
    }
  }

  lemma JoinedInOrder(xs: seq<Finding>, ys: seq<Finding>)
    requires InOrder(xs) && InOrder(ys) && forall i, k | 0 <= i < |xs| && 0 <= k < |ys| :: Rank(xs[i].kind) < Rank(ys[k].kind)
    ensures InOrder(xs + ys)
  {
    hide Less, Rank;
  }

  lemma OneInOrder(x: Finding)
    ensures InOrder([x])
  {}

  lemma StatusInOrder(j: Judged)
    ensures InOrder(StatusFindings(j)) && forall i | 0 <= i < |StatusFindings(j)| :: Rank(StatusFindings(j)[i].kind) <= 1
  {}

  /** Status findings come first, then fields added or the change of shape, fields changed and
      fields removed, each in the order of the fields; no finding comes twice. */
  lemma DiffInOrder(j: Judged)
    ensures InOrder(Diff(j))
  {
    hide Less, Ref, AllAdded, AllChanged, AllRemoved, InOrder, StatusFindings;
    var paths, refPaths := Sorted(j.obs.Keys), Sorted(Ref(j.family).Keys);
    var added, changed, removed := AllAdded(j, paths), AllChanged(j, paths), AllRemoved(j, refPaths);
    StatusInOrder(j);
    FieldsInOrder(j, paths);
    RemovalsInOrder(j, refPaths);
    var shape := [Make(j, ErrorShapeChanged, "", Shape(refPaths), Shape(paths))];
    OneInOrder(shape[0]);
    JoinedInOrder(StatusFindings(j), shape);
    JoinedInOrder(StatusFindings(j) + shape, changed);
    JoinedInOrder(StatusFindings(j), added);
    JoinedInOrder(StatusFindings(j) + added, changed);
    JoinedInOrder(StatusFindings(j) + added + changed, removed);
  }
}
