/** Judging what a family was built from, when families merge on the way. */
module Training {
  import opened Baseline
  import opened Drift
  import opened FamilyHistory
  import opened Learning
  import opened MergedHistory
  import opened Names
  import PathGuard
  import opened Tallies
  import opened Text
  import opened Totals

  /** In every run: judging any observation a frozen family was built from finds nothing but
      missing fields, under the cap, if no merge on the way to its reference forgot strings. */
  lemma MergedTrainingReplays(c: Settings, es: seq<Event>, k: Key, i: nat, j: Judged)
    requires Runs(c, es)
    requires k in Learning.After(c, es).families && j.family == Learning.After(c, es).families[k] && j.family.frozen
    requires j.family.statusClass in j.known
    requires PastsOf(c, es)[k].founded
    requires var os := PastsOf(c, es)[k].reference;
             i < |os| && os[i].Seen? && j.obs == os[i].obs && j.status == os[i].status && Small(os)
    ensures Diff(j) == AllRemoved(j, Sorted(Ref(j.family).Keys))
  {
    hide Diff, Learning.After, PastsOf, Runs, Less, Small, RemembersAll, Knows;
    RunFits(c, es);
    var p := PastsOf(c, es)[k];
    assert BuiltFrom(c, j.family, p);
    KnowsEach(c, Ref(j.family), j.family.refStatusCodes, p.reference, i);
    RemembersNothingNew(j);
  }

  // ---- A run that forgets ----

  predicate Never(p: string) { false }

  function NoPlaceholder(seg: string): string { "" }

  /** Two literals a position, frozen after three samples. */
  const SHORT: Settings := Settings(2, NoPlaceholder, Never, 3, 0)

  const ROOT: PathGuard.Path := []

  function Body(fv: FieldValue): Fields { map["f" := fv] }

  function On(seg: string, fv: FieldValue, at: int, order: seq<Key>, admitted: set<string>): Event {
    Observe("GET", [seg], 200, Body(fv), at, at, order, admitted)
  }

  function KeyOn(seg: string): Key { Key("GET", [seg], "2xx") }

  function GuardAt(tally: map<string, nat>): PathGuard.State { PathGuard.State(map[ROOT := tally], {}, map[]) }

  const PROMOTED: PathGuard.State := PathGuard.State(map[], {ROOT}, map[ROOT := {}])

  lemma OneSegment(g: PathGuard.State, seg: string)
    requires seg != ""
    ensures var v, w := PathGuard.Visit(ROOT, seg), PathGuard.Applied(SHORT.threshold, SHORT.classify, g, [seg]);
            var g' := PathGuard.Enter(2, g, v);
            w.state == g' && w.out == [PathGuard.Output(g', v)] && (w.promo.Some? <==> PathGuard.Promotes(2, g, v))
  {
    hide PathGuard.Enter, PathGuard.Output, PathGuard.Promotes;
    var start := PathGuard.Applied(SHORT.threshold, SHORT.classify, g, [seg][..0]);
    assert start == PathGuard.Walk(g, ROOT, [], None);
    assert PathGuard.Applied(SHORT.threshold, SHORT.classify, g, [seg]) == PathGuard.Advance(SHORT.threshold, SHORT.classify, start, seg);
  }

  lemma StaysLiteral(g: PathGuard.State, seg: string)
    requires seg != "" && g.promoted == {} && |Bump(PathGuard.Tally(g, ROOT), seg)| <= 2
    ensures var w := PathGuard.Applied(SHORT.threshold, SHORT.classify, g, [seg]);
            w.promo.None? && w.out == [seg]
            && w.state == g.(seen := g.seen[ROOT := Bump(PathGuard.Tally(g, ROOT), seg)])
  {
    OneSegment(g, seg);
  }

  lemma ThirdLiteral(seg: string)
    requires seg != "a" && seg != "b"
    ensures var vals := Bump(map["a" := 1, "b" := 1], seg); |vals| == 3 && PathGuard.Pins(vals) == {}
  {
    var vals := Bump(map["a" := 1, "b" := 1], seg);
    assert vals.Keys == {"a", "b", seg};
    assert |vals| == |vals.Keys|;
  }

  lemma Tips(seg: string)
    requires seg != "" && seg != "a" && seg != "b"
    ensures var w := PathGuard.Applied(SHORT.threshold, SHORT.classify, GuardAt(map["a" := 1, "b" := 1]), [seg]);
            w.promo.Some? && w.out == [PathGuard.ID] && w.state == PROMOTED
  {
    var two := map["a" := 1, "b" := 1];
    hide PathGuard.Applied, Bump, PathGuard.Pins;
    OneSegment(GuardAt(two), seg);
    ThirdLiteral(seg);
    assert PathGuard.Tally(GuardAt(two), ROOT) == two;
    assert GuardAt(two).seen - {ROOT} == map[];
  }

  lemma StaysPromoted(seg: string)
    requires seg != ""
    ensures var w := PathGuard.Applied(SHORT.threshold, SHORT.classify, PROMOTED, [seg]);
            w.promo.None? && w.out == [PathGuard.ID] && w.state == PROMOTED
  {
    OneSegment(PROMOTED, seg);
  }

  lemma Extend(c: Settings, es: seq<Event>, e: Event)
    requires Runs(c, es) && Allowed(c, Learning.After(c, es), e)
    ensures Runs(c, es + [e]) && Learning.After(c, es + [e]) == Step(c, Learning.After(c, es), e)
    ensures PastsOf(c, es + [e]) == StepPasts(c, Learning.After(c, es), e, PastsOf(c, es))
  {
    hide Allowed, Step, StepPasts;
    assert Front(es + [e]) == es;
  }

  // ---- Its four observations ----

  const NUMBER: FieldValue := FieldValue("number", "")
  const X: FieldValue := FieldValue("string", "x")
  const Y: FieldValue := FieldValue("string", "y")

  function Kept(f: Family, fv: FieldValue, at: int, admitted: set<string>): Family {
    Record(f, at, 200, Body(fv), admitted, SHORT.volatile)
  }

  function FamilyA(): Family { Kept(NewFamily(KeyOn("a"), 1), NUMBER, 1, {"f"}) }
  function FamilyB(): Family { Kept(NewFamily(KeyOn("b"), 2), X, 2, {"f"}) }
  function Merged(): Family { Absorb(FamilyA().(template := [PathGuard.ID]), FamilyB()) }
  function FamilyC(): Family { Kept(Merged(), Y, 3, {}) }
  function FamilyD(): Family { Kept(Freeze(FamilyC(), 4), Y, 4, {}) }

  function SeenOn(fv: FieldValue, at: int, admitted: set<string>): FamilyEvent { Seen(at, at, 200, Body(fv), admitted) }

  function PastA(): Past { Past([SeenOn(NUMBER, 1, {"f"})], [], true, true) }
  function PastB(): Past { Past([SeenOn(X, 2, {"f"})], [], true, true) }
  function PastMerged(): Past { Past([SeenOn(NUMBER, 1, {"f"}), SeenOn(X, 2, {"f"})], [], false, true) }
  function PastC(): Past { Past(PastMerged().live + [SeenOn(Y, 3, {})], [], false, true) }
  function PastD(): Past { Past(PastC().live + [SeenOn(Y, 4, {})], PastC().live, PastC().kept, PastC().kept) }

  /** A run so far: the learner and the pasts it has come to. */
  ghost predicate At(es: seq<Event>, g: PathGuard.State, fs: Families, ps: Pasts) {
    Runs(SHORT, es) && Learning.After(SHORT, es) == Learned(g, fs) && PastsOf(SHORT, es) == ps
  }

  /** An observation without a promotion, of a family not warm. */
  lemma ObserveCold(es: seq<Event>, g: PathGuard.State, fs: Families, ps: Pasts, e: Event, g': PathGuard.State, k: Key)
    requires At(es, g, fs, ps) && e.Observe? && e.order == []
    requires var w := PathGuard.Applied(SHORT.threshold, SHORT.classify, g, e.path);
             w.promo.None? && w.state == g' && k == Key(e.verb, w.out, StatusClass(e.status))
    requires var f := FamilyFor(fs, k, e.ts); !IsWarm(SHORT, f, e.ts) && MayAdmit(f.fields, e.obs, e.admitted)
    ensures var f, p := FamilyFor(fs, k, e.ts), PastAt(ps, k);
            At(es + [e], g', fs[k := Record(f, e.ts, e.status, e.obs, e.admitted, SHORT.volatile)],
               ps[k := p.(live := p.live + [SeenIn(e)])])
  {
    hide PathGuard.Applied, MayAdmit, Record, FamilyFor, IsWarm, Runs, Learning.After, PastsOf;
    Extend(SHORT, es, e);
  }

  lemma ObserveWarm(es: seq<Event>, g: PathGuard.State, fs: Families, ps: Pasts, e: Event, g': PathGuard.State, k: Key)
    requires At(es, g, fs, ps) && e.Observe? && e.order == []
    requires var w := PathGuard.Applied(SHORT.threshold, SHORT.classify, g, e.path);
             w.promo.None? && w.state == g' && k == Key(e.verb, w.out, StatusClass(e.status))
    requires var f := FamilyFor(fs, k, e.ts); IsWarm(SHORT, f, e.ts) && MayAdmit(f.fields, e.obs, e.admitted)
    ensures var f, p := FamilyFor(fs, k, e.ts), PastAt(ps, k);
            At(es + [e], g', fs[k := Record(Freeze(f, e.now), e.ts, e.status, e.obs, e.admitted, SHORT.volatile)],
               ps[k := Past(p.live + [SeenIn(e)], p.live, p.kept, p.kept)])
  {
    hide PathGuard.Applied, MayAdmit, Record, FamilyFor, IsWarm, Freeze, Runs, Learning.After, PastsOf;
    Extend(SHORT, es, e);
  }

  /** An observation that promotes. */
  lemma ObservePromoting(es: seq<Event>, g: PathGuard.State, fs: Families, ps: Pasts, e: Event, g': PathGuard.State, m: Learned, mp: Pasts, k: Key)
    requires At(es, g, fs, ps) && e.Observe? && Lists(e.order, fs) && ps.Keys == fs.Keys
    requires var w := PathGuard.Applied(SHORT.threshold, SHORT.classify, g, e.path);
             w.promo.Some? && w.state == g' && k == Key(e.verb, w.out, StatusClass(e.status))
    requires m == Merge(SHORT, Learned(g', fs), e.order) && mp == MergePasts(SHORT, Learned(g', fs), ps, e.order)
    requires var f := FamilyFor(m.families, k, e.ts); !IsWarm(SHORT, f, e.ts) && MayAdmit(f.fields, e.obs, e.admitted)
    ensures var f, p := FamilyFor(m.families, k, e.ts), PastAt(mp, k);
            At(es + [e], m.guard, m.families[k := Record(f, e.ts, e.status, e.obs, e.admitted, SHORT.volatile)],
               mp[k := p.(live := p.live + [SeenIn(e)])])
  {
    hide PathGuard.Applied, MayAdmit, Record, FamilyFor, IsWarm, Runs, Learning.After, PastsOf, Merge, MergePasts;
    Extend(SHORT, es, e);
  }

  lemma AdmitsOne(t: Table, fv: FieldValue)
    requires t == map[]
    ensures MayAdmit(t, Body(fv), {"f"})
  {
    assert Body(fv).Keys - t.Keys == {"f"};
  }

  lemma AdmitsNone(t: Table, fv: FieldValue)
    requires "f" in t
    ensures MayAdmit(t, Body(fv), {})
  {
    assert Body(fv).Keys - t.Keys == {};
  }

  lemma Fields()
    ensures "f" in FamilyA().fields && FamilyA().fields["f"] == RecordField(NO_STATS, NUMBER, false)
    ensures "f" in FamilyB().fields && FamilyB().fields["f"] == RecordField(NO_STATS, X, false)
    ensures "f" in Merged().fields && Merged().fields["f"] == AbsorbStats(FamilyA().fields["f"], FamilyB().fields["f"])
    ensures FamilyC().fields.Keys == {"f"} && FamilyC().fields["f"] == RecordField(Merged().fields["f"], Y, false)
  {
    hide RecordField, AbsorbStats;
    assert FamilyA().fields.Keys == {"f"} && FamilyB().fields.Keys == {"f"} && Merged().fields.Keys == {"f"};
  }

  lemma Samples()
    ensures FamilyA().samples == FamilyB().samples == 1 && Merged().samples == 2 && FamilyC().samples == 3
    ensures !FamilyA().frozen && !FamilyB().frozen && !FamilyC().frozen && FamilyC().firstSeen == 1
    ensures KeyOf(FamilyA()) == KeyOn("a") && KeyOf(FamilyB()) == KeyOn("b") && KeyOf(Merged()) == KeyOn(PathGuard.ID)
    ensures KeyOf(FamilyC()) == KeyOf(FamilyD()) == KeyOn(PathGuard.ID)
  {}

  function EventA(): Event { On("a", NUMBER, 1, [], {"f"}) }

  function EventB(): Event { On("b", X, 2, [], {"f"}) }

  function EventC(): Event { On("c", Y, 3, [KeyOn("a"), KeyOn("b")], {}) }

  function EventD(): Event { On("d", Y, 4, [], {}) }

  lemma First()
    ensures At([EventA()], GuardAt(map["a" := 1]), map[KeyOn("a") := FamilyA()], map[KeyOn("a") := PastA()])
  {
    assert At([], PathGuard.EMPTY, map[], map[]);
    StaysLiteral(PathGuard.EMPTY, "a");
    assert Bump(map[], "a") == map["a" := 1];
    AdmitsOne(map[], NUMBER);
    hide At, PathGuard.Applied, MayAdmit, Record;
    assert PathGuard.EMPTY.seen[ROOT := map["a" := 1]] == map[ROOT := map["a" := 1]];
    ObserveCold([], PathGuard.EMPTY, map[], map[], EventA(), GuardAt(map["a" := 1]), KeyOn("a"));
    assert [] + [EventA()] == [EventA()];
    assert [] + PastA().live == PastA().live;
  }

  lemma FirstTwo()
    ensures At([EventA(), EventB()], GuardAt(map["a" := 1, "b" := 1]),
               map[KeyOn("a") := FamilyA(), KeyOn("b") := FamilyB()], map[KeyOn("a") := PastA(), KeyOn("b") := PastB()])
  {
    hide At, PathGuard.Applied, MayAdmit, Record, FamilyA;
    var fs: Families, ps: Pasts := map[KeyOn("a") := FamilyA()], map[KeyOn("a") := PastA()];
    var g := GuardAt(map["a" := 1, "b" := 1]);
    Second(g);
    First();
    AdmitsOne(map[], X);
    ObserveCold([EventA()], GuardAt(map["a" := 1]), fs, ps, EventB(), g, KeyOn("b"));
    assert [EventA()] + [EventB()] == [EventA(), EventB()];
    assert [] + PastB().live == PastB().live;
    assert fs[KeyOn("b") := FamilyB()] == map[KeyOn("a") := FamilyA(), KeyOn("b") := FamilyB()];
    assert ps[KeyOn("b") := PastB()] == map[KeyOn("a") := PastA(), KeyOn("b") := PastB()];
  }

  lemma Second(g: PathGuard.State)
    requires g == GuardAt(map["a" := 1, "b" := 1])
    ensures var w := PathGuard.Applied(SHORT.threshold, SHORT.classify, GuardAt(map["a" := 1]), ["b"]);
            w.promo.None? && w.out == ["b"] && w.state == g
  {
    hide PathGuard.Applied;
    assert Bump(map["a" := 1], "b") == map["a" := 1, "b" := 1];
    assert |Bump(map["a" := 1], "b")| <= 2 by { SizeUpdate(map["a" := 1], "b", 1); }
    StaysLiteral(GuardAt(map["a" := 1]), "b");
  }

  lemma Moves(fs: Families, f: Family, seg: string)
    requires KeyOf(f) == KeyOn(seg) && seg != ""
    ensures var kid := KeyOn(PathGuard.ID);
            && Target(SHORT, PROMOTED, f) == kid
            && MergeOne(SHORT, Learned(PROMOTED, fs), f)
               == Learned(PROMOTED, fs[kid := if kid in fs then Absorb(fs[kid], f) else f.(template := [PathGuard.ID])])
  {
    hide PathGuard.Applied, Absorb;
    StaysPromoted(seg);
  }

  lemma MergeKeepsNot()
    ensures var moved := FamilyA().(template := [PathGuard.ID]); !KeepsAll(moved.fields, FamilyB().fields)
  {
    Fields();
    hide FamilyA, FamilyB;
    assert "f" in FamilyA().fields && "f" in FamilyB().fields && !Keeps(FamilyA().fields["f"], FamilyB().fields["f"]);
  }

  /** The promotion files both families under the placeholder, the second into the first. */
  lemma BothMerge()
    ensures var fs: Families := map[KeyOn("a") := FamilyA(), KeyOn("b") := FamilyB()];
            var ps: Pasts := map[KeyOn("a") := PastA(), KeyOn("b") := PastB()];
            var order := [KeyOn("a"), KeyOn("b")];
            && Merge(SHORT, Learned(PROMOTED, fs), order) == Learned(PROMOTED, map[KeyOn(PathGuard.ID) := Merged()])
            && MergePasts(SHORT, Learned(PROMOTED, fs), ps, order) == map[KeyOn(PathGuard.ID) := PastMerged()]
  {
    hide PathGuard.Applied, Absorb, Record, MergeOne, Target, FamilyA, FamilyB;
    var fs: Families := map[KeyOn("a") := FamilyA(), KeyOn("b") := FamilyB()];
    var ps: Pasts := map[KeyOn("a") := PastA(), KeyOn("b") := PastB()];
    var l, ka, kb, kid := Learned(PROMOTED, fs), KeyOn("a"), KeyOn("b"), KeyOn(PathGuard.ID);
    var moved := FamilyA().(template := [PathGuard.ID]);
    Samples();
    Moves(map[], FamilyA(), "a");
    Moves(map[kid := moved], FamilyB(), "b");
    assert Front([ka, kb]) == [ka] && Front([ka]) == [];
    assert Merge(SHORT, l, []) == Learned(PROMOTED, map[]);
    assert Merge(SHORT, l, [ka]) == Learned(PROMOTED, map[kid := moved]);
    assert Merge(SHORT, l, [ka, kb]) == Learned(PROMOTED, map[kid := Merged()]);
    assert MergePasts(SHORT, l, ps, [ka]) == map[kid := PastA()];
    MergeKeepsNot();
    assert MergePasts(SHORT, l, ps, [ka, kb]) == map[kid := Joined(moved, FamilyB(), PastA(), PastB())];
    assert Joined(moved, FamilyB(), PastA(), PastB()) == PastMerged();
  }

  lemma TwoListed(fs: Families)
    requires fs.Keys == {KeyOn("a"), KeyOn("b")}
    ensures Lists([KeyOn("a"), KeyOn("b")], fs)
  {}

  lemma MergedTakes()
    ensures !IsWarm(SHORT, Merged(), 3) && MayAdmit(Merged().fields, Body(Y), {})
    ensures FamilyC() == Record(Merged(), 3, 200, Body(Y), {}, SHORT.volatile)
  {
    hide MayAdmit, Record, RecordField, AbsorbStats;
    Fields();
    Samples();
    AdmitsNone(Merged().fields, Y);
  }

  lemma FirstThree()
    ensures At([EventA(), EventB(), EventC()], PROMOTED, map[KeyOn(PathGuard.ID) := FamilyC()], map[KeyOn(PathGuard.ID) := PastC()])
  {
    hide At, PathGuard.Applied, MayAdmit, Record, Absorb, Freeze, Merge, MergePasts, FamilyA, FamilyB, FamilyC, Merged, Lists, IsWarm;
    var kid := KeyOn(PathGuard.ID);
    var fs: Families := map[KeyOn("a") := FamilyA(), KeyOn("b") := FamilyB()];
    var ps: Pasts := map[KeyOn("a") := PastA(), KeyOn("b") := PastB()];
    FirstTwo();
    BothMerge();
    Tips("c");
    MergedTakes();
    TwoListed(fs);
    ObservePromoting([EventA(), EventB()], GuardAt(map["a" := 1, "b" := 1]), fs, ps, EventC(), PROMOTED,
                     Learned(PROMOTED, map[kid := Merged()]), map[kid := PastMerged()], kid);
    assert [EventA(), EventB()] + [EventC()] == [EventA(), EventB(), EventC()];
    assert map[kid := Merged()][kid := FamilyC()] == map[kid := FamilyC()];
    assert map[kid := PastMerged()][kid := PastC()] == map[kid := PastC()];
  }

  lemma AllFour()
    ensures At([EventA(), EventB(), EventC(), EventD()], PROMOTED,
               map[KeyOn(PathGuard.ID) := FamilyD()], map[KeyOn(PathGuard.ID) := PastD()])
  {
    hide At, PathGuard.Applied, MayAdmit, Record, Absorb, Freeze, RecordField, AbsorbStats, FamilyC, PastC;
    var kid := KeyOn(PathGuard.ID);
    FirstThree();
    StaysPromoted("d");
    Fields();
    Samples();
    AdmitsNone(FamilyC().fields, Y);
    ObserveWarm([EventA(), EventB(), EventC()], PROMOTED, map[kid := FamilyC()], map[kid := PastC()], EventD(), PROMOTED, kid);
    assert [EventA(), EventB(), EventC()] + [EventD()] == [EventA(), EventB(), EventC(), EventD()];
    assert map[kid := FamilyC()][kid := FamilyD()] == map[kid := FamilyD()];
    assert map[kid := PastC()][kid := PastD()] == map[kid := PastD()];
  }

  lemma ForgottenStats(number: FieldValue, x: FieldValue, y: FieldValue)
    requires number.typ == "number" && x.typ == y.typ == "string" && x.value != y.value
    ensures var mine, other := RecordField(NO_STATS, number, false), RecordField(NO_STATS, x, false);
            Remembers(other, x)
            && var st := RecordField(AbsorbStats(mine, other), y, false);
               !NewType(st, x) && NewValue(st, x) && st.values.value.Keys == {y.value}
  {
    var mine, other := RecordField(NO_STATS, number, false), RecordField(NO_STATS, x, false);
    assert AbsorbStats(mine, other).values.None?;
  }

  /** A reachable merge that forgets. Of two families one has seen a number in a field, the other
      the string "x". They merge when a third literal comes, and "y" is the only value then
      known: judging the very observation of "x" reports a new value and nothing else. */
  lemma MergeForgets() returns (c: Settings, es: seq<Event>, k: Key, j: Judged)
    ensures Runs(c, es) && k in Learning.After(c, es).families && j.family == Learning.After(c, es).families[k]
    ensures j.family.frozen && j.family.statusClass in j.known
    ensures var os := PastsOf(c, es)[k].reference;
            Small(os) && exists i | 0 <= i < |os| :: os[i].Seen? && j.obs == os[i].obs && j.status == os[i].status
    ensures Diff(j) == [Drift.Make(j, EnumValueNew, "f", ValueSet({"y"}), Word("x"))]
  {
    c, k := SHORT, KeyOn(PathGuard.ID);
    es := [EventA(), EventB(), EventC(), EventD()];
    j := Judged("", FamilyD(), {"2xx"}, 200, Body(X));
    hide Learning.After, PastsOf, Runs, Record, Absorb, Less, Paths, RecordField, AbsorbStats;
    AllFour();
    FinalFamily();
    OnePath();
    ForgottenStats(NUMBER, X, Y);
    Fields();
    assert PastD().reference[1] == SeenOn(X, 2, {"f"});
    OneFinding(j);
  }

  lemma FinalFamily()
    ensures FamilyD().frozen && FamilyD().statusClass == "2xx" && FamilyD().reference == Some(FamilyC().fields)
    ensures 200 in FamilyD().refStatusCodes
  {}

  lemma OnePath()
    ensures Small(PastD().reference)
  {
    var os := PastD().reference;
    assert os == [SeenOn(NUMBER, 1, {"f"}), SeenOn(X, 2, {"f"}), SeenOn(Y, 3, {})];
    AllInF(os);
    PathGuard.SubsetSize(Paths(os), {"f"});
  }

  lemma {:induction false} AllInF(os: seq<FamilyEvent>)
    requires forall i | 0 <= i < |os| :: os[i].Seen? && os[i].obs.Keys == {"f"}
    ensures Paths(os) <= {"f"}
  {
    if os != [] { AllInF(Front(os)); }
  }

  /** Where the one field differs in its value, that is the one finding. */
  lemma OneFinding(j: Judged)
    requires j.obs.Keys == Ref(j.family).Keys == {"f"} && j.family.statusClass in j.known && j.status in j.family.refStatusCodes
    requires var st := Ref(j.family)["f"]; !NewType(st, j.obs["f"]) && NewValue(st, j.obs["f"])
    ensures Diff(j) == [Drift.Make(j, EnumValueNew, "f", ValueSet(Ref(j.family)["f"].values.value.Keys), Word(j.obs["f"].value))]
  {
    hide Less;
    assert Sorted({"f"}) == ["f"] by {
      assert Listing(["f"], {"f"});
      ListingUnique(["f"], Sorted({"f"}), {"f"});
    }
    hide Sorted;
    assert Front(["f"]) == [];
    assert StatusFindings(j) == [];
    assert AllAdded(j, ["f"]) == [] && AllRemoved(j, ["f"]) == [];
    assert AllChanged(j, ["f"]) == AllChanged(j, []) + Changed(j, "f");
    var one := Changed(j, "f");
    assert [] + [] + one + [] == one;
  }
}
