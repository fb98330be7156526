/** Drift: judging an observation against a frozen reference, and the text of a fingerprint. */
module Drift {
  import opened Baseline
  import opened FamilyHistory
  import opened Learning
  import opened Names
  import opened Text

  datatype Kind =
    | FieldAdded | FieldRemoved | TypeChanged | EnumValueNew | StatusNew
    | FieldNullable | StatusCodeChanged | ErrorShapeChanged

  /** What a finding shows as before or after; lists are rendered elsewhere. */
  datatype Detail = Nothing | Word(w: string) | Code(code: int) | CodeSet(codes: set<int>) | ValueSet(values: set<string>) | Shape(paths: seq<string>)

  datatype Finding = Finding(upstream: string, family: Key, kind: Kind, field: string, before: Detail, after: Detail)

  /** `presenceFloor`. */
  const PRESENCE_FLOOR: real := 0.98

  /** More often, or as often and earlier in the alphabet. */
  predicate Commoner(types: map<string, nat>, t: string, u: string)
    requires t in types && u in types
  {
    types[t] > types[u] || (types[t] == types[u] && Less(t, u))
  }

  ghost predicate IsDominant(types: map<string, nat>, t: string) {
    if types == map[] then t == ""
    else t in types && forall u | u in types && u != t :: Commoner(types, t, u)
  }

  lemma DominantUnique(types: map<string, nat>, t: string, u: string)
    requires IsDominant(types, t) && IsDominant(types, u)
    ensures t == u
  {
    hide Less;
    LessStrictTotal(t, u, t);
  }

  /** `dominantType` gives the same type whatever order the map is walked in. */
  method DominantType(types: map<string, nat>) returns (best: string)
    ensures IsDominant(types, best)
  {
    hide Less;
    var bestN: int := -1;
    best := "";
    var keys := types.Keys;
    while keys != {}
      invariant keys <= types.Keys
      invariant if bestN == -1 then best == "" && keys == types.Keys else best in types && best !in keys && types[best] == bestN
      invariant bestN != -1 ==> forall u | u in types && u !in keys && u != best :: Commoner(types, best, u)
    {
      var t :| t in keys;
      keys := keys - {t};
      var n := types[t];
      LessStrictTotal(best, t, best);
      if n > bestN || (n == bestN && Less(t, best)) {
        forall u | u in types && u !in keys && u != t ensures Commoner(types, t, u) {
          if u != best { LessStrictTotal(t, best, u); }
        }
        best, bestN := t, n;
      }
    }
  }

  ghost function Dominant(types: map<string, nat>): (t: string)
    ensures IsDominant(types, t)
  {
    assert exists t :: IsDominant(types, t) by { DominantExists(types); }
    var t :| IsDominant(types, t);
    t
  }

  lemma {:induction false} DominantExists(types: map<string, nat>)
    ensures exists t :: IsDominant(types, t)
    decreases |types|
  {
    hide Less;
    if types == map[] {
      assert IsDominant(types, "");
    } else {
      var k :| k in types;
      var rest := types - {k};
      DominantExists(rest);
      var t :| IsDominant(rest, t);
      if rest == map[] {
        assert types.Keys == {k};
        assert IsDominant(types, k);
      } else {
        LessStrictTotal(t, k, t);
        if Commoner(types, t, k) {
          forall u | u in types && u != t ensures Commoner(types, t, u) {
            if u != k { assert u in rest && Commoner(rest, t, u); }
          }
          assert IsDominant(types, t);
        } else {
          forall u | u in types && u != k ensures Commoner(types, k, u) {
            assert u in rest;
            if u != t { assert Commoner(rest, t, u); LessStrictTotal(k, t, u); }
          }
          assert IsDominant(types, k);
        }
      }
    }
  }

  // ---- The judgement ----

  datatype Judged = Judged(upstream: string, family: Family, known: set<string>, status: int, obs: Fields)

  function Ref(f: Family): Table { if f.reference.Some? then f.reference.value else map[] }

  /** `PresenceRatio`: a family without a reference falls back on its live fields. */
  function PresenceRatio(f: Family, field: string): real {
    var t := if f.reference.Some? then f.reference.value else f.fields;
    if field !in t || f.samples == 0 then 0.0
    else if f.frozen then
      if f.frozenSamples == 0 then 0.0 else t[field].count as real / f.frozenSamples as real
    else t[field].count as real / f.samples as real
  }

  predicate IsErrorClass(statusClass: string) { statusClass == "4xx" || statusClass == "5xx" }

  function Make(j: Judged, kind: Kind, field: string, before: Detail, after: Detail): Finding {
    Finding(j.upstream, KeyOf(j.family), kind, field, before, after)
  }

  function StatusFindings(j: Judged): seq<Finding> {
    (if j.family.statusClass !in j.known then [Make(j, StatusNew, "", Nothing, Word(j.family.statusClass))] else [])
    + (if j.status != 0 && j.family.refStatusCodes != map[] && j.status !in j.family.refStatusCodes
       then [Make(j, StatusCodeChanged, "", CodeSet(j.family.refStatusCodes.Keys), Code(j.status))] else [])
  }

  predicate IsNewField(j: Judged, p: string) { p !in Ref(j.family) }

  function Added(j: Judged, p: string): seq<Finding>
    requires p in j.obs
  {
    if IsNewField(j, p) then [Make(j, FieldAdded, p, Nothing, Word(j.obs[p].typ))] else []
  }

  predicate NewType(st: Stats, fv: FieldValue) { fv.typ !in st.types }

  predicate NewValue(st: Stats, fv: FieldValue) {
    fv.typ == "string" && !st.high && st.values.Some? && fv.value !in st.values.value
  }

  ghost function Changed(j: Judged, p: string): seq<Finding>
    requires p in j.obs
  {
    if IsNewField(j, p) then []
    else
      var st, fv := Ref(j.family)[p], j.obs[p];
      if NewType(st, fv) then
        if fv.typ == "null" then [Make(j, FieldNullable, p, Word(Dominant(st.types)), Word("null"))]
        else [Make(j, TypeChanged, p, Word(Dominant(st.types)), Word(fv.typ))]
      else if NewValue(st, fv) then [Make(j, EnumValueNew, p, ValueSet(st.values.value.Keys), Word(fv.value))]
      else []
  }

  predicate Missing(j: Judged, p: string)
    requires p in Ref(j.family)
  {
    p !in j.obs && PresenceRatio(j.family, p) >= PRESENCE_FLOOR && Ref(j.family)[p].count > 1
  }

  ghost function Removed(j: Judged, p: string): seq<Finding>
    requires p in Ref(j.family)
  {
    if Missing(j, p) then [Make(j, FieldRemoved, p, Word(Dominant(Ref(j.family)[p].types)), Nothing)] else []
  }

  ghost function AllAdded(j: Judged, ps: seq<string>): seq<Finding>
    requires forall p | p in ps :: p in j.obs
  {
    if ps == [] then [] else AllAdded(j, Front(ps)) + Added(j, Last(ps))
  }

  ghost function AllChanged(j: Judged, ps: seq<string>): seq<Finding>
    requires forall p | p in ps :: p in j.obs
  {
    if ps == [] then [] else AllChanged(j, Front(ps)) + Changed(j, Last(ps))
  }

  ghost function AllRemoved(j: Judged, ps: seq<string>): seq<Finding>
    requires forall p | p in ps :: p in Ref(j.family)
  {
    if ps == [] then [] else AllRemoved(j, Front(ps)) + Removed(j, Last(ps))
  }

  /** The fields observed and those of the reference, each in order. */
  ghost function Diff(j: Judged): seq<Finding> {
    var paths, refPaths := Sorted(j.obs.Keys), Sorted(Ref(j.family).Keys);
    var added, changed, removed := AllAdded(j, paths), AllChanged(j, paths), AllRemoved(j, refPaths);
    if IsErrorClass(j.family.statusClass) && added != [] && removed != [] then
      StatusFindings(j) + [Make(j, ErrorShapeChanged, "", Shape(refPaths), Shape(paths))] + changed
    else StatusFindings(j) + added + changed + removed
  }

  method DiffInPlace(j: Judged) returns (out: seq<Finding>)
    ensures out == Diff(j)
  {
    var paths := SortedNames(j.obs.Keys);
    var refPaths := SortedNames(Ref(j.family).Keys);
    out := StatusFindings(j);
    var added, changed := JudgeFields(j, paths);
    var removed := JudgeMissing(j, refPaths);
    if IsErrorClass(j.family.statusClass) && |added| > 0 && |removed| > 0 {
      out := out + [Make(j, ErrorShapeChanged, "", Shape(refPaths), Shape(paths))];
      return out + changed;
    }
    out := out + added;
    out := out + changed;
    out := out + removed;
  }

  method JudgeFields(j: Judged, paths: seq<string>) returns (added: seq<Finding>, changed: seq<Finding>)
    requires forall p | p in paths :: p in j.obs
    ensures added == AllAdded(j, paths) && changed == AllChanged(j, paths)
  {
    added, changed := [], [];
    var ref := Ref(j.family);
    var i := 0;
    while i < |paths|
      invariant 0 <= i <= |paths|
      invariant added == AllAdded(j, paths[..i]) && changed == AllChanged(j, paths[..i])
    {
      var p := paths[i];
      i := i + 1;
      assert Front(paths[..i]) == paths[..i - 1] && Last(paths[..i]) == p;
      var fv := j.obs[p];
      if p !in ref {
        added := added + [Make(j, FieldAdded, p, Nothing, Word(fv.typ))];
        continue;
      }
      var st := ref[p];
      if fv.typ !in st.types {
        var dominant := DominantType(st.types);
        DominantUnique(st.types, dominant, Dominant(st.types));
        if fv.typ == "null" {
          changed := changed + [Make(j, FieldNullable, p, Word(dominant), Word("null"))];
        } else {
          changed := changed + [Make(j, TypeChanged, p, Word(dominant), Word(fv.typ))];
        }
        continue;
      }
      if fv.typ == "string" && !st.high && st.values.Some? {
        if fv.value !in st.values.value {
          changed := changed + [Make(j, EnumValueNew, p, ValueSet(st.values.value.Keys), Word(fv.value))];
        }
      }
    }
    assert paths[..i] == paths;
  }

  method JudgeMissing(j: Judged, refPaths: seq<string>) returns (removed: seq<Finding>)
    requires forall p | p in refPaths :: p in Ref(j.family)
    ensures removed == AllRemoved(j, refPaths)
  {
    removed := [];
    var ref := Ref(j.family);
    var i := 0;
    while i < |refPaths|
      invariant 0 <= i <= |refPaths|
      invariant removed == AllRemoved(j, refPaths[..i])
    {
      var p := refPaths[i];
      i := i + 1;
      assert Front(refPaths[..i]) == refPaths[..i - 1] && Last(refPaths[..i]) == p;
      if p in j.obs {
        continue;
      }
      if PresenceRatio(j.family, p) >= PRESENCE_FLOOR && ref[p].count > 1 {
        var dominant := DominantType(ref[p].types);
        DominantUnique(ref[p].types, dominant, Dominant(ref[p].types));
        removed := removed + [Make(j, FieldRemoved, p, Word(dominant), Nothing)];
      }
    }
    assert refPaths[..i] == refPaths;
  }

  // ---- A diff is empty exactly when the observation fits ----

  /** The observation's field is one the reference has seen, of a type and, where values are
      still tracked, of a value it has seen. */
  predicate FieldFits(j: Judged, p: string)
    requires p in j.obs
  {
    p in Ref(j.family) && !NewType(Ref(j.family)[p], j.obs[p]) && !NewValue(Ref(j.family)[p], j.obs[p])
  }

  /** The status fits, every field fits, and nothing nearly always present is missing. */
  ghost predicate Fits(j: Judged) {
    && j.family.statusClass in j.known
    && (j.status == 0 || j.family.refStatusCodes == map[] || j.status in j.family.refStatusCodes)
    && (forall p | p in j.obs :: FieldFits(j, p))
    && (forall p | p in Ref(j.family) :: !Missing(j, p))
  }

  lemma FieldFinding(j: Judged, p: string)
    requires p in j.obs
    ensures FieldFits(j, p) <==> Added(j, p) == Changed(j, p) == []
  {}

  lemma {:induction false} NoFieldFindings(j: Judged, ps: seq<string>)
    requires forall p | p in ps :: p in j.obs
    ensures AllAdded(j, ps) == AllChanged(j, ps) == [] <==> forall p | p in ps :: FieldFits(j, p)
  {
    if ps != [] {
      hide FieldFits, Added, Changed;
      forall p ensures p in ps <==> p in Front(ps) || p == Last(ps) { FrontAndLast(ps, p); }
      NoFieldFindings(j, Front(ps));
      FieldFinding(j, Last(ps));
    }
  }

  lemma RemovedLast(j: Judged, ps: seq<string>)
    requires ps != [] && forall p | p in ps :: p in Ref(j.family)
    ensures AllRemoved(j, ps) == [] <==> AllRemoved(j, Front(ps)) == [] && !Missing(j, Last(ps))
  {}

  lemma {:induction false} NoneMissing(j: Judged, ps: seq<string>)
    requires forall p | p in ps :: p in Ref(j.family)
    ensures AllRemoved(j, ps) == [] <==> forall p | p in ps :: !Missing(j, p)
  {
    if ps != [] {
      hide Missing, AllRemoved, Ref;
      forall p ensures p in ps <==> p in Front(ps) || p == Last(ps) { FrontAndLast(ps, p); }
      NoneMissing(j, Front(ps));
      RemovedLast(j, ps);
    }
  }

  lemma DiffEmptyIffFits(j: Judged)
    ensures Diff(j) == [] <==> Fits(j)
  {
    var paths, refPaths := Sorted(j.obs.Keys), Sorted(Ref(j.family).Keys);
    hide AllAdded, AllChanged, AllRemoved, Less;
    NoFieldFindings(j, paths);
    NoneMissing(j, refPaths);
    hide FieldFits, Missing;
    var added, changed, removed := AllAdded(j, paths), AllChanged(j, paths), AllRemoved(j, refPaths);
    assert StatusFindings(j) == [] <==> |StatusFindings(j)| == 0;
    assert Diff(j) == [] <==> |Diff(j)| == 0;
    assert (forall p | p in j.obs :: FieldFits(j, p)) <==> forall p | p in paths :: FieldFits(j, p);
    assert (forall p | p in Ref(j.family) :: !Missing(j, p)) <==> forall p | p in refPaths :: !Missing(j, p);
  }

  // ---- Replaying what was learnt ----

  lemma {:induction false} CodesSeen(os: seq<FamilyEvent>, i: nat)
    requires i < |os| && os[i].Seen?
    ensures os[i].status in Codes(os)
  {
    if i < |os| - 1 { CodesSeen(Front(os), i); }
  }

  lemma RememberedFits(st: Stats, fv: FieldValue)
    requires Remembers(st, fv)
    ensures !NewType(st, fv) && !NewValue(st, fv)
  {}

  lemma {:induction false} OnlyRemovals(j: Judged, ps: seq<string>)
    requires (forall p | p in ps :: p in j.obs) && RemembersAll(Ref(j.family), j.obs)
    ensures AllAdded(j, ps) == AllChanged(j, ps) == []
  {
    if ps != [] {
      OnlyRemovals(j, Front(ps));
      assert Last(ps) in ps;
      RememberedFits(Ref(j.family)[Last(ps)], j.obs[Last(ps)]);
    }
  }

  /** The observations a reference was built from. */
  function Founding(os: seq<FamilyEvent>, n: nat): seq<FamilyEvent> { if n <= |os| then os[..n] else os }

  /** In every run without merges: judging any observation a frozen family was built from finds
      nothing but fields that are nearly always there and happen to be missing from it, provided
      the family met no more fields than the cap. */
  lemma TrainingReplays(c: Settings, es: seq<Event>, k: Key, i: nat, j: Judged)
    requires Runs(c, es) && NoMerge(c, es)
    requires k in Learning.After(c, es).families && j.family == Learning.After(c, es).families[k] && j.family.frozen
    requires j.family.statusClass in j.known
    requires var os := Founding(Taken(EventsFor(c, es, k)), j.family.frozenSamples);
             i < |os| && os[i].Seen? && j.obs == os[i].obs && j.status == os[i].status && |Paths(os)| <= FIELD_TRACK_CAP
    ensures Diff(j) == AllRemoved(j, Sorted(Ref(j.family).Keys))
  {
    hide Diff, Learning.After, EventsFor, Runs, NoMerge, Less, Learnt, Taken;
    var past := EventsFor(c, es, k);
    var os, n := Taken(past), j.family.frozenSamples;
    LearnerIsHistories(c, es, k);
    FamilyIsFold(c, k, past);
    RunAdmits(c, es, k);
    AdmitsPrefix(c, os, n);
    LearntRemembers(c, os[..n], i);
    CodesSeen(os[..n], i);
    RemembersNothingNew(j);
  }

  lemma RemembersNothingNew(j: Judged)
    requires RemembersAll(Ref(j.family), j.obs) && j.family.statusClass in j.known && j.status in j.family.refStatusCodes
    ensures Diff(j) == AllRemoved(j, Sorted(Ref(j.family).Keys))
  {
    hide Less, RemembersAll, AllAdded, AllChanged, AllRemoved;
    var refPaths := Sorted(Ref(j.family).Keys);
    OnlyRemovals(j, Sorted(j.obs.Keys));
    assert StatusFindings(j) == [];
    assert [] + [] + [] + AllRemoved(j, refPaths) == AllRemoved(j, refPaths);
  }

  // ---- Fingerprints ----

  /** `fpEscape`. */
  function FpEscape(s: string): string {
    if '\\' !in s && '|' !in s then s else ReplaceAll(ReplaceAll(s, '\\', "\\\\"), '|', "\\|")
  }

  /** The text that is hashed, for any number of fields. */
  function Preimage(parts: seq<string>): string {
    if parts == [] then ""
    else if |parts| == 1 then FpEscape(parts[0])
    else FpEscape(parts[0]) + "|" + Preimage(parts[1..])
  }

  /** One pass: a backslash before every backslash and bar. */
  function Escape(s: string): string {
    if s == "" then "" else (if s[0] == '\\' || s[0] == '|' then ['\\', s[0]] else [s[0]]) + Escape(s[1..])
  }

  /** Where an escaped text ends: at the first bar that no backslash escapes. */
  function Cut(t: string): nat {
    if t == "" || t[0] == '|' then 0
    else if t[0] == '\\' && |t| > 1 then 2 + Cut(t[2..])
    else 1 + Cut(t[1..])
  }

  lemma {:induction false} TwoPasses(s: string)
    ensures ReplaceAll(ReplaceAll(s, '\\', "\\\\"), '|', "\\|") == Escape(s)
  {
    if s != "" {
      TwoPasses(s[1..]);
      var rest := ReplaceAll(s[1..], '\\', "\\\\");
      if s[0] == '\\' {
        var t := "\\\\" + rest;
        assert t[1..] == "\\" + rest && t[1..][1..] == rest;
        assert ReplaceAll(t, '|', "\\|") == "\\" + ("\\" + ReplaceAll(rest, '|', "\\|"));
      } else {
        var t := [s[0]] + rest;
        assert t[1..] == rest;
      }
    }
  }

  lemma {:induction false} EscapePlain(s: string)
    requires '\\' !in s && '|' !in s
    ensures Escape(s) == s
  {
    if s != "" { EscapePlain(s[1..]); }
  }

  lemma FpEscapeIs(s: string)
    ensures FpEscape(s) == Escape(s)
  {
    TwoPasses(s);
    if '\\' !in s && '|' !in s { EscapePlain(s); }
  }

  lemma {:induction false} CutEscaped(s: string, rest: string)
    requires rest == "" || rest[0] == '|'
    ensures Cut(Escape(s) + rest) == |Escape(s)|
  {
    if s != "" {
      CutEscaped(s[1..], rest);
      var t := Escape(s) + rest;
      if s[0] == '\\' || s[0] == '|' { assert t[2..] == Escape(s[1..]) + rest; }
      else { assert t[1..] == Escape(s[1..]) + rest; }
    }
  }

  lemma {:induction false} EscapeInjective(a: string, b: string)
    requires Escape(a) == Escape(b)
    ensures a == b
  {
    if a == "" || b == "" {
    } else {
      var x, y := Escape(a), Escape(b);
      if x[0] == '\\' {
        assert x[1] == a[0] && x[2..] == Escape(a[1..]);
        assert y[1] == b[0] && y[2..] == Escape(b[1..]);
      } else {
        assert x[1..] == Escape(a[1..]) && y[1..] == Escape(b[1..]);
      }
      EscapeInjective(a[1..], b[1..]);
      assert a == [a[0]] + a[1..] && b == [b[0]] + b[1..];
    }
  }

  function Tail(parts: seq<string>): string { if |parts| <= 1 then "" else "|" + Preimage(parts[1..]) }

  lemma TailIs(parts: seq<string>)
    requires |parts| > 1
    ensures |Tail(parts)| > 0 && Tail(parts)[1..] == Preimage(parts[1..])
  {
    hide Preimage;
  }

  lemma PreimageIs(parts: seq<string>)
    requires parts != []
    ensures Preimage(parts) == Escape(parts[0]) + Tail(parts) && Cut(Preimage(parts)) == |Escape(parts[0])|
  {
    FpEscapeIs(parts[0]);
    hide FpEscape, Escape;
    CutEscaped(parts[0], Tail(parts));
  }

  /** The first parts agree, and what follows them. */
  lemma HeadsAgree(a: seq<string>, b: seq<string>)
    requires a != [] && b != [] && Preimage(a) == Preimage(b)
    ensures a[0] == b[0] && Tail(a) == Tail(b)
  {
    hide Preimage, Escape, Cut, Tail;
    PreimageIs(a);
    PreimageIs(b);
    SamePrefix(Escape(a[0]), Tail(a), Escape(b[0]), Tail(b));
    EscapeInjective(a[0], b[0]);
  }

  /** Findings that differ in any of the fields never hash the same text. */
  lemma {:induction false} PreimageInjective(a: seq<string>, b: seq<string>)
    requires |a| == |b| && Preimage(a) == Preimage(b)
    ensures a == b
  {
    if a != [] {
      hide Preimage, Tail;
      HeadsAgree(a, b);
      if |a| > 1 {
        TailIs(a);
        TailIs(b);
        PreimageInjective(a[1..], b[1..]);
      }
      assert a == [a[0]] + a[1..] && b == [b[0]] + b[1..];
    }
  }

  lemma SamePrefix(a: string, b: string, c: string, d: string)
    requires |a| == |c| && a + b == c + d
    ensures a == c && b == d
  {
    assert (a + b)[..|a|] == a && (c + d)[..|a|] == c;
    assert (a + b)[|a|..] == b && (c + d)[|a|..] == d;
  }
}
