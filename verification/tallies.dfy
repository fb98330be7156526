/** What the counters of a baseline stand for: how many of a family's observations hold a field,
    hold it with a type, hold it with a string, or came with a status. */
module Tallies {
  import opened Baseline
  import opened FamilyHistory
  import opened Text
  import opened Totals

  /** Something an observation may show. */
  datatype Mark =
    | Holds(path: string)
    | Typed(path: string, typ: string)
    | Valued(path: string, value: string)
    | Answered(status: int)

  predicate Shows(o: FamilyEvent, m: Mark) {
    o.Seen?
    && match m
       case Holds(p) => p in o.obs
       case Typed(p, typ) => p in o.obs && o.obs[p].typ == typ
       case Valued(p, value) => p in o.obs && o.obs[p] == FieldValue("string", value)
       case Answered(status) => o.status == status
  }

  /** How many of the observations show it. */
  function Count(os: seq<FamilyEvent>, m: Mark): nat {
    if os == [] then 0 else Count(Front(os), m) + if Shows(Last(os), m) then 1 else 0
  }

  /** The strings a field was seen to hold. */
  function Strings(os: seq<FamilyEvent>, p: string): set<string> {
    set i | 0 <= i < |os| && Shows(os[i], Typed(p, "string")) :: os[i].obs[p].value
  }

  ghost predicate CountsCodes(codes: map<int, nat>, os: seq<FamilyEvent>) {
    forall status :: Says(codes, status, Count(os, Answered(status)))
  }

  /** A field's statistics count the observations that hold it, in all and by type. */
  ghost predicate CountsField(st: Stats, os: seq<FamilyEvent>, p: string) {
    st.count == Count(os, Holds(p)) && forall typ :: Says(st.types, typ, Count(os, Typed(p, typ)))
  }

  ghost predicate CountsTable(t: Table, os: seq<FamilyEvent>) { forall p :: CountsField(StatsAt(t, p), os, p) }

  /** Its strings are given up exactly if the field is volatile or took too many; otherwise each
      string is there with the number of observations that hold it. */
  ghost predicate ListsField(st: Stats, os: seq<FamilyEvent>, p: string, volatile: bool) {
    && (st.high <==> (volatile && Count(os, Holds(p)) > 0) || |Strings(os, p)| > VALUE_TRACK_CAP)
    && (if st.high || Strings(os, p) == {} then st.values.None?
        else st.values.Some? && forall v :: Says(st.values.value, v, Count(os, Valued(p, v))))
  }

  ghost predicate ListsTable(t: Table, os: seq<FamilyEvent>, volatile: string -> bool) {
    forall p :: ListsField(StatsAt(t, p), os, p, volatile(p))
  }

  // ---- One observation more ----

  lemma CountSnoc(os: seq<FamilyEvent>, e: FamilyEvent, m: Mark)
    ensures Count(os + [e], m) == Count(os, m) + if Shows(e, m) then 1 else 0
  {
    assert Front(os + [e]) == os;
  }

  lemma StringsSnoc(os: seq<FamilyEvent>, e: FamilyEvent, p: string)
    ensures Strings(os + [e], p) == Strings(os, p) + if Shows(e, Typed(p, "string")) then {e.obs[p].value} else {}
  {
    var all := os + [e];
    forall v | v in Strings(os, p) ensures v in Strings(all, p) {
      var i :| 0 <= i < |os| && Shows(os[i], Typed(p, "string")) && os[i].obs[p].value == v;
      assert all[i] == os[i];
    }
    if Shows(e, Typed(p, "string")) {
      assert all[|os|] == e;
    }
  }

  lemma CodesCounted(codes: map<int, nat>, os: seq<FamilyEvent>, e: FamilyEvent)
    requires CountsCodes(codes, os) && e.Seen?
    ensures CountsCodes(Bump(codes, e.status), os + [e])
  {
    forall status ensures Says(Bump(codes, e.status), status, Count(os + [e], Answered(status))) {
      CountSnoc(os, e, Answered(status));
      BumpSays(codes, status, Count(os, Answered(status)), e.status);
    }
  }

  lemma FieldCounted(st: Stats, os: seq<FamilyEvent>, p: string, e: FamilyEvent, volatile: bool)
    requires CountsField(st, os, p) && e.Seen?
    ensures CountsField(if p in e.obs then RecordField(st, e.obs[p], volatile) else st, os + [e], p)
  {
    var st' := if p in e.obs then RecordField(st, e.obs[p], volatile) else st;
    CountSnoc(os, e, Holds(p));
    forall typ ensures Says(st'.types, typ, Count(os + [e], Typed(p, typ))) {
      CountSnoc(os, e, Typed(p, typ));
      if p in e.obs { BumpSays(st.types, typ, Count(os, Typed(p, typ)), e.obs[p].typ); }
    }
  }

  /** Keys of a listing are the strings themselves. */
  lemma {:induction false} StringsCounted(os: seq<FamilyEvent>, p: string, v: string)
    ensures v in Strings(os, p) <==> Count(os, Valued(p, v)) > 0
    ensures Strings(os, p) != {} <==> Count(os, Typed(p, "string")) > 0
  {
    if os != [] {
      assert os == Front(os) + [Last(os)];
      StringsCounted(Front(os), p, v);
      StringsSnoc(Front(os), Last(os), p);
    }
  }

  lemma {:induction false} HeldAtLeast(os: seq<FamilyEvent>, p: string, typ: string)
    ensures Count(os, Typed(p, typ)) <= Count(os, Holds(p)) <= |os|
  {
    if os != [] { HeldAtLeast(Front(os), p, typ); }
  }

  lemma KeysAreStrings(values: map<string, nat>, os: seq<FamilyEvent>, p: string)
    requires forall v :: Says(values, v, Count(os, Valued(p, v)))
    ensures values.Keys == Strings(os, p) && |values| == |Strings(os, p)|
  {
    forall v ensures v in values.Keys <==> v in Strings(os, p) { StringsCounted(os, p, v); }
    assert |values| == |values.Keys|;
  }

  lemma NoneListed(os: seq<FamilyEvent>, p: string)
    requires Strings(os, p) == {}
    ensures forall v :: Says(map[], v, Count(os, Valued(p, v)))
  {
    forall v ensures Count(os, Valued(p, v)) == 0 { StringsCounted(os, p, v); }
  }

  lemma MoreStrings(a: set<string>, b: set<string>)
    ensures |a| <= |a + b| && (b <= a ==> a + b == a)
  {
    assert a + b == a + (b - a);
  }

  lemma FieldListed(st: Stats, os: seq<FamilyEvent>, p: string, e: FamilyEvent, volatile: bool)
    requires ListsField(st, os, p, volatile) && e.Seen?
    ensures ListsField(if p in e.obs then RecordField(st, e.obs[p], volatile) else st, os + [e], p, volatile)
  {
    hide Bump, Count, Strings, Says;
    StringsSnoc(os, e, p);
    CountSnoc(os, e, Holds(p));
    MoreStrings(Strings(os, p), Strings(os + [e], p));
    if p !in e.obs || e.obs[p].typ != "string" {
      forall v ensures Count(os + [e], Valued(p, v)) == Count(os, Valued(p, v)) { CountSnoc(os, e, Valued(p, v)); }
    } else if !st.high && !volatile {
      var values := if st.values.Some? then st.values.value else map[];
      if st.values.None? { NoneListed(os, p); }
      StringListed(values, os, p, e);
      KeysAreStrings(Bump(values, e.obs[p].value), os + [e], p);
    }
  }

  lemma StringListed(values: map<string, nat>, os: seq<FamilyEvent>, p: string, e: FamilyEvent)
    requires (forall v :: Says(values, v, Count(os, Valued(p, v)))) && e.Seen? && p in e.obs && e.obs[p].typ == "string"
    ensures forall v :: Says(Bump(values, e.obs[p].value), v, Count(os + [e], Valued(p, v)))
  {
    forall v ensures Says(Bump(values, e.obs[p].value), v, Count(os + [e], Valued(p, v))) {
      CountSnoc(os, e, Valued(p, v));
      BumpSays(values, v, Count(os, Valued(p, v)), e.obs[p].value);
    }
  }

  predicate TakesAll(t: Table, e: FamilyEvent)
    requires e.Seen?
  {
    t.Keys + e.admitted * e.obs.Keys == t.Keys + e.obs.Keys
  }

  lemma RecordedAt(t: Table, e: FamilyEvent, volatile: string -> bool, p: string)
    requires e.Seen? && TakesAll(t, e)
    ensures StatsAt(RecordFields(t, e.obs, e.admitted, volatile), p)
            == if p in e.obs then RecordField(StatsAt(t, p), e.obs[p], volatile(p)) else StatsAt(t, p)
  {
    hide RecordField;
  }

  lemma RecordCounts(t: Table, os: seq<FamilyEvent>, e: FamilyEvent, volatile: string -> bool)
    requires CountsTable(t, os) && e.Seen? && TakesAll(t, e)
    ensures CountsTable(RecordFields(t, e.obs, e.admitted, volatile), os + [e])
  {
    hide RecordField, RecordFields, CountsField, TakesAll, StatsAt;
    forall p ensures CountsField(StatsAt(RecordFields(t, e.obs, e.admitted, volatile), p), os + [e], p) {
      RecordedAt(t, e, volatile, p);
      FieldCounted(StatsAt(t, p), os, p, e, volatile(p));
    }
  }

  lemma RecordLists(t: Table, os: seq<FamilyEvent>, e: FamilyEvent, volatile: string -> bool)
    requires ListsTable(t, os, volatile) && e.Seen? && TakesAll(t, e)
    ensures ListsTable(RecordFields(t, e.obs, e.admitted, volatile), os + [e], volatile)
  {
    hide RecordField, RecordFields, ListsField, TakesAll, StatsAt;
    forall p ensures ListsField(StatsAt(RecordFields(t, e.obs, e.admitted, volatile), p), os + [e], p, volatile(p)) {
      RecordedAt(t, e, volatile, p);
      FieldListed(StatsAt(t, p), os, p, e, volatile(p));
    }
  }

  lemma NothingCounted(volatile: string -> bool)
    ensures CountsTable(map[], []) && CountsCodes(map[], []) && ListsTable(map[], [], volatile)
  {
    forall p ensures CountsField(NO_STATS, [], p) && ListsField(NO_STATS, [], p, volatile(p)) {}
    forall status ensures Says(map[], status, Count([], Answered(status))) {}
  }

  // ---- Two families together ----

  lemma {:induction false} CountBoth(a: seq<FamilyEvent>, b: seq<FamilyEvent>, m: Mark)
    ensures Count(a + b, m) == Count(a, m) + Count(b, m)
  {
    if b == [] {
      assert a + b == a;
    } else {
      CountBoth(a, Front(b), m);
      assert Front(a + b) == a + Front(b);
    }
  }

  lemma StringsBoth(a: seq<FamilyEvent>, b: seq<FamilyEvent>, p: string)
    ensures Strings(a + b, p) == Strings(a, p) + Strings(b, p)
  {
    forall v ensures v in Strings(a + b, p) <==> v in Strings(a, p) || v in Strings(b, p) {
      StringsCounted(a, p, v);
      StringsCounted(b, p, v);
      StringsCounted(a + b, p, v);
      CountBoth(a, b, Valued(p, v));
    }
  }

  lemma PlusSays<K>(a: map<K, nat>, b: map<K, nat>, k: K, n: nat, m: nat)
    requires Says(a, k, n) && Says(b, k, m)
    ensures Says(Plus(a, b), k, n + m)
  {}

  lemma AbsorbCodes(a: map<int, nat>, b: map<int, nat>, os: seq<FamilyEvent>, more: seq<FamilyEvent>)
    requires CountsCodes(a, os) && CountsCodes(b, more)
    ensures CountsCodes(Plus(a, b), os + more)
  {
    forall status ensures Says(Plus(a, b), status, Count(os + more, Answered(status))) {
      CountBoth(os, more, Answered(status));
      PlusSays(a, b, status, Count(os, Answered(status)), Count(more, Answered(status)));
    }
  }

  lemma BothCounted(x: Stats, y: Stats, a: seq<FamilyEvent>, b: seq<FamilyEvent>, p: string)
    requires CountsField(x, a, p) && CountsField(y, b, p)
    ensures CountsField(AbsorbStats(x, y), a + b, p)
  {
    hide Plus, Says, Count;
    CountBoth(a, b, Holds(p));
    forall typ ensures Says(AbsorbStats(x, y).types, typ, Count(a + b, Typed(p, typ))) {
      CountBoth(a, b, Typed(p, typ));
      PlusSays(x.types, y.types, typ, Count(a, Typed(p, typ)), Count(b, Typed(p, typ)));
    }
  }

  lemma OneCounted(st: Stats, a: seq<FamilyEvent>, b: seq<FamilyEvent>, p: string)
    requires (CountsField(st, a, p) && CountsField(NO_STATS, b, p)) || (CountsField(NO_STATS, a, p) && CountsField(st, b, p))
    ensures CountsField(st, a + b, p)
  {
    hide Count;
    CountBoth(a, b, Holds(p));
    forall typ ensures Says(st.types, typ, Count(a + b, Typed(p, typ))) {
      CountBoth(a, b, Typed(p, typ));
      assert Says(map[], typ, Count(a, Typed(p, typ))) || Says(map[], typ, Count(b, Typed(p, typ)));
    }
  }

  lemma AbsorbedAt(t: Table, other: Table, p: string)
    ensures StatsAt(AbsorbFields(t, other), p)
            == if p in t && p in other then AbsorbStats(t[p], other[p]) else if p in t then t[p] else StatsAt(other, p)
  {
    hide AbsorbStats;
  }

  lemma AbsorbCounts(t: Table, other: Table, a: seq<FamilyEvent>, b: seq<FamilyEvent>)
    requires CountsTable(t, a) && CountsTable(other, b)
    ensures CountsTable(AbsorbFields(t, other), a + b)
  {
    hide AbsorbStats, AbsorbFields, CountsField;
    forall p ensures CountsField(StatsAt(AbsorbFields(t, other), p), a + b, p) {
      assert CountsField(StatsAt(t, p), a, p) && CountsField(StatsAt(other, p), b, p);
      AbsorbedAt(t, other, p);
      if p in t && p in other { BothCounted(t[p], other[p], a, b, p); }
      else if p in t { OneCounted(t[p], a, b, p); }
      else { OneCounted(StatsAt(other, p), a, b, p); }
    }
  }

  // ---- Merges that forget nothing ----

  /** The receiver has values for the strings it takes over, or they are given up for good. */
  predicate Keeps(mine: Stats, st: Stats) { "string" in st.types ==> st.high || mine.high || mine.values.Some? }

  predicate KeepsAll(t: Table, other: Table) { forall p | p in t && p in other :: Keeps(t[p], other[p]) }

  lemma StringsTyped(st: Stats, os: seq<FamilyEvent>, p: string)
    requires CountsField(st, os, p)
    ensures "string" in st.types <==> Strings(os, p) != {}
    ensures Strings(os, p) != {} ==> Count(os, Holds(p)) > 0
  {
    hide Count, Strings;
    StringsCounted(os, p, "");
    HeldAtLeast(os, p, "string");
    assert Says(st.types, "string", Count(os, Typed(p, "string")));
  }

  lemma NoCounts(os: seq<FamilyEvent>, p: string)
    requires Strings(os, p) == {}
    ensures forall v :: Count(os, Valued(p, v)) == 0
  {
    forall v ensures Count(os, Valued(p, v)) == 0 { StringsCounted(os, p, v); }
  }

  /** The listing of both families, where neither has given up. */
  lemma ValuesBoth(x: map<string, nat>, y: map<string, nat>, a: seq<FamilyEvent>, b: seq<FamilyEvent>, p: string)
    requires forall v :: Says(x, v, Count(a, Valued(p, v)))
    requires forall v :: Says(y, v, Count(b, Valued(p, v)))
    ensures forall v :: Says(Plus(x, y), v, Count(a + b, Valued(p, v)))
  {
    forall v ensures Says(Plus(x, y), v, Count(a + b, Valued(p, v))) {
      CountBoth(a, b, Valued(p, v));
      PlusSays(x, y, v, Count(a, Valued(p, v)), Count(b, Valued(p, v)));
    }
  }

  lemma OneListed(x: map<string, nat>, a: seq<FamilyEvent>, b: seq<FamilyEvent>, p: string)
    requires (forall v :: Says(x, v, Count(a, Valued(p, v)))) && Strings(b, p) == {}
    ensures forall v :: Says(x, v, Count(a + b, Valued(p, v)))
  {
    NoCounts(b, p);
    forall v ensures Count(a + b, Valued(p, v)) == Count(a, Valued(p, v)) { CountBoth(a, b, Valued(p, v)); }
  }

  lemma BothListed(x: Stats, y: Stats, a: seq<FamilyEvent>, b: seq<FamilyEvent>, p: string, volatile: bool)
    requires CountsField(x, a, p) && CountsField(y, b, p) && Keeps(x, y)
    requires ListsField(x, a, p, volatile) && ListsField(y, b, p, volatile)
    ensures ListsField(AbsorbStats(x, y), a + b, p, volatile)
  {
    hide Plus, Count, Strings, Says, CountsField;
    StringsBoth(a, b, p);
    CountBoth(a, b, Holds(p));
    StringsTyped(x, a, p);
    StringsTyped(y, b, p);
    MoreStrings(Strings(a, p), Strings(b, p));
    MoreStrings(Strings(b, p), Strings(a, p));
    assert Strings(b, p) + Strings(a, p) == Strings(a + b, p);
    if !x.high && !y.high {
      if Strings(a, p) != {} && Strings(b, p) != {} {
        ValuesBoth(x.values.value, y.values.value, a, b, p);
        KeysAreStrings(Plus(x.values.value, y.values.value), a + b, p);
      } else if Strings(a, p) != {} {
        OneListed(x.values.value, a, b, p);
      }
    }
  }

  lemma LoneListed(st: Stats, a: seq<FamilyEvent>, b: seq<FamilyEvent>, p: string, volatile: bool)
    requires CountsField(st, a, p) && ListsField(st, a, p, volatile) && CountsField(NO_STATS, b, p)
    ensures ListsField(st, a + b, p, volatile) && ListsField(st, b + a, p, volatile)
  {
    hide Count, Strings, Says;
    assert Count(b, Holds(p)) == 0;
    StringsTyped(NO_STATS, b, p) by { assert CountsField(NO_STATS, b, p); }
    StringsBoth(a, b, p);
    StringsBoth(b, a, p);
    CountBoth(a, b, Holds(p));
    CountBoth(b, a, Holds(p));
    assert Strings(a, p) + {} == Strings(a, p);
    NoCounts(b, p);
    forall v ensures Count(a + b, Valued(p, v)) == Count(b + a, Valued(p, v)) == Count(a, Valued(p, v)) {
      CountBoth(a, b, Valued(p, v));
      CountBoth(b, a, Valued(p, v));
    }
  }

  lemma AbsorbLists(t: Table, other: Table, a: seq<FamilyEvent>, b: seq<FamilyEvent>, volatile: string -> bool)
    requires CountsTable(t, a) && CountsTable(other, b) && KeepsAll(t, other)
    requires ListsTable(t, a, volatile) && ListsTable(other, b, volatile)
    ensures ListsTable(AbsorbFields(t, other), a + b, volatile)
  {
    hide AbsorbStats, AbsorbFields, CountsField, ListsField, Keeps;
    forall p ensures ListsField(StatsAt(AbsorbFields(t, other), p), a + b, p, volatile(p)) {
      assert CountsField(StatsAt(t, p), a, p) && CountsField(StatsAt(other, p), b, p);
      assert ListsField(StatsAt(t, p), a, p, volatile(p)) && ListsField(StatsAt(other, p), b, p, volatile(p));
      AbsorbedAt(t, other, p);
      if p in t && p in other { BothListed(t[p], other[p], a, b, p, volatile(p)); }
      else if p in t { LoneListed(t[p], a, b, p, volatile(p)); }
      else { LoneListed(StatsAt(other, p), b, a, p, volatile(p)); }
    }
  }

  // ---- What is counted is remembered ----

  lemma {:induction false} Shown(os: seq<FamilyEvent>, i: nat, m: Mark)
    requires i < |os| && Shows(os[i], m)
    ensures Count(os, m) > 0
  {
    if i < |os| - 1 { Shown(Front(os), i, m); }
  }

  lemma InCodes<K>(m: map<K, nat>, k: K, n: nat)
    requires Says(m, k, n) && n > 0
    ensures k in m
  {}

  lemma FieldRemembers(st: Stats, os: seq<FamilyEvent>, i: nat, p: string, volatile: bool)
    requires i < |os| && os[i].Seen? && p in os[i].obs && CountsField(st, os, p) && ListsField(st, os, p, volatile)
    ensures Remembers(st, os[i].obs[p]) && st != NO_STATS
  {
    var fv := os[i].obs[p];
    Shown(os, i, Holds(p));
    Shown(os, i, Typed(p, fv.typ));
    assert Says(st.types, fv.typ, Count(os, Typed(p, fv.typ)));
    if fv.typ == "string" {
      Shown(os, i, Valued(p, fv.value));
      assert fv.value in Strings(os, p);
    }
  }
}
