/** Baselines: what a learner counts per family of responses, when a family freezes, and what
    merging two families adds up to. Times are nanoseconds since the zero time. */
module Baseline {
  import opened PathGuard
  import opened Text
  import opened Totals

  const VALUE_TRACK_CAP: nat := 24
  const FIELD_TRACK_CAP: nat := 2000
  const ZERO_TIME: int := 0

  datatype FieldValue = FieldValue(typ: string, value: string)

  type Fields = map<string, FieldValue>

  /** `FieldStats`; no values is the nil map. */
  datatype Stats = Stats(count: nat, types: map<string, nat>, values: Option<map<string, nat>>, high: bool)

  const NO_STATS: Stats := Stats(0, map[], None, false)

  type Table = map<string, Stats>

  datatype Family = Family(
    verb: string, template: Path, statusClass: string,
    samples: nat, firstSeen: int, lastSeen: int,
    fields: Table, statusCodes: map<int, nat>, refStatusCodes: map<int, nat>,
    frozen: bool, reference: Option<Table>, frozenAt: int, frozenSamples: nat)

  datatype Key = Key(verb: string, template: Path, statusClass: string)

  function KeyOf(f: Family): Key { Key(f.verb, f.template, f.statusClass) }

  function StatusClass(status: int): string {
    if 200 <= status < 300 then "2xx"
    else if 300 <= status < 400 then "3xx"
    else if 400 <= status < 500 then "4xx"
    else "5xx"
  }

  // ---- One observation of one family ----

  /** Past the cap a field's values are given up for good. */
  function Capped(st: Stats): Stats {
    if st.values.Some? && |st.values.value| > VALUE_TRACK_CAP then st.(values := None, high := true) else st
  }

  function Dropped(st: Stats): Stats { st.(values := None, high := true) }

  function RecordValue(st: Stats, fv: FieldValue): Stats {
    if fv.typ != "string" || st.high then st
    else Capped(st.(values := Some(Bump(if st.values.Some? then st.values.value else map[], fv.value))))
  }

  /** `volatile` fields are those a matcher or a configured name marks as changing. */
  function RecordField(st: Stats, fv: FieldValue, volatile: bool): Stats {
    var counted := st.(count := st.count + 1, types := Bump(st.types, fv.typ));
    RecordValue(if volatile then Dropped(counted) else counted, fv)
  }

  function StatsAt(t: Table, p: string): Stats { if p in t then t[p] else NO_STATS }

  /** The new fields that fit under the cap; which ones is up to the order of a map. */
  predicate MayAdmit(t: Table, obs: Fields, admitted: set<string>) {
    var unseen := obs.Keys - t.Keys;
    admitted <= unseen
    && |admitted| == if |t| + |unseen| <= FIELD_TRACK_CAP then |unseen|
                     else if |t| <= FIELD_TRACK_CAP then FIELD_TRACK_CAP - |t| else 0
  }

  function RecordFields(t: Table, obs: Fields, admitted: set<string>, volatile: string -> bool): Table {
    map p | p in t.Keys + admitted * obs.Keys ::
      if p in obs then RecordField(StatsAt(t, p), obs[p], volatile(p)) else StatsAt(t, p)
  }

  function Freeze(f: Family, at: int): Family {
    f.(refStatusCodes := f.statusCodes, reference := Some(f.fields), frozen := true, frozenAt := at, frozenSamples := f.samples)
  }

  function Record(f: Family, ts: int, status: int, obs: Fields, admitted: set<string>, volatile: string -> bool): Family {
    f.(samples := f.samples + 1, lastSeen := ts, statusCodes := Bump(f.statusCodes, status),
       fields := RecordFields(f.fields, obs, admitted, volatile))
  }

  // ---- Merging two families ----

  function AbsorbStats(mine: Stats, st: Stats): Stats {
    var sum := mine.(count := mine.count + st.count, types := Plus(mine.types, st.types));
    if st.high then Dropped(sum)
    else if mine.values.Some? && st.values.Some? then
      Capped(sum.(values := Some(Plus(mine.values.value, st.values.value))))
    else sum
  }

  function AbsorbFields(t: Table, other: Table): Table {
    map p | p in t.Keys + other.Keys ::
      if p in t && p in other then AbsorbStats(t[p], other[p]) else if p in t then t[p] else other[p]
  }

  function Absorb(f: Family, other: Family): Family {
    f.(samples := f.samples + other.samples,
       statusCodes := Plus(f.statusCodes, other.statusCodes),
       firstSeen := if other.firstSeen < f.firstSeen || f.firstSeen == ZERO_TIME then other.firstSeen else f.firstSeen,
       lastSeen := if other.lastSeen > f.lastSeen then other.lastSeen else f.lastSeen,
       fields := AbsorbFields(f.fields, other.fields),
       frozen := false, reference := None)
  }

  /** The class is the first digit of the status; whatever is not 2, 3 or 4 hundred counts as 5. */
  lemma StatusClassIs(status: int)
    ensures 200 <= status < 500 ==> StatusClass(status) == [('0' as int + status / 100) as char] + "xx"
    ensures !(200 <= status < 500) ==> StatusClass(status) == "5xx"
  {}

  /** A merged family was first seen when the earlier of the two was, and last when the later was;
      a receiver first seen at the zero time takes the other's. */
  lemma AbsorbTimes(f: Family, other: Family)
    ensures var g := Absorb(f, other);
            && g.lastSeen in {f.lastSeen, other.lastSeen} && g.lastSeen >= f.lastSeen && g.lastSeen >= other.lastSeen
            && (f.firstSeen == ZERO_TIME ==> g.firstSeen == other.firstSeen)
            && (f.firstSeen != ZERO_TIME ==>
                  g.firstSeen in {f.firstSeen, other.firstSeen} && g.firstSeen <= f.firstSeen && g.firstSeen <= other.firstSeen)
            && !g.frozen && g.reference.None? && g.verb == f.verb && g.template == f.template && g.statusClass == f.statusClass
  {
    hide AbsorbFields, Plus;
  }

  // ---- The counts a family keeps ----

  /** A field was counted once for each of its types, and no more often than there were samples. */
  ghost predicate StatsOk(st: Stats, samples: nat) {
    st.count == Total(st.types) && st.count <= samples
  }

  ghost predicate TableOk(t: Table, samples: nat) { forall p | p in t :: StatsOk(t[p], samples) }

  ghost predicate FamilyOk(f: Family) { Total(f.statusCodes) == f.samples && TableOk(f.fields, f.samples) }

  lemma RecordFieldOk(st: Stats, fv: FieldValue, volatile: bool, samples: nat)
    requires StatsOk(st, samples)
    ensures StatsOk(RecordField(st, fv, volatile), samples + 1)
  {
    TotalBump(st.types, fv.typ);
  }

  lemma NoStatsOk(samples: nat)
    ensures StatsOk(NO_STATS, samples)
  {}

  lemma RecordTableOk(t: Table, obs: Fields, admitted: set<string>, volatile: string -> bool, samples: nat)
    requires TableOk(t, samples)
    ensures TableOk(RecordFields(t, obs, admitted, volatile), samples + 1)
  {
    hide RecordField, StatsOk;
    var t' := RecordFields(t, obs, admitted, volatile);
    forall p | p in t' ensures StatsOk(t'[p], samples + 1) {
      NoStatsOk(samples);
      assert p in t ==> StatsOk(t[p], samples);
      if p in obs { RecordFieldOk(StatsAt(t, p), obs[p], volatile(p), samples); }
      else { MoreSamples(StatsAt(t, p), samples, samples + 1); }
    }
  }

  lemma MoreSamples(st: Stats, n: nat, m: nat)
    requires StatsOk(st, n) && n <= m
    ensures StatsOk(st, m)
  {}

  lemma RecordOk(f: Family, ts: int, status: int, obs: Fields, admitted: set<string>, volatile: string -> bool)
    requires FamilyOk(f)
    ensures FamilyOk(Record(f, ts, status, obs, admitted, volatile))
  {
    hide TableOk, RecordFields;
    TotalBump(f.statusCodes, status);
    RecordTableOk(f.fields, obs, admitted, volatile, f.samples);
  }

  lemma AbsorbStatsOk(mine: Stats, st: Stats, n: nat, m: nat)
    requires StatsOk(mine, n) && StatsOk(st, m)
    ensures StatsOk(AbsorbStats(mine, st), n + m)
  {
    hide Plus;
    TotalPlus(mine.types, st.types);
  }

  lemma AbsorbTableOk(t: Table, other: Table, n: nat, m: nat)
    requires TableOk(t, n) && TableOk(other, m)
    ensures TableOk(AbsorbFields(t, other), n + m)
  {
    hide AbsorbStats, StatsOk;
    var t' := AbsorbFields(t, other);
    forall p | p in t' ensures StatsOk(t'[p], n + m) {
      if p in t && p in other { AbsorbStatsOk(t[p], other[p], n, m); }
      else if p in t { MoreSamples(t[p], n, n + m); }
      else { MoreSamples(other[p], m, n + m); }
    }
  }

  lemma AbsorbOk(f: Family, other: Family)
    requires FamilyOk(f) && FamilyOk(other)
    ensures FamilyOk(Absorb(f, other))
  {
    hide TableOk, AbsorbFields, Plus;
    TotalPlus(f.statusCodes, other.statusCodes);
    AbsorbTableOk(f.fields, other.fields, f.samples, other.samples);
  }
}
