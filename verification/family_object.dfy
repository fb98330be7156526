/** Families as objects: field statistics updated in place, references deep-copied. */
module FamilyObject {
  import opened Baseline
  import FamilyHistory
  import opened Learning
  import opened PathGuard
  import opened Text
  import opened Totals

  class FieldStats {
    var count: nat
    var types: map<string, nat>
    var values: Option<map<string, nat>>
    var high: bool

    function Now(): Stats
      reads this
    {
      Stats(count, types, values, high)
    }

    constructor ()
      ensures Now() == NO_STATS
    {
      count, types, values, high := 0, map[], None, false;
    }

    constructor CopyOf(st: FieldStats)
      ensures Now() == old(st.Now())
    {
      count, types, values, high := st.count, st.types, st.values, st.high;
    }

    method Record(fv: FieldValue, volatile: bool)
      modifies this
      ensures Now() == RecordField(old(Now()), fv, volatile)
    {
      count := count + 1;
      types := Bump(types, fv.typ);
      if volatile {
        values, high := None, true;
      }
      if fv.typ == "string" && !high {
        if values.None? { values := Some(map[]); }
        values := Some(Bump(values.value, fv.value));
        if |values.value| > VALUE_TRACK_CAP {
          values, high := None, true;
        }
      }
    }

    method Absorb(st: FieldStats)
      requires st != this
      modifies this
      ensures Now() == AbsorbStats(old(Now()), st.Now())
    {
      count := count + st.count;
      types := Plus(types, st.types);
      if st.high {
        values, high := None, true;
      } else if values.Some? && st.values.Some? {
        values := Some(Plus(values.value, st.values.value));
        if |values.value| > VALUE_TRACK_CAP {
          values, high := None, true;
        }
      }
    }
  }

  type Cells = map<string, FieldStats>

  ghost function Objects(m: Cells): set<FieldStats> { set p | p in m :: m[p] }

  lemma ObjectsAdd(m: Cells, p: string, st: FieldStats)
    requires p !in m
    ensures Objects(m[p := st]) == Objects(m) + {st}
  {
    var m' := m[p := st];
    assert forall q | q in m :: m'[q] == m[q];
    assert m'[p] == st;
  }

  function TableOf(m: Cells): Table
    reads Objects(m)
  {
    map p | p in m :: m[p].Now()
  }

  /** No two fields share a cell. */
  ghost predicate Apart(m: Cells) { forall p, q | p in m && q in m && p != q :: m[p] != m[q] }

  class FamilyCell {
    var verb: string
    var template: Path
    var statusClass: string
    var samples: nat
    var firstSeen: int
    var lastSeen: int
    var fields: Cells
    var statusCodes: map<int, nat>
    var refStatusCodes: map<int, nat>
    var frozen: bool
    var reference: Option<Cells>
    var frozenAt: int
    var frozenSamples: nat

    ghost function RefObjects(): set<FieldStats>
      reads this
    {
      if reference.Some? then Objects(reference.value) else {}
    }

    /** The live cells are distinct, and none of them is in the reference. */
    ghost predicate Valid()
      reads this
    {
      Apart(fields) && Objects(fields) !! RefObjects()
    }

    ghost function Repr(): set<object>
      reads this
    {
      {this} + Objects(fields) + RefObjects()
    }

    ghost function Now(): Family
      reads Repr()
    {
      Family(verb, template, statusClass, samples, firstSeen, lastSeen, TableOf(fields), statusCodes, refStatusCodes,
             frozen, if reference.Some? then Some(TableOf(reference.value)) else None, frozenAt, frozenSamples)
    }

    constructor (k: Key, ts: int)
      ensures Valid() && Now() == NewFamily(k, ts) && Repr() == {this}
    {
      verb, template, statusClass := k.verb, k.template, k.statusClass;
      samples, firstSeen, lastSeen := 0, ts, ZERO_TIME;
      fields, statusCodes, refStatusCodes := map[], map[], map[];
      frozen, reference, frozenAt, frozenSamples := false, None, ZERO_TIME, 0;
    }

    /** A deep copy: later updates of the live cells do not reach the reference. */
    method Freeze(at: int)
      requires Valid()
      modifies this
      ensures Valid() && Now() == Baseline.Freeze(old(Now()), at)
      ensures fields == old(fields) && fresh(RefObjects())
    {
      var ref := CopyTable(fields);
      hide TableOf, Apart;
      KeepReference(ref, at);
    }

    method KeepReference(ref: Cells, at: int)
      modifies this`refStatusCodes, this`reference, this`frozen, this`frozenAt, this`frozenSamples
      ensures refStatusCodes == statusCodes && reference == Some(ref) && frozen && frozenAt == at && frozenSamples == samples
    {
      refStatusCodes := statusCodes;
      reference, frozen, frozenAt := Some(ref), true, at;
      frozenSamples := samples;
    }

    static method CopyTable(from: Cells) returns (to: Cells)
      ensures TableOf(to) == old(TableOf(from)) && Apart(to) && fresh(Objects(to))
    {
      to := map[];
      ghost var was := TableOf(from);
      var keys := from.Keys;
      while keys != {}
        invariant keys <= from.Keys && to.Keys == from.Keys - keys
        invariant forall p | p in from :: from[p].Now() == was[p]
        invariant forall p | p in to :: fresh(to[p]) && to[p].Now() == was[p]
        invariant forall p, q | p in to && q in to && p != q :: to[p] != to[q]
      {
        var p :| p in keys;
        keys := keys - {p};
        var cp := new FieldStats.CopyOf(from[p]);
        to := to[p := cp];
      }
    }

    /** Counts one field, in a cell found or, under the cap, made for it. */
    method RecordPath(p: string, fv: FieldValue, volatile: bool) returns (ghost took: bool)
      requires Valid()
      modifies this`fields, Objects(fields)
      ensures Valid() && reference == old(reference)
      ensures took == (p in old(fields) || |old(fields)| < FIELD_TRACK_CAP)
      ensures TableOf(fields) == if took then Taking(old(TableOf(fields)), p, fv, volatile) else old(TableOf(fields))
      ensures forall o | o in Objects(fields) :: o in old(Objects(fields)) || fresh(o)
    {
      took := true;
      if p !in fields {
        if |fields| >= FIELD_TRACK_CAP { return false; }
        AddCell(p);
      }
      Bumped(p, fv, volatile);
    }

    method AddCell(p: string)
      requires Valid() && p !in fields
      modifies this`fields
      ensures Valid() && reference == old(reference) && p in fields
      ensures TableOf(fields) == old(TableOf(fields))[p := NO_STATS]
      ensures Objects(fields) == old(Objects(fields)) + {fields[p]} && fresh(fields[p])
    {
      var st := new FieldStats();
      ObjectsAdd(fields, p, st);
      fields := fields[p := st];
      hide Objects;
      assert TableOf(fields) == old(TableOf(fields))[p := NO_STATS];
    }

    method Bumped(p: string, fv: FieldValue, volatile: bool)
      requires Valid() && p in fields
      modifies fields[p]
      ensures Valid()
      ensures TableOf(fields) == Taking(old(TableOf(fields)), p, fv, volatile)
    {
      hide RecordField;
      ghost var t := TableOf(fields);
      fields[p].Record(fv, volatile);
      assert fields[p].Now() == RecordField(t[p], fv, volatile);
      assert forall q | q in fields && q != p :: fields[q].Now() == t[q];
      assert TableOf(fields) == Taking(t, p, fv, volatile);
    }

    /** Walks the observed fields in whatever order their map gives. */
    method RecordFields(obs: Fields, volatile: string -> bool) returns (ghost admitted: set<string>)
      requires Valid()
      modifies this`fields, Objects(fields)
      ensures Valid() && reference == old(reference)
      ensures MayAdmit(old(TableOf(fields)), obs, admitted)
      ensures TableOf(fields) == Baseline.RecordFields(old(TableOf(fields)), obs, admitted, volatile)
      ensures forall o | o in Objects(fields) :: o in old(Objects(fields)) || fresh(o)
    {
      hide RecordField, Objects, TableOf, Apart, RecordSome, Room, Taking, Baseline.RecordFields, MayAdmit;
      ghost var was := TableOf(fields);
      SizeOf(fields);
      var keys := obs.Keys;
      admitted := {};
      NoneRecorded(was, obs, volatile);
      while keys != {}
        invariant Valid() && reference == old(reference)
        invariant keys <= obs.Keys && admitted <= obs.Keys - keys - was.Keys
        invariant TableOf(fields) == RecordSome(was, obs, admitted, obs.Keys - keys, volatile)
        invariant Room(was.Keys, admitted, obs.Keys - keys)
        invariant forall o | o in Objects(fields) :: o in old(Objects(fields)) || fresh(o)
      {
        var p :| p in keys;
        ghost var done, before := obs.Keys - keys, TableOf(fields);
        SizeOf(fields);
        var took := RecordPath(p, obs[p], volatile(p));
        keys := keys - {p};
        assert obs.Keys - keys == done + {p};
        admitted := RecordStep(was, obs, admitted, done, p, took, volatile, before, TableOf(fields));
      }
      assert obs.Keys - keys == obs.Keys;
      RoomAdmits(was, obs, admitted);
      AllRecorded(was, obs, admitted, volatile);
    }

    /** One observation; the reference keeps its cells and what they hold. */
    method Record(ts: int, status: int, obs: Fields, volatile: string -> bool) returns (ghost admitted: set<string>)
      requires Valid()
      modifies this, Objects(fields)
      ensures Valid() && reference == old(reference)
      ensures MayAdmit(old(Now()).fields, obs, admitted)
      ensures Now() == Baseline.Record(old(Now()), ts, status, obs, admitted, volatile)
      ensures forall o | o in Objects(fields) :: o in old(Objects(fields)) || fresh(o)
    {
      hide TableOf, Apart, MayAdmit, Baseline.RecordFields;
      samples := samples + 1;
      lastSeen := ts;
      statusCodes := Bump(statusCodes, status);
      admitted := RecordFields(obs, volatile);
    }

    method AbsorbNew(p: string, st: FieldStats)
      requires p !in fields
      modifies this`fields
      ensures fields == old(fields)[p := st]
      ensures TableOf(fields) == old(TableOf(fields))[p := st.Now()]
    {
      TableAdd(fields, p, st);
      fields := fields[p := st];
    }

    method AbsorbShared(p: string, st: FieldStats)
      requires Apart(fields) && p in fields && st !in Objects(fields)
      modifies fields[p]
      ensures p in old(TableOf(fields))
      ensures TableOf(fields) == old(TableOf(fields))[p := AbsorbStats(old(TableOf(fields))[p], st.Now())]
    {
      hide AbsorbStats;
      ghost var t := TableOf(fields);
      fields[p].Absorb(st);
      assert forall q | q in fields && q != p :: fields[q].Now() == t[q];
      assert TableOf(fields) == t[p := fields[p].Now()];
    }

    method AbsorbNext(p: string, st: FieldStats, ghost own: Cells, ghost theirs: Cells, ghost done: set<string>)
      requires Merging(fields, own, theirs, done) && p in theirs && st == theirs[p] && p !in done
      modifies this`fields, Objects(own)
      ensures Merging(fields, own, theirs, done + {p}) && TableOf(theirs) == old(TableOf(theirs))
      ensures var t, o := old(TableOf(fields)), old(TableOf(theirs));
              p in o && (p in own ==> p in t)
              && TableOf(fields) == t[p := if p in own then AbsorbStats(t[p], o[p]) else o[p]]
    {
      MergingOne(fields, own, theirs, done, p);
      TableAt(theirs, p);
      hide AbsorbStats, TableOf, Merging, Apart, Objects;
      if p !in fields {
        AbsorbNew(p, st);
      } else {
        AbsorbShared(p, st);
      }
    }

    /** Takes over the cells of fields only the other family has, and adds up the shared ones
        in its own. */
    method AbsorbCells(theirs: Cells)
      requires Apart(fields) && Apart(theirs) && Objects(fields) !! Objects(theirs)
      modifies this`fields, Objects(fields)
      ensures Apart(fields) && Objects(fields) <= old(Objects(fields)) + Objects(theirs)
      ensures TableOf(fields) == Baseline.AbsorbFields(old(TableOf(fields)), old(TableOf(theirs)))
    {
      ghost var was, o, own := TableOf(fields), TableOf(theirs), fields;
      SizeOf(fields);
      SizeOf(theirs);
      AbsorbNone(was, o);
      MergingStarts(own, theirs);
      hide AbsorbStats, TableOf, AbsorbSome, Baseline.AbsorbFields, Merging, Apart, Objects;
      var keys := theirs.Keys;
      ghost var done := theirs.Keys - keys;
      while keys != {}
        invariant keys <= theirs.Keys && done == theirs.Keys - keys
        invariant Merging(fields, own, theirs, done)
        invariant TableOf(theirs) == o
        invariant TableOf(fields) == AbsorbSome(was, o, done)
      {
        var p :| p in keys;
        AbsorbSomeStep(was, o, done, p);
        AbsorbNext(p, theirs[p], own, theirs, done);
        OneDone(theirs.Keys, keys, done, p);
        keys := keys - {p};
        done := done + {p};
      }
      AbsorbAll(was, o, done);
      MergingEnds(fields, own, theirs, done);
    }

    /** Adds the other family to this one, which is no longer frozen. */
    method Absorb(other: FamilyCell)
      requires Valid() && other.Valid() && other != this && Objects(fields) !! Objects(other.fields)
      modifies this, Objects(fields)
      ensures Valid() && Now() == Baseline.Absorb(old(Now()), old(other.Now()))
      ensures Objects(fields) <= old(Objects(fields)) + old(Objects(other.fields)) && reference.None?
    {
      hide TableOf, Baseline.AbsorbFields, Plus, Apart, Objects;
      AbsorbCounts(other);
      AbsorbCells(other.fields);
      Melt();
    }

    method AbsorbCounts(other: FamilyCell)
      requires other != this
      modifies this`samples, this`statusCodes, this`firstSeen, this`lastSeen
      ensures samples == old(samples) + other.samples && statusCodes == Plus(old(statusCodes), other.statusCodes)
      ensures firstSeen == if other.firstSeen < old(firstSeen) || old(firstSeen) == ZERO_TIME then other.firstSeen else old(firstSeen)
      ensures lastSeen == if other.lastSeen > old(lastSeen) then other.lastSeen else old(lastSeen)
      ensures TableOf(fields) == old(TableOf(fields)) && TableOf(other.fields) == old(TableOf(other.fields))
    {
      hide Plus;
      samples := samples + other.samples;
      statusCodes := Plus(statusCodes, other.statusCodes);
      if other.firstSeen < firstSeen || firstSeen == ZERO_TIME {
        firstSeen := other.firstSeen;
      }
      if other.lastSeen > lastSeen {
        lastSeen := other.lastSeen;
      }
    }

    method Melt()
      modifies this`frozen, this`reference
      ensures !frozen && reference.None? && TableOf(fields) == old(TableOf(fields))
    {
      frozen, reference := false, None;
    }
  }

  lemma OneDone(all: set<string>, keys: set<string>, done: set<string>, p: string)
    requires keys <= all && done == all - keys && p in keys
    ensures done + {p} == all - (keys - {p})
  {}

  /** The fields in `done` merged: own cells where there were, the other's elsewhere. */
  ghost predicate Merging(m: Cells, own: Cells, theirs: Cells, done: set<string>) {
    && Apart(own) && Apart(theirs) && Objects(own) !! Objects(theirs)
    && m.Keys == own.Keys + done && done <= theirs.Keys
    && (forall q | q in m :: m[q] == if q in own then own[q] else theirs[q])
  }

  lemma MergingStarts(own: Cells, theirs: Cells)
    requires Apart(own) && Apart(theirs) && Objects(own) !! Objects(theirs)
    ensures Merging(own, own, theirs, theirs.Keys - theirs.Keys)
  {}

  lemma MergingOne(m: Cells, own: Cells, theirs: Cells, done: set<string>, p: string)
    requires Merging(m, own, theirs, done) && p in theirs && p !in done
    ensures p in m <==> p in own
    ensures Apart(m) && theirs[p] in Objects(theirs) && theirs[p] !in Objects(m)
    ensures if p in m then m[p] in Objects(own) && m[p] !in Objects(theirs) && Merging(m, own, theirs, done + {p})
            else Merging(m[p := theirs[p]], own, theirs, done + {p})
  {
    MergingEnds(m, own, theirs, done);
  }

  lemma MergingEnds(m: Cells, own: Cells, theirs: Cells, done: set<string>)
    requires Merging(m, own, theirs, done)
    ensures Apart(m) && Objects(m) <= Objects(own) + Objects(theirs)
    ensures forall q | q in theirs && q !in done :: theirs[q] in Objects(theirs) && theirs[q] !in Objects(m)
    ensures forall q | q in own :: own[q] in Objects(own)
  {
    assert forall q | q in theirs :: theirs[q] in Objects(theirs);
  }

  lemma TableAt(m: Cells, p: string)
    requires p in m
    ensures p in TableOf(m) && TableOf(m)[p] == m[p].Now()
  {}

  lemma TableAdd(m: Cells, p: string, st: FieldStats)
    requires p !in m
    ensures TableOf(m[p := st]) == TableOf(m)[p := st.Now()]
  {}

  /** The fields merged so far. */
  function AbsorbSome(t: Table, other: Table, done: set<string>): Table {
    map p | p in t.Keys + done * other.Keys ::
      if p in t && p in other && p in done then AbsorbStats(t[p], other[p]) else if p in t then t[p] else StatsAt(other, p)
  }

  lemma AbsorbNone(t: Table, other: Table)
    ensures AbsorbSome(t, other, other.Keys - other.Keys) == t
  {}

  lemma AbsorbAll(t: Table, other: Table, done: set<string>)
    requires done == other.Keys - {}
    ensures done == other.Keys && AbsorbSome(t, other, done) == Baseline.AbsorbFields(t, other)
  {
    hide AbsorbStats;
  }

  lemma AbsorbSomeStep(t: Table, other: Table, done: set<string>, p: string)
    requires p in other && p !in done && done <= other.Keys
    ensures var r := AbsorbSome(t, other, done);
            r.Keys == t.Keys + done && (p in t ==> r[p] == t[p])
            && AbsorbSome(t, other, done + {p}) == r[p := if p in t then AbsorbStats(t[p], other[p]) else other[p]]
  {
    hide AbsorbStats;
  }

  lemma SizeOf(m: Cells)
    ensures TableOf(m).Keys == m.Keys && |TableOf(m)| == |m|
  {
    assert TableOf(m).Keys == m.Keys;
    assert |TableOf(m)| == |TableOf(m).Keys|;
  }

  /** The observed fields done so far counted, the rest as they were. */
  function RecordSome(t: Table, obs: Fields, admitted: set<string>, done: set<string>, volatile: string -> bool): Table {
    map p | p in t.Keys + admitted * obs.Keys ::
      if p in obs && p in done then RecordField(StatsAt(t, p), obs[p], volatile(p)) else StatsAt(t, p)
  }

  lemma NoneRecorded(t: Table, obs: Fields, volatile: string -> bool)
    ensures RecordSome(t, obs, {}, obs.Keys - obs.Keys, volatile) == t && Room(t.Keys, {}, obs.Keys - obs.Keys)
  {
    hide RecordField;
  }

  lemma AllRecorded(t: Table, obs: Fields, admitted: set<string>, volatile: string -> bool)
    ensures RecordSome(t, obs, admitted, obs.Keys, volatile) == Baseline.RecordFields(t, obs, admitted, volatile)
  {
    hide RecordField;
  }

  lemma RecordSomeStep(t: Table, obs: Fields, admitted: set<string>, done: set<string>, p: string, volatile: string -> bool)
    requires p in obs && p !in done && admitted <= done - t.Keys && done <= obs.Keys
    ensures var r := RecordSome(t, obs, admitted, done, volatile);
            r.Keys == t.Keys + admitted
            && Taking(r, p, obs[p], volatile(p))
               == RecordSome(t, obs, if p in t then admitted else admitted + {p}, done + {p}, volatile)
            && (p !in t ==> r == RecordSome(t, obs, admitted, done + {p}, volatile))
  {
    hide RecordField;
  }

  /** Nothing was left out unless the table is full, and nothing was added beyond that. */
  ghost predicate Room(known: set<string>, admitted: set<string>, done: set<string>) {
    && (admitted == done - known || |known + admitted| >= FIELD_TRACK_CAP)
    && (admitted == {} || |known + admitted| <= FIELD_TRACK_CAP)
  }

  lemma RoomStep(known: set<string>, admitted: set<string>, done: set<string>, p: string, took: bool)
    requires p !in done && admitted <= done - known && Room(known, admitted, done)
    requires took == (p in known || |known + admitted| < FIELD_TRACK_CAP)
    ensures Room(known, if took && p !in known then admitted + {p} else admitted, done + {p})
  {
    if p in known {
      assert done + {p} - known == done - known;
    } else if took {
      NotYet(known, admitted, done, p);
      OneMore(known, admitted, p);
    }
  }

  lemma NotYet(known: set<string>, admitted: set<string>, done: set<string>, p: string)
    requires p !in known && admitted == done - known
    ensures admitted + {p} == done + {p} - known
  {}

  lemma OneMore(known: set<string>, admitted: set<string>, p: string)
    requires p !in known + admitted
    ensures |known + (admitted + {p})| == |known + admitted| + 1
  {
    assert known + (admitted + {p}) == (known + admitted) + {p};
  }

  lemma RecordStep(t: Table, obs: Fields, admitted: set<string>, done: set<string>, p: string, took: bool,
                   volatile: string -> bool, before: Table, after: Table)
    returns (admitted': set<string>)
    requires p in obs && p !in done && admitted <= done - t.Keys && done <= obs.Keys && Room(t.Keys, admitted, done)
    requires before == RecordSome(t, obs, admitted, done, volatile)
    requires took == (p in before || |before| < FIELD_TRACK_CAP)
    requires after == if took then Taking(before, p, obs[p], volatile(p)) else before
    ensures admitted' <= done + {p} - t.Keys && Room(t.Keys, admitted', done + {p})
    ensures after == RecordSome(t, obs, admitted', done + {p}, volatile)
  {
    hide Room, RecordSome, Taking;
    admitted' := if took && p !in t then admitted + {p} else admitted;
    RecordSomeStep(t, obs, admitted, done, p, volatile);
    assert |before| == |before.Keys| == |t.Keys + admitted|;
    RoomStep(t.Keys, admitted, done, p, took);
  }

  lemma RoomAdmits(t: Table, obs: Fields, admitted: set<string>)
    requires admitted <= obs.Keys - t.Keys && Room(t.Keys, admitted, obs.Keys)
    ensures MayAdmit(t, obs, admitted)
  {
    assert |t| == |t.Keys| && |t.Keys + admitted| == |t.Keys| + |admitted|;
    PathGuard.SubsetSize(admitted, obs.Keys - t.Keys);
    if |admitted| == |obs.Keys - t.Keys| { FamilyHistory.SubsetOfSize(admitted, obs.Keys - t.Keys); }
    else { assert admitted != obs.Keys - t.Keys; }
  }

  /** One field of a table counted. */
  function Taking(t: Table, p: string, fv: FieldValue, volatile: bool): Table {
    t[p := RecordField(StatsAt(t, p), fv, volatile)]
  }
}