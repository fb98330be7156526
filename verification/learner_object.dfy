/** The learner as an object. Its families are values here; `FamilyObject` shows that the
    updates in place, with their shared and copied cells, compute the same values. */
module LearnerObject {
  import opened Baseline
  import opened FamilyObject
  import opened Learning
  import PathGuard

  class Learner {
    const guard: PathGuard.Guard
    const settings: Settings
    var families: Families

    ghost predicate Valid()
      reads this
    {
      settings.threshold == guard.threshold && settings.classify == guard.classify
    }

    function Now(): Learned
      reads this, guard
    {
      Learned(guard.Current(), families)
    }

    constructor (classify: string -> string, volatile: string -> bool, minSamples: int, minAge: int)
      ensures Valid() && Now() == NOTHING && fresh(guard)
      ensures settings == Settings(PathGuard.DEFAULT_CARDINALITY_THRESHOLD, classify, volatile, minSamples, minAge)
    {
      guard := new PathGuard.Guard(0, classify);
      settings := Settings(PathGuard.DEFAULT_CARDINALITY_THRESHOLD, classify, volatile, minSamples, minAge);
      families := map[];
    }

    /** Regroups the families under their templates as the guard now sees them, in whatever
        order their map gives; `order` is the one taken. */
    method MergeFamiliesLocked() returns (ghost order: seq<Key>)
      requires Valid()
      modifies this`families, guard
      ensures Lists(order, old(families)) && Now() == Merge(settings, old(Now()), order)
    {
      hide MergeOne;
      ghost var start := Now();
      order := [];
      var keys := families.Keys;
      var merged: Families := map[];
      while keys != {}
        invariant keys <= families.Keys && families == start.families
        invariant forall i | 0 <= i < |order| :: order[i] in families && order[i] !in keys
        invariant forall i, j | 0 <= i < j < |order| :: order[i] != order[j]
        invariant forall k | k in families && k !in keys :: k in order
        invariant Learned(guard.Current(), merged) == Merge(settings, start, order)
      {
        var k :| k in keys;
        keys := keys - {k};
        merged := MergeInto(merged, families[k]);
        MergeNext(settings, start, order, k);
        order := order + [k];
      }
      families := merged;
    }

    method MergeInto(merged: Families, f: Family) returns (into: Families)
      requires Valid()
      modifies guard
      ensures Learned(guard.Current(), into) == MergeOne(settings, Learned(old(guard.Current()), merged), f)
    {
      hide PathGuard.Applied, Absorb;
      var template, _ := guard.Apply(f.template);
      var k := Key(f.verb, template, f.statusClass);
      if k in merged {
        into := merged[k := Absorb(merged[k], f)];
      } else {
        into := merged[k := f.(template := template)];
      }
    }

    /** The new fields there is room for, in whatever order the observation lists them. */
    static method NewFields(t: Table, obs: Fields) returns (admitted: set<string>)
      ensures MayAdmit(t, obs, admitted)
    {
      admitted := {};
      var room := FIELD_TRACK_CAP - |t|;
      var keys := obs.Keys;
      ghost var done := obs.Keys - keys;
      RoomFirst(t, done, room);
      hide Counts;
      while keys != {}
        invariant keys <= obs.Keys && done == obs.Keys - keys && Counts(t, admitted, done, room)
      {
        var p :| p in keys;
        OneDone(obs.Keys, keys, done, p);
        RoomNext(t, admitted, done, p, room);
        keys := keys - {p};
        done := done + {p};
        if p !in t && room > 0 { admitted, room := admitted + {p}, room - 1; }
      }
      RoomLast(t, obs, admitted, done, room);
    }

    method Observe(verb: string, path: PathGuard.Path, status: int, obs: Fields, ts: int, now: int)
      returns (ghost e: Event, ready: bool, template: PathGuard.Path)
      requires Valid()
      modifies this`families, guard
      ensures e.Observe? && e.verb == verb && e.path == path && e.status == status && e.obs == obs && e.ts == ts && e.now == now
      ensures Allowed(settings, old(Now()), e) && Now() == Step(settings, old(Now()), e)
      ensures template == KeyFor(settings, old(Now()), e).template
      ensures KeyFor(settings, old(Now()), e) in families && ready == families[KeyFor(settings, old(Now()), e)].frozen
    {
      hide MayAdmit, PathGuard.Applied, Merge, RecordFields, Lists;
      ghost var order: seq<Key> := [];
      var promo;
      template, promo := guard.Apply(path);
      if promo.Some? {
        order := MergeFamiliesLocked();
      }
      var k := Key(verb, template, StatusClass(status));
      var fam := FamilyFor(families, k, ts);
      var admitted := NewFields(fam.fields, obs);
      e := Event.Observe(verb, path, status, obs, ts, now, order, admitted);
      fam := FreezeIfWarm(fam, ts, now);
      hide Warmed;
      ready := fam.frozen;
      families := families[k := Record(fam, ts, status, obs, admitted, settings.volatile)];
    }

    method FreezeIfWarm(f: Family, ts: int, now: int) returns (g: Family)
      ensures g == Warmed(settings, f, ts, now)
    {
      g := f;
      if !f.frozen && f.samples >= settings.minSamples && ts - f.firstSeen >= settings.minAge {
        g := Freeze(f, now);
      }
    }

    method RefreezeTemplate(verb: string, template: PathGuard.Path, now: int) returns (n: nat)
      modifies this`families
      ensures families == RefreezeAll(old(families), Event.Refreeze(verb, template, now))
      ensures n == |RefrozenKeys(old(families), Event.Refreeze(verb, template, now))|
    {
      hide Freeze, RefreezeAll, RefrozenAmong;
      n := 0;
      ghost var was, e := families, Event.Refreeze(verb, template, now);
      var keys := families.Keys;
      RefrozenEnds(was, e);
      while keys != {}
        invariant keys <= was.Keys == families.Keys
        invariant forall k | k in families :: families[k] == if k in keys then was[k] else RefreezeAll(was, e)[k]
        invariant n == RefrozenAmong(was, e, was.Keys - keys)
      {
        var k :| k in keys;
        RefrozenNext(was, e, was.Keys - keys, k);
        Moves(was.Keys, keys, k);
        keys := keys - {k};
        var f := families[k];
        if f.verb == verb && f.template == template && f.frozen {
          families := families[k := Freeze(f, now)];
          n := n + 1;
        }
      }
      assert was.Keys - {} == was.Keys;
      SameMaps(families, RefreezeAll(was, e));
    }
  }

  lemma SameMaps(fs: Families, gs: Families)
    requires fs.Keys == gs.Keys && forall k | k in fs :: fs[k] == gs[k]
    ensures fs == gs
  {}

  lemma Moves(all: set<Key>, keys: set<Key>, k: Key)
    requires k in keys && keys <= all
    ensures all - keys + {k} == all - (keys - {k})
  {}

  /** How many of the families done were refrozen. */
  ghost function RefrozenAmong(fs: Families, e: Event, done: set<Key>): nat
    requires e.Refreeze?
  {
    |RefrozenKeys(fs, e) * done|
  }

  lemma RefrozenEnds(fs: Families, e: Event)
    requires e.Refreeze?
    ensures RefreezeAll(fs, e).Keys == fs.Keys
    ensures RefrozenAmong(fs, e, {}) == 0 && RefrozenAmong(fs, e, fs.Keys) == |RefrozenKeys(fs, e)|
    ensures fs.Keys - fs.Keys == {}
  {
    hide Freeze, Refrozen;
    assert RefrozenKeys(fs, e) * {} == {} && RefrozenKeys(fs, e) * fs.Keys == RefrozenKeys(fs, e);
  }

  lemma RefrozenNext(fs: Families, e: Event, done: set<Key>, k: Key)
    requires e.Refreeze? && k in fs && k !in done
    ensures var refreezes := fs[k].verb == e.refrozen && fs[k].template == e.template && fs[k].frozen;
            && k in RefreezeAll(fs, e) && RefreezeAll(fs, e)[k] == (if refreezes then Freeze(fs[k], e.now) else fs[k])
            && RefrozenAmong(fs, e, done + {k}) == RefrozenAmong(fs, e, done) + if refreezes then 1 else 0
  {
    hide Freeze;
    var all := RefrozenKeys(fs, e);
    if Refrozen(fs[k], e) {
      assert all * (done + {k}) == all * done + {k};
    } else {
      assert all * (done + {k}) == all * done;
    }
  }

  /** `room` fields fit beside the table and those admitted of the ones done. */
  ghost predicate Counts(t: Table, admitted: set<string>, done: set<string>, room: int) {
    admitted <= done - t.Keys && Room(t.Keys, admitted, done) && room == FIELD_TRACK_CAP - |t.Keys + admitted|
  }

  lemma RoomFirst(t: Table, done: set<string>, room: int)
    requires done == {} && room == FIELD_TRACK_CAP - |t|
    ensures Counts(t, {}, done, room)
  {}

  lemma RoomNext(t: Table, admitted: set<string>, done: set<string>, p: string, room: int)
    requires p !in done && Counts(t, admitted, done, room)
    ensures if p !in t && room > 0 then Counts(t, admitted + {p}, done + {p}, room - 1)
            else Counts(t, admitted, done + {p}, room)
  {
    hide Room;
    RoomStep(t.Keys, admitted, done, p, p in t || room > 0);
    if p !in t { OneMore(t.Keys, admitted, p); }
  }

  lemma RoomLast(t: Table, obs: Fields, admitted: set<string>, done: set<string>, room: int)
    requires done == obs.Keys - {} && Counts(t, admitted, done, room)
    ensures MayAdmit(t, obs, admitted)
  {
    hide MayAdmit;
    RoomAdmits(t, obs, admitted);
  }

  lemma MergeNext(c: Settings, l: Learned, order: seq<Key>, k: Key)
    requires k in l.families && forall i | 0 <= i < |order| :: order[i] in l.families
    ensures Merge(c, l, order + [k]) == MergeOne(c, Merge(c, l, order), l.families[k])
  {}
}
