/** The effective contract at a version, said entry by entry of the journal's first entries. */
module Resolving {
  import opened Contract
  import opened Text

  /** For each key the value of the latest entry of that kind and key, and no other keys. */
  ghost predicate LatestOf<K(!new), V>(journal: seq<Admission>, kind: Kind, keyOf: Admission -> K, valueOf: Admission -> V, m: map<K, V>) {
    && (forall i: nat | Latest(journal, kind, keyOf, i) :: keyOf(journal[i]) in m && m[keyOf(journal[i])] == valueOf(journal[i]))
    && (forall k | k in m :: exists i: nat :: IsEntry(journal, kind, keyOf, k, i))
  }

  ghost predicate Latest<K(!new)>(journal: seq<Admission>, kind: Kind, keyOf: Admission -> K, i: nat) {
    && i < |journal| && journal[i].kind == kind
    && forall j | i < j < |journal| && journal[j].kind == kind :: keyOf(journal[j]) != keyOf(journal[i])
  }

  ghost predicate IsEntry<K(!new)>(journal: seq<Admission>, kind: Kind, keyOf: Admission -> K, k: K, i: nat) {
    i < |journal| && journal[i].kind == kind && keyOf(journal[i]) == k
  }

  ghost function Entries<K(!new)>(journal: seq<Admission>, kind: Kind, keyOf: Admission -> K, k: K): set<nat> {
    set i: nat | i < |journal| && IsEntry(journal, kind, keyOf, k, i)
  }

  ghost predicate ValuesAt(journal: seq<Admission>, at: seq<nat>, vs: seq<string>) {
    |at| == |vs| && forall x | 0 <= x < |at| :: at[x] < |journal| && vs[x] == journal[at[x]].value
  }

  ghost predicate ListsEntries<K(!new)>(journal: seq<Admission>, kind: Kind, keyOf: Admission -> K, k: K, m: map<K, seq<string>>) {
    && (k in m <==> Entries(journal, kind, keyOf, k) != {})
    && (k in m ==> exists at: seq<nat> :: Picks(at, Entries(journal, kind, keyOf, k)) && ValuesAt(journal, at, m[k]))
  }

  /** For each key the values of all the entries of that kind and key, in order, and no other keys. */
  ghost predicate AllOf<K(!new)>(journal: seq<Admission>, kind: Kind, keyOf: Admission -> K, m: map<K, seq<string>>) {
    forall k :: ListsEntries(journal, kind, keyOf, k, m)
  }

  // ---- The keys and values ----

  function PlaceIn(d: Definition): Admission -> (string, string) { (a: Admission) => (d.upper(a.verb) + "|" + a.template, a.field) }

  function EndpointIn(d: Definition): Admission -> string { (a: Admission) => d.upper(a.verb) + "|" + a.template }

  function ClassIn(d: Definition): Admission -> string { (a: Admission) => d.upper(a.verb) + "|" + a.template + "|" + a.statusClass }

  function SpecOf(d: Definition, ov: Overlay): Admission -> FieldSpec {
    (a: Admission) => FieldSpec(a.typ, a.presence, a.version, LiveValues(d, ov, a), a.at)
  }

  function TypeIn(a: Admission): string { a.typ }

  function ClassOf(a: Admission): string { a.statusClass }

  /** The live values are those observed of the field at the endpoint the entry came from. */
  lemma LiveValuesAre(d: Definition, ov: Overlay, a: Admission, v: string)
    ensures v in LiveValues(d, ov, a) <==>
            exists key | key in ov.endpoints ::
              && (if a.sourceKey == "" then key == d.upper(a.verb) + "|" + a.template + "|" + a.statusClass else key == a.sourceKey)
              && a.field in ov.endpoints[key].fields && v in ov.endpoints[key].fields[a.field].values
  {}

  // ---- One entry more ----

  lemma LatestFront<K(!new)>(journal: seq<Admission>, kind: Kind, keyOf: Admission -> K, i: nat)
    requires journal != []
    ensures i < |journal| - 1 ==>
              (Latest(journal, kind, keyOf, i) <==>
               Latest(Front(journal), kind, keyOf, i) && !(Last(journal).kind == kind && keyOf(Last(journal)) == keyOf(journal[i])))
    ensures Latest(journal, kind, keyOf, |journal| - 1) <==> Last(journal).kind == kind
  {}

  lemma LatestMore<K(!new), V>(journal: seq<Admission>, kind: Kind, keyOf: Admission -> K, valueOf: Admission -> V, m: map<K, V>)
    requires journal != [] && LatestOf(Front(journal), kind, keyOf, valueOf, m)
    ensures var a := Last(journal);
            LatestOf(journal, kind, keyOf, valueOf, if a.kind == kind then m[keyOf(a) := valueOf(a)] else m)
  {
    var front, a := Front(journal), Last(journal);
    var m' := if a.kind == kind then m[keyOf(a) := valueOf(a)] else m;
    forall i: nat | Latest(journal, kind, keyOf, i)
      ensures keyOf(journal[i]) in m' && m'[keyOf(journal[i])] == valueOf(journal[i])
    {
      LatestFront(journal, kind, keyOf, i);
      if i < |front| { assert front[i] == journal[i]; }
    }
    forall k | k in m' ensures exists i: nat :: IsEntry(journal, kind, keyOf, k, i) {
      if a.kind == kind && k == keyOf(a) {
        assert IsEntry(journal, kind, keyOf, k, |front|);
      } else {
        var i: nat :| IsEntry(front, kind, keyOf, k, i);
        assert IsEntry(journal, kind, keyOf, k, i);
      }
    }
  }

  lemma EntriesMore<K(!new)>(journal: seq<Admission>, kind: Kind, keyOf: Admission -> K, k: K)
    requires journal != []
    ensures Entries(journal, kind, keyOf, k)
            == Entries(Front(journal), kind, keyOf, k)
               + if Last(journal).kind == kind && keyOf(Last(journal)) == k then {|journal| - 1} else {}
  {}

  /** The entry of another key, or of another kind. */
  lemma OtherListed<K(!new)>(journal: seq<Admission>, kind: Kind, keyOf: Admission -> K, k: K, m: map<K, seq<string>>, m': map<K, seq<string>>)
    requires journal != [] && ListsEntries(Front(journal), kind, keyOf, k, m)
    requires !(Last(journal).kind == kind && keyOf(Last(journal)) == k) && (k in m' <==> k in m) && (k in m ==> m'[k] == m[k])
    ensures ListsEntries(journal, kind, keyOf, k, m')
  {
    EntriesMore(journal, kind, keyOf, k);
    var before := Entries(Front(journal), kind, keyOf, k);
    hide Entries, Picks;
    assert before + {} == before;
    if k in m {
      var at: seq<nat> :| Picks(at, before) && ValuesAt(Front(journal), at, m[k]);
      assert ValuesAt(journal, at, m'[k]);
    }
  }

  lemma ThisListed<K(!new)>(journal: seq<Admission>, kind: Kind, keyOf: Admission -> K, m: map<K, seq<string>>)
    requires journal != [] && Last(journal).kind == kind && ListsEntries(Front(journal), kind, keyOf, keyOf(Last(journal)), m)
    ensures var a := Last(journal); ListsEntries(journal, kind, keyOf, keyOf(a), Append(m, keyOf(a), a.value))
  {
    var a, n := Last(journal), |journal| - 1;
    var k := keyOf(a);
    var before, m' := Entries(Front(journal), kind, keyOf, k), Append(m, k, a.value);
    EntriesMore(journal, kind, keyOf, k);
    var at: seq<nat> := [];
    if k in m {
      at :| Picks(at, before) && ValuesAt(Front(journal), at, m[k]);
    } else {
      assert Picks(at, before);
    }
    PicksOneMore(at, before, n, Entries(journal, kind, keyOf, k));
    hide Picks;
    assert n in Entries(journal, kind, keyOf, k) && ValuesAt(journal, at + [n], m'[k]);
  }

  lemma AllMore<K(!new)>(journal: seq<Admission>, kind: Kind, keyOf: Admission -> K, m: map<K, seq<string>>)
    requires journal != [] && AllOf(Front(journal), kind, keyOf, m)
    ensures var a := Last(journal); AllOf(journal, kind, keyOf, if a.kind == kind then Append(m, keyOf(a), a.value) else m)
  {
    hide ListsEntries;
    var a := Last(journal);
    var m' := if a.kind == kind then Append(m, keyOf(a), a.value) else m;
    forall k ensures ListsEntries(journal, kind, keyOf, k, m') {
      if a.kind == kind && keyOf(a) == k { ThisListed(journal, kind, keyOf, m); } else { OtherListed(journal, kind, keyOf, k, m, m'); }
    }
  }

  // ---- All of it ----

  /** Added fields and type overrides are those of the latest entry for their place, value unions
      and added statuses list all the entries for theirs, and added endpoints their class. */
  ghost predicate ReadsJournal(d: Definition, ov: Overlay, journal: seq<Admission>, eff: Effective) {
    && LatestOf(journal, AdmitField, PlaceIn(d), SpecOf(d, ov), eff.addedFields)
    && LatestOf(journal, AdmitType, PlaceIn(d), TypeIn, eff.typeOverrides)
    && AllOf(journal, AdmitValue, PlaceIn(d), eff.valueUnions)
    && AllOf(journal, AdmitStatus, EndpointIn(d), eff.addedStatuses)
    && LatestOf(journal, AdmitEndpoint, ClassIn(d), ClassOf, eff.addedEndpoints)
  }

  lemma KeysAre(d: Definition, ov: Overlay, a: Admission)
    ensures PlaceIn(d)(a) == (EndpointKeyOf(d, a.verb, a.template), a.field)
    ensures EndpointIn(d)(a) == EndpointKeyOf(d, a.verb, a.template)
    ensures ClassIn(d)(a) == EndpointKey(d, a.verb, a.template, a.statusClass)
    ensures SpecOf(d, ov)(a) == FieldSpec(a.typ, a.presence, a.version, LiveValues(d, ov, a), a.at)
  {
    hide LiveValues;
  }

  lemma FieldEntry(d: Definition, ov: Overlay, eff: Effective, a: Admission)
    requires a.version <= eff.version
    ensures a.kind.AdmitField? ==>
              ResolveOne(d, ov, eff, a) == eff.(addedFields := eff.addedFields[PlaceIn(d)(a) := SpecOf(d, ov)(a)])
    ensures a.kind.AdmitType? ==> ResolveOne(d, ov, eff, a) == eff.(typeOverrides := eff.typeOverrides[PlaceIn(d)(a) := a.typ])
  {
    KeysAre(d, ov, a);
    hide LiveValues, Append, PlaceIn, SpecOf, EndpointKeyOf, EndpointKey;
  }

  lemma ListEntry(d: Definition, ov: Overlay, eff: Effective, a: Admission)
    requires a.version <= eff.version
    ensures a.kind.AdmitValue? ==> ResolveOne(d, ov, eff, a) == eff.(valueUnions := Append(eff.valueUnions, PlaceIn(d)(a), a.value))
    ensures a.kind.AdmitStatus? ==> ResolveOne(d, ov, eff, a) == eff.(addedStatuses := Append(eff.addedStatuses, EndpointIn(d)(a), a.value))
    ensures a.kind.AdmitEndpoint? ==>
              ResolveOne(d, ov, eff, a) == eff.(addedEndpoints := eff.addedEndpoints[ClassIn(d)(a) := a.statusClass])
  {
    KeysAre(d, ov, a);
    hide LiveValues, Append, PlaceIn, EndpointIn, ClassIn, EndpointKeyOf, EndpointKey;
  }

  /** What one entry changes. */
  ghost predicate Changes(d: Definition, ov: Overlay, eff: Effective, a: Admission, next: Effective) {
    && next.version == eff.version && next.contradictions == eff.contradictions
    && next.addedFields == (if a.kind == AdmitField then eff.addedFields[PlaceIn(d)(a) := SpecOf(d, ov)(a)] else eff.addedFields)
    && next.typeOverrides == (if a.kind == AdmitType then eff.typeOverrides[PlaceIn(d)(a) := TypeIn(a)] else eff.typeOverrides)
    && next.valueUnions == (if a.kind == AdmitValue then Append(eff.valueUnions, PlaceIn(d)(a), a.value) else eff.valueUnions)
    && next.addedStatuses == (if a.kind == AdmitStatus then Append(eff.addedStatuses, EndpointIn(d)(a), a.value) else eff.addedStatuses)
    && next.addedEndpoints
       == (if a.kind == AdmitEndpoint then eff.addedEndpoints[ClassIn(d)(a) := ClassOf(a)] else eff.addedEndpoints)
  }

  lemma OneEntry(d: Definition, ov: Overlay, eff: Effective, a: Admission)
    requires a.version <= eff.version
    ensures Changes(d, ov, eff, a, ResolveOne(d, ov, eff, a))
  {
    hide ResolveOne, Append, PlaceIn, EndpointIn, ClassIn, SpecOf;
    FieldEntry(d, ov, eff, a);
    ListEntry(d, ov, eff, a);
  }

  lemma EntryRead(d: Definition, ov: Overlay, journal: seq<Admission>, eff: Effective)
    requires journal != [] && ReadsJournal(d, ov, Front(journal), eff) && Last(journal).version <= eff.version
    ensures ReadsJournal(d, ov, journal, ResolveOne(d, ov, eff, Last(journal)))
  {
    hide LatestOf, AllOf, ResolveOne, Append, PlaceIn, EndpointIn, ClassIn, SpecOf;
    OneEntry(d, ov, eff, Last(journal));
    LatestMore(journal, AdmitField, PlaceIn(d), SpecOf(d, ov), eff.addedFields);
    LatestMore(journal, AdmitType, PlaceIn(d), TypeIn, eff.typeOverrides);
    AllMore(journal, AdmitValue, PlaceIn(d), eff.valueUnions);
    AllMore(journal, AdmitStatus, EndpointIn(d), eff.addedStatuses);
    LatestMore(journal, AdmitEndpoint, ClassIn(d), ClassOf, eff.addedEndpoints);
  }

  lemma {:induction false} JournalRead(d: Definition, ov: Overlay, version: int, journal: seq<Admission>)
    requires forall i | 0 <= i < |journal| :: journal[i].version <= version
    ensures var eff := ResolveAll(d, ov, version, journal);
            ReadsJournal(d, ov, journal, eff) && eff.version == version && eff.contradictions == ov.contradictions
  {
    if journal != [] {
      hide ReadsJournal, ResolveOne;
      assert Last(journal) == journal[|journal| - 1];
      JournalRead(d, ov, version, Front(journal));
      var eff := ResolveAll(d, ov, version, Front(journal));
      EntryRead(d, ov, journal, eff);
      OneEntry(d, ov, eff, Last(journal));
    }
  }

  /** At a version reached, the contract reads exactly that many entries of the journal. */
  lemma ResolvedIs(d: Definition, ov: Overlay, version: nat)
    requires JournalOk(ov) && version <= ov.version
    ensures var eff := ResolveAt(d, ov, version);
            && ReadsJournal(d, ov, ov.admissions[..version], eff)
            && eff.version == version && eff.contradictions == ov.contradictions
  {
    hide ReadsJournal, ResolveAll, ResolveAt;
    ResolveReadsPrefix(d, ov, version);
    JournalRead(d, ov, version, ov.admissions[..version]);
  }
}
