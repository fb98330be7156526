/** The refiner: admitting into the overlay in place, and taking in observed records. */
module RefinerObject {
  import opened Contract
  import opened Names
  import opened Observing
  import opened Text
  import opened Totals

  /** The keys of the journal: `journaled`. */
  function KeysOf(journal: seq<Admission>): set<string> { set i | 0 <= i < |journal| :: KeyText(journal[i]) }

  lemma JournaledIs(ov: Overlay, key: string)
    ensures key in KeysOf(ov.admissions) <==> Journaled(ov, key)
  {}

  lemma KeysMore(journal: seq<Admission>, a: Admission)
    ensures KeysOf(journal + [a]) == KeysOf(journal) + {KeyText(a)}
  {
    hide KeyText;
    var more := journal + [a];
    forall k ensures k in KeysOf(more) <==> k in KeysOf(journal) + {KeyText(a)} {
      if k in KeysOf(journal) {
        var i :| 0 <= i < |journal| && KeyText(journal[i]) == k;
        assert more[i] == journal[i];
      }
      assert more[|journal|] == a;
    }
  }

  lemma {:induction false} TakeAllAppend(ov: Overlay, a: seq<Proposal>, b: seq<Proposal>)
    ensures TakeAll(TakeAll(ov, a), b) == TakeAll(ov, a + b)
  {
    if b == [] {
      assert a + b == a;
    } else {
      hide TakeAll, Take;
      TakeAllAppend(ov, a, Front(b));
      AppendLast(a, b);
      TakeLast(TakeAll(ov, a), b);
      TakeLast(ov, a + b);
    }
  }

  lemma AppendLast(a: seq<Proposal>, b: seq<Proposal>)
    requires b != []
    ensures a + b != [] && Front(a + b) == a + Front(b) && Last(a + b) == Last(b)
  {}

  lemma TakeLast(ov: Overlay, ps: seq<Proposal>)
    requires ps != []
    ensures TakeAll(ov, ps) == Take(TakeAll(ov, Front(ps)), Last(ps))
  {}

  lemma TakeAllOne(ov: Overlay, p: Proposal)
    ensures TakeAll(ov, [p]) == Take(ov, p) && TakeAll(ov, []) == ov
  {}

  class Refiner {
    const settings: Settings
    var overlay: Overlay

    constructor (settings: Settings)
      ensures this.settings == settings && overlay == EMPTY
    {
      this.settings, overlay := settings, EMPTY;
    }

    /** Takes in a JSON record; the journal is not touched. */
    method Observe(rec: Record, now: int)
      modifies this`overlay
      ensures overlay == old(overlay).(endpoints := Observing.Observe(old(overlay).endpoints, rec, now))
    {
      hide ObserveEndpoint, SeeAll, RedactAll;
      var k := Observing.KeyOf(rec);
      var ep;
      if k in overlay.endpoints {
        ep := overlay.endpoints[k];
      } else {
        if |overlay.endpoints| >= MAX_ENDPOINTS { return; }
        ep := NewEndpoint(rec, now);
      }
      ep := Recorded(ep, rec, now);
      overlay := overlay.(endpoints := overlay.endpoints[k := ep]);
    }

    static method Recorded(ep0: ObservedEndpoint, rec: Record, now: int) returns (ep: ObservedEndpoint)
      ensures ep == ObserveEndpoint(ep0, rec, now)
    {
      hide See, Redact, WithField, Sampled;
      ep := ep0.(samples := ep0.samples + 1, lastSeen := now, statusCodes := Bump(ep0.statusCodes, CodeText(rec.status)));
      ghost var counted := ep;
      var seen: set<string> := {};
      var i := 0;
      while i < |rec.visits|
        invariant 0 <= i <= |rec.visits|
        invariant ep == SeeAll(counted, rec.visits[..i]) && seen == SeenPaths(counted, rec.visits[..i])
      {
        assert Front(rec.visits[..i + 1]) == rec.visits[..i] && Last(rec.visits[..i + 1]) == rec.visits[i];
        ep := Visited(ep, rec.visits[i]);
        if rec.visits[i].path in ep.fields { seen := seen + {rec.visits[i].path}; }
        i := i + 1;
      }
      assert rec.visits[..i] == rec.visits;
      ghost var visited := ep;
      i := 0;
      while i < |rec.redactions|
        invariant 0 <= i <= |rec.redactions| && ep == RedactAll(visited, seen, rec.redactions[..i])
      {
        assert Front(rec.redactions[..i + 1]) == rec.redactions[..i] && Last(rec.redactions[..i + 1]) == rec.redactions[i];
        ep := Redacted(ep, seen, rec.redactions[i]);
        i := i + 1;
      }
      assert rec.redactions[..i] == rec.redactions;
      var fields := CountSamples(ep.fields);
      ep := ep.(fields := fields);
    }

    static method Visited(ep0: ObservedEndpoint, v: Visit) returns (ep: ObservedEndpoint)
      ensures ep == See(ep0, v)
    {
      hide Bump;
      ep := WithField(ep0, v.path);
      if v.path !in ep.fields { return; }
      var f := ep.fields[v.path];
      f := f.(seen := f.seen + 1);
      if v.verbatim {
        f := f.(types := Bump(f.types, v.typ));
        if v.text.Some? && !f.high {
          f := f.(values := Bump(f.values, v.text.value));
          if |f.values| > MAX_VALUES_PER_FIELD { f := f.(values := map[], high := true); }
        }
      }
      ep := ep.(fields := ep.fields[v.path := f]);
    }

    static method Redacted(ep0: ObservedEndpoint, seen: set<string>, red: Redaction) returns (ep: ObservedEndpoint)
      ensures ep == Redact(ep0, seen, red)
    {
      hide Bump;
      ep := ep0;
      if red.path in seen { return; }
      ep := WithField(ep, red.path);
      if red.path !in ep.fields { return; }
      ep := ep.(fields := ep.fields[red.path := RedactField(ep.fields[red.path], red.mode)]);
    }

    static method CountSamples(was: map<string, ObservedField>) returns (fields: map<string, ObservedField>)
      ensures fields == Sampled(was)
    {
      fields := was;
      var keys := was.Keys;
      while keys != {}
        invariant keys <= was.Keys == fields.Keys
        invariant forall p | p in fields :: fields[p] == if p in keys then was[p] else was[p].(samples := was[p].samples + 1)
      {
        var p :| p in keys;
        keys := keys - {p};
        fields := fields[p := fields[p].(samples := fields[p].samples + 1)];
      }
    }

    /** The closures `admit` and `contradict`. */
    method Offer(p: Proposal, journaled: set<string>) returns (keys: set<string>)
      requires journaled == KeysOf(overlay.admissions)
      modifies this`overlay
      ensures overlay == Take(old(overlay), p) && overlay.endpoints == old(overlay).endpoints
      ensures keys == KeysOf(overlay.admissions)
    {
      keys := journaled;
      match p
      case Propose(a) =>
        JournaledIs(overlay, KeyText(a));
        hide KeyText;
        if KeyText(a) in journaled || |overlay.admissions| >= MAX_ADMISSIONS { return; }
        var version := overlay.version + 1;
        VersionSilent(a, version);
        KeysMore(overlay.admissions, a.(version := version));
        overlay := overlay.(version := version, admissions := overlay.admissions + [a.(version := version)]);
        keys := keys + {KeyText(a)};
      case Contest(x) =>
        var i := 0;
        while i < |overlay.contradictions|
          invariant 0 <= i <= |overlay.contradictions|
          invariant forall j | 0 <= j < i :: !SameContest(overlay.contradictions[j], x)
        {
          if SameContest(overlay.contradictions[i], x) { return; }
          i := i + 1;
        }
        if |overlay.contradictions| < MAX_CONTRADICTIONS {
          overlay := overlay.(contradictions := overlay.contradictions + [x]);
        }
    }

    method DominantOf(types: map<string, nat>) returns (d: Dominance)
      ensures d == DominantStats(types)
    {
      var names := SortedNames(types.Keys);
      d := Dominance("", 0, 0);
      var i := 0;
      while i < |names|
        invariant 0 <= i <= |names| && d == DominanceOf(types, names[..i])
      {
        assert Front(names[..i + 1]) == names[..i];
        var n := types[names[i]];
        d := d.(total := d.total + n);
        if n > d.best { d := d.(best := n, typ := names[i]); }
        i := i + 1;
      }
      assert names[..i] == names;
      if d.total == 0 { d := Dominance("", 0, 0); }
    }

    method OfferType(k: Case, path: string, journaled: set<string>) returns (keys: set<string>)
      requires journaled == KeysOf(overlay.admissions) && path in k.ep.fields
      modifies this`overlay
      ensures overlay == TakeAll(old(overlay), TypeProposals(k, path)) && overlay.endpoints == old(overlay).endpoints
      ensures keys == KeysOf(overlay.admissions)
    {
      hide Take, KeysOf, DominantStats;
      keys := journaled;
      var f := k.ep.fields[path];
      var d := DominantOf(f.types);
      var declared := DeclaredType(k, path);
      if declared == "" {
        var source := EndpointKey(k.d, k.ep.verb, k.ep.template, k.ep.statusClass);
        var p := Propose(Make(k, AdmitField, path, "", d.typ, PresenceRate(f), source));
        TakeAllOne(overlay, p);
        keys := Offer(p, keys);
      } else if d.typ != "" && d.typ != declared {
        if !k.preferSpec && Sustained(d) {
          var p, x := Propose(Make(k, AdmitType, path, "", d.typ, PresenceRate(f), "")), Contest(Contradict(k, path, d, "traffic"));
          TakeAllOne(overlay, p);
          TakeAllAppend(overlay, [p], [x]);
          TakeAllOne(Take(overlay, p), x);
          assert [p] + [x] == [p, x];
          keys := Offer(p, keys);
          keys := Offer(x, keys);
        } else {
          var x := Contest(Contradict(k, path, d, "spec"));
          TakeAllOne(overlay, x);
          keys := Offer(x, keys);
        }
      }
    }

    method OfferValue(k: Case, path: string, v: string, journaled: set<string>) returns (keys: set<string>)
      requires journaled == KeysOf(overlay.admissions) && path in k.ep.fields && v in k.ep.fields[path].values
      modifies this`overlay
      ensures overlay == TakeAll(old(overlay), ValueProposal(k, path, v))
      ensures overlay.endpoints == old(overlay).endpoints && keys == KeysOf(overlay.admissions)
    {
      hide Take, KeysOf;
      keys := journaled;
      var f := k.ep.fields[path];
      var declared := DeclaredValues(k, path);
      var p := Propose(Make(k, AdmitValue, path, v, "", PresenceRate(f), ""));
      TakeAllOne(overlay, p);
      if f.values[v] >= VALUE_MIN_COUNT && v !in declared && |declared| > 0 {
        keys := Offer(p, keys);
      }
    }

    method OfferValues(k: Case, path: string, journaled: set<string>) returns (keys: set<string>)
      requires journaled == KeysOf(overlay.admissions) && path in k.ep.fields
      modifies this`overlay
      ensures overlay == TakeAll(old(overlay), ValueProposals(k, path, Sorted(k.ep.fields[path].values.Keys)))
      ensures overlay.endpoints == old(overlay).endpoints && keys == KeysOf(overlay.admissions)
    {
      hide Take, TakeAll, KeysOf, ValueProposal;
      NothingTaken(overlay);
      keys := journaled;
      var vs := SortedNames(k.ep.fields[path].values.Keys);
      var i := 0;
      while i < |vs|
        invariant 0 <= i <= |vs| && keys == KeysOf(overlay.admissions) && overlay.endpoints == old(overlay).endpoints
        invariant overlay == TakeAll(old(overlay), ValueProposals(k, path, vs[..i]))
      {
        assert Front(vs[..i + 1]) == vs[..i];
        TakeAllAppend(old(overlay), ValueProposals(k, path, vs[..i]), ValueProposal(k, path, vs[i]));
        keys := OfferValue(k, path, vs[i], keys);
        i := i + 1;
      }
      assert vs[..i] == vs;
    }

    method OfferStatus(k: Case, code: string, journaled: set<string>) returns (keys: set<string>)
      requires journaled == KeysOf(overlay.admissions) && Declared(k).Some? && code in k.ep.statusCodes
      modifies this`overlay
      ensures overlay == TakeAll(old(overlay), StatusProposal(k, code))
      ensures overlay.endpoints == old(overlay).endpoints && keys == KeysOf(overlay.admissions)
    {
      hide Take, KeysOf, Declared;
      keys := journaled;
      var p := Propose(Make(k, AdmitStatus, "", code, "", 0.0, ""));
      TakeAllOne(overlay, p);
      if k.ep.statusCodes[code] >= VALUE_MIN_COUNT && code !in Declared(k).value.statuses {
        keys := Offer(p, keys);
      }
    }

    method OfferStatuses(k: Case, journaled: set<string>) returns (keys: set<string>)
      requires journaled == KeysOf(overlay.admissions) && Declared(k).Some?
      modifies this`overlay
      ensures overlay == TakeAll(old(overlay), StatusProposals(k, Sorted(k.ep.statusCodes.Keys)))
      ensures overlay.endpoints == old(overlay).endpoints && keys == KeysOf(overlay.admissions)
    {
      hide Take, TakeAll, KeysOf, Declared, StatusProposal;
      NothingTaken(overlay);
      keys := journaled;
      var codes := SortedNames(k.ep.statusCodes.Keys);
      var i := 0;
      while i < |codes|
        invariant 0 <= i <= |codes| && keys == KeysOf(overlay.admissions) && overlay.endpoints == old(overlay).endpoints
        invariant overlay == TakeAll(old(overlay), StatusProposals(k, codes[..i]))
      {
        assert Front(codes[..i + 1]) == codes[..i];
        TakeAllAppend(old(overlay), StatusProposals(k, codes[..i]), StatusProposal(k, codes[i]));
        keys := OfferStatus(k, codes[i], keys);
        i := i + 1;
      }
      assert codes[..i] == codes;
    }

    method OfferField(k: Case, path: string, journaled: set<string>) returns (keys: set<string>)
      requires journaled == KeysOf(overlay.admissions) && path in k.ep.fields
      modifies this`overlay
      ensures overlay == TakeAll(old(overlay), FieldProposals(k, path))
      ensures overlay.endpoints == old(overlay).endpoints && keys == KeysOf(overlay.admissions)
    {
      hide Take, TakeAll, KeysOf, TypeProposals, ValueProposals;
      NothingTaken(overlay);
      keys := journaled;
      var f := k.ep.fields[path];
      if PresenceRate(f) < k.c.presenceFloor { return; }
      keys := OfferType(k, path, keys);
      TakeAllAppend(old(overlay), TypeProposals(k, path), []);
      NothingTaken(overlay);
      TakeAllAppend(old(overlay), TypeProposals(k, path), ValueProposals(k, path, Sorted(f.values.Keys)));
      if !f.high { keys := OfferValues(k, path, keys); }
    }

    method OfferFields(k: Case, journaled: set<string>) returns (keys: set<string>)
      requires journaled == KeysOf(overlay.admissions)
      modifies this`overlay
      ensures overlay == TakeAll(old(overlay), AllFields(k, Sorted(k.ep.fields.Keys)))
      ensures overlay.endpoints == old(overlay).endpoints && keys == KeysOf(overlay.admissions)
    {
      hide Take, TakeAll, KeysOf, FieldProposals;
      NothingTaken(overlay);
      keys := journaled;
      var paths := SortedNames(k.ep.fields.Keys);
      var i := 0;
      while i < |paths|
        invariant 0 <= i <= |paths| && keys == KeysOf(overlay.admissions) && overlay.endpoints == old(overlay).endpoints
        invariant overlay == TakeAll(old(overlay), AllFields(k, paths[..i]))
      {
        assert Front(paths[..i + 1]) == paths[..i];
        TakeAllAppend(old(overlay), AllFields(k, paths[..i]), FieldProposals(k, paths[i]));
        keys := OfferField(k, paths[i], keys);
        i := i + 1;
      }
      assert paths[..i] == paths;
    }

    method OfferEndpoint(k: Case, journaled: set<string>) returns (keys: set<string>)
      requires journaled == KeysOf(overlay.admissions)
      modifies this`overlay
      ensures overlay == TakeAll(old(overlay), EndpointProposals(k))
      ensures overlay.endpoints == old(overlay).endpoints && keys == KeysOf(overlay.admissions)
    {
      hide Take, TakeAll, KeysOf, AllFields, StatusProposals, Make, Declared;
      NothingTaken(overlay);
      keys := journaled;
      if k.ep.samples < k.c.minSamples || k.now - k.ep.firstSeen < k.c.minAge { return; }
      var p := Propose(Make(k, AdmitEndpoint, "", "", "", 0.0, ""));
      ghost var start := if Declared(k).None? then [p] else [];
      TakeAllOne(overlay, p);
      if Declared(k).None? { keys := Offer(p, keys); }
      ghost var fields := AllFields(k, Sorted(k.ep.fields.Keys));
      TakeAllAppend(old(overlay), start, fields);
      keys := OfferFields(k, keys);
      ghost var rest := if Declared(k).Some? then StatusProposals(k, Sorted(k.ep.statusCodes.Keys)) else [];
      TakeAllAppend(old(overlay), start + fields, rest);
      NothingTaken(overlay);
      if Declared(k).Some? { keys := OfferStatuses(k, keys); }
    }

    method Admit(d: Definition, preferSpec: bool, now: int) returns (admitted: int)
      modifies this`overlay
      ensures overlay == Contract.Admit(settings, d, old(overlay), preferSpec, now)
      ensures admitted == |overlay.admissions| - |old(overlay).admissions|
    {
      hide Take, TakeAll, KeysOf, EndpointProposals;
      NothingTaken(overlay);
      var journaled := KeysOf(overlay.admissions);
      var before := |overlay.admissions|;
      var keys := SortedNames(overlay.endpoints.Keys);
      ghost var ov := overlay;
      var i := 0;
      while i < |keys|
        invariant 0 <= i <= |keys| && journaled == KeysOf(overlay.admissions) && overlay.endpoints == ov.endpoints
        invariant overlay == TakeAll(ov, AllProposals(settings, d, ov, preferSpec, now, keys[..i]))
      {
        assert Front(keys[..i + 1]) == keys[..i];
        var k := Case(settings, d, overlay.endpoints[keys[i]], preferSpec, now);
        TakeAllAppend(ov, AllProposals(settings, d, ov, preferSpec, now, keys[..i]), EndpointProposals(k));
        journaled := OfferEndpoint(k, journaled);
        i := i + 1;
      }
      assert keys[..i] == keys;
      admitted := |overlay.admissions| - before;
    }
  }

  lemma NothingTaken(ov: Overlay)
    ensures TakeAll(ov, []) == ov
  {}
}
