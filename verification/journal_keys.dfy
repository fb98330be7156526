/** The keys of the journal: which admissions share one, and what that loses. */
module JournalKeys {
  import opened Contract
  import opened Names
  import opened Observing
  import opened Text
  import opened Totals

  const BAR: char := '|'

  // ---- The admissions `Admit` makes ----

  predicate IsClass(s: string) { s == "2xx" || s == "3xx" || s == "4xx" || s == "5xx" }

  /** The fields each kind of admission leaves empty, and what the others hold. */
  predicate Real(a: Admission) {
    && IsClass(a.statusClass) && BAR !in a.typ
    && match a.kind
       case AdmitEndpoint => a.field == a.value == a.typ == ""
       case AdmitStatus => a.field == a.typ == "" && BAR !in a.value
       case AdmitField => a.value == ""
       case AdmitType => a.value == "" && a.typ != ""
       case AdmitValue => a.typ == ""
  }

  /** What the key is made of. */
  function Parts(a: Admission): seq<string> {
    [KindText(a.kind), a.verb, a.template, a.statusClass, a.field, a.value, a.typ]
  }

  function Cut(s: string): seq<string> { Split(s, BAR) }

  lemma JoinCons(x: string, rest: seq<string>)
    requires rest != []
    ensures Join([x] + rest, BAR) == x + "|" + Join(rest, BAR)
  {
    assert ([x] + rest)[1..] == rest;
  }

  /** Texts with bars between, however they are grouped. */
  lemma Grouped(k: string, v: string, t: string, c: string, f: string, w: string, y: string)
    ensures k + "|" + (v + "|" + (t + "|" + (c + "|" + (f + "|" + (w + "|" + y)))))
            == k + "|" + v + "|" + t + "|" + c + "|" + f + "|" + w + "|" + y
  {}

  lemma KeyIsJoin(a: Admission)
    ensures KeyText(a) == Join(Parts(a), BAR)
  {
    var k, v, t, c, f, w, y := KindText(a.kind), a.verb, a.template, a.statusClass, a.field, a.value, a.typ;
    assert Join([y], BAR) == y;
    hide KindText, Join;
    JoinCons(w, [y]);
    JoinCons(f, [w, y]);
    JoinCons(c, [f, w, y]);
    JoinCons(t, [c, f, w, y]);
    JoinCons(v, [t, c, f, w, y]);
    JoinCons(k, [v, t, c, f, w, y]);
    Grouped(k, v, t, c, f, w, y);
    assert Parts(a) == [k] + [v, t, c, f, w, y];
  }

  /** The bars cut a joined text into the pieces of all its parts. */
  function Pieces(parts: seq<string>): seq<string> { if parts == [] then [] else Cut(parts[0]) + Pieces(parts[1..]) }

  lemma {:induction false} JoinCut(parts: seq<string>)
    requires parts != []
    ensures Cut(Join(parts, BAR)) == Pieces(parts)
  {
    if |parts| > 1 {
      JoinCut(parts[1..]);
      hide Split;
      SplitBoth(parts[0], Join(parts[1..], BAR), BAR);
    } else {
      assert Pieces(parts[1..]) == [] && Cut(parts[0]) + [] == Cut(parts[0]);
    }
  }

  lemma SameKey(a: Admission, b: Admission)
    ensures KeyText(a) == KeyText(b) <==> Pieces(Parts(a)) == Pieces(Parts(b))
  {
    hide KeyText, Parts, Split, Join, Pieces;
    KeyIsJoin(a);
    KeyIsJoin(b);
    SevenParts(a);
    SevenParts(b);
    JoinCut(Parts(a));
    JoinCut(Parts(b));
    if Pieces(Parts(a)) == Pieces(Parts(b)) { SplitInjective(KeyText(a), KeyText(b), BAR); }
  }

  lemma SevenParts(a: Admission)
    ensures |Parts(a)| == 7
  {}

  /** The pieces that can be cut in more than one way. */
  function Body(a: Admission): seq<string> { Cut(a.template) + [a.statusClass] + Cut(a.field) + Cut(a.value) }

  lemma KindFree(k: Kind)
    ensures BAR !in KindText(k)
  {}

  lemma ClassFree(c: string)
    requires IsClass(c)
    ensures BAR !in c
  {}

  lemma RealPieces(a: Admission)
    requires Real(a)
    ensures Pieces(Parts(a)) == [KindText(a.kind)] + Cut(a.verb) + Body(a) + [a.typ]
  {
    var k, v, t, c, f, w, y := KindText(a.kind), a.verb, a.template, a.statusClass, a.field, a.value, a.typ;
    KindFree(a.kind);
    ClassFree(c);
    SplitFree(k, BAR);
    SplitFree(c, BAR);
    SplitFree(y, BAR);
    hide Split, KindText, Pieces;
    var none: seq<string> := [];
    assert Pieces(none) == [] by { NoPieces(); }
    PiecesCons(y, none);
    PiecesCons(w, [y]);
    PiecesCons(f, [w, y]);
    PiecesCons(c, [f, w, y]);
    PiecesCons(t, [c, f, w, y]);
    PiecesCons(v, [t, c, f, w, y]);
    PiecesCons(k, [v, t, c, f, w, y]);
    Flat(k, Cut(v), Cut(t), c, Cut(f), Cut(w), y);
  }

  lemma NoPieces()
    ensures Pieces([]) == []
  {}

  lemma PiecesCons(x: string, rest: seq<string>)
    ensures Pieces([x] + rest) == Cut(x) + Pieces(rest)
  {
    assert ([x] + rest)[1..] == rest;
  }

  lemma Flat(k: string, v: seq<string>, t: seq<string>, c: string, f: seq<string>, w: seq<string>, y: string)
    ensures [k] + (v + (t + ([c] + (f + (w + ([y] + [])))))) == [k] + v + (t + [c] + f + w) + [y]
  {}

  lemma KindTextInjective(j: Kind, k: Kind)
    requires KindText(j) == KindText(k)
    ensures j == k
  {}

  lemma SameFrame(k: string, v: seq<string>, x: seq<string>, s: string, l: string, y: seq<string>, t: string)
    ensures [k] + v + x + [s] == [l] + v + y + [t] <==> k == l && x == y && s == t
  {
    var p, q := [k] + v + x + [s], [l] + v + y + [t];
    if p == q {
      assert p[0] == k && q[0] == l && p[|p| - 1] == s && q[|q| - 1] == t;
      assert p[1 + |v|..|p| - 1] == x && q[1 + |v|..|q| - 1] == y;
    }
  }

  /** Two admissions of one method share a key exactly if they agree in kind, type and body. */
  lemma SameKeyIs(a: Admission, b: Admission)
    requires Real(a) && Real(b) && a.verb == b.verb
    ensures KeyText(a) == KeyText(b) <==> a.kind == b.kind && a.typ == b.typ && Body(a) == Body(b)
  {
    hide KeyText, Parts, Split, Pieces, Body, KindText, Real;
    SameKey(a, b);
    RealPieces(a);
    RealPieces(b);
    SameFrame(KindText(a.kind), Cut(a.verb), Body(a), a.typ, KindText(b.kind), Body(b), b.typ);
    if KindText(a.kind) == KindText(b.kind) { KindTextInjective(a.kind, b.kind); }
  }

  // ---- Where a key can be cut otherwise ----

  /** A status class stands among the pieces of the template, but not first. */
  predicate ClassInTemplate(t: string) { exists j | 1 <= j < |Cut(t)| :: IsClass(Cut(t)[j]) }

  /** A status class stands among the pieces of the field, but not last. */
  predicate ClassInField(f: string) { exists j | 0 <= j < |Cut(f)| - 1 :: IsClass(Cut(f)[j]) }

  /** Some other admission reads the same. */
  predicate Recut(a: Admission) {
    match a.kind
    case AdmitEndpoint => false
    case AdmitStatus => false
    case AdmitField => ClassInTemplate(a.template) || ClassInField(a.field)
    case AdmitType => ClassInTemplate(a.template) || ClassInField(a.field)
    case AdmitValue => ClassInTemplate(a.template) || BAR in a.field || BAR in a.value
  }

  ghost predicate Twins(a: Admission, b: Admission) {
    Real(b) && b.verb == a.verb && Parts(b) != Parts(a) && KeyText(b) == KeyText(a)
  }

  /** Without another cut the parts agree. */
  lemma OneCut(t: seq<string>, c: string, r: seq<string>, t': seq<string>, c': string, r': seq<string>)
    requires t + [c] + r == t' + [c'] + r'
    ensures |t| == |t'| ==> t == t' && c == c' && r == r'
    ensures |t'| < |t| ==> t[|t'|] == c'
    ensures |t| < |t'| ==> |t'| - |t| - 1 < |r| && r[|t'| - |t| - 1] == c' && |r| - (|t'| - |t|) == |r'|
  {
    var p, q := t + [c] + r, t' + [c'] + r';
    assert p[|t'|] == c' && q[|t|] == c;
    if |t| == |t'| {
      assert p[..|t|] == t && q[..|t|] == t' && p[|t| + 1..] == r && q[|t| + 1..] == r';
    }
  }

  lemma EmptyCut()
    ensures Cut("") == [""]
  {}

  /** The entries of endpoints and status codes end in two pieces. */
  lemma TwoPieces(a: Admission)
    requires Real(a) && (a.kind.AdmitEndpoint? || a.kind.AdmitStatus?)
    ensures |Cut(a.field) + Cut(a.value)| == 2
  {
    EmptyCut();
    SplitFree(a.value, BAR);
    hide Split;
  }

  lemma TwinsRecut(a: Admission, b: Admission)
    requires Real(a) && Twins(a, b)
    ensures Recut(a)
  {
    SameKeyIs(a, b);
    if a.kind.AdmitEndpoint? || a.kind.AdmitStatus? {
      TwoPieces(a);
      TwoPieces(b);
    }
    hide Split, KeyText, KindText, Real, IsClass;
    var t, c, r, t', c', r' := Cut(a.template), a.statusClass, Cut(a.field) + Cut(a.value), Cut(b.template), b.statusClass, Cut(b.field) + Cut(b.value);
    assert Body(a) == t + [c] + r && Body(b) == t' + [c'] + r';
    assert |Body(a)| == |t| + 1 + |r| && |Body(b)| == |t'| + 1 + |r'|;
    OneCut(t, c, r, t', c', r');
    if |t| == |t'| {
      SplitInjective(a.template, b.template, BAR);
      FieldsDiffer(a, b);
    } else if |t'| < |t| {
      assert IsClass(t[|t'|]) by { RealClass(b); }
      assert ClassInTemplate(a.template);
    } else {
      LaterCut(a, b, |t'| - |t| - 1);
    }
  }

  lemma RealClass(a: Admission)
    requires Real(a)
    ensures IsClass(a.statusClass)
  {}

  lemma FieldsDiffer(a: Admission, b: Admission)
    requires Real(a) && Real(b) && a.kind == b.kind && a.verb == b.verb && a.typ == b.typ
    requires a.template == b.template && a.statusClass == b.statusClass && Parts(a) != Parts(b)
    requires Cut(a.field) + Cut(a.value) == Cut(b.field) + Cut(b.value)
    ensures a.kind.AdmitValue? && (BAR in a.field || BAR in a.value)
  {
    var f, w, f', w' := Cut(a.field), Cut(a.value), Cut(b.field), Cut(b.value);
    SplitFree(a.field, BAR);
    SplitFree(a.value, BAR);
    SplitFree(b.field, BAR);
    SplitFree(b.value, BAR);
    hide Split, KindText;
    if |f| == |f'| {
      assert (f + w)[..|f|] == f && (f' + w')[..|f|] == f' && (f + w)[|f|..] == w && (f' + w')[|f|..] == w';
      SplitInjective(a.field, b.field, BAR);
      SplitInjective(a.value, b.value, BAR);
      SameParts(a, b);
      assert false;
    }
    assert |f + w| == |f' + w'|;
  }

  lemma SameParts(a: Admission, b: Admission)
    requires a.kind == b.kind && a.verb == b.verb && a.template == b.template && a.statusClass == b.statusClass
    requires a.field == b.field && a.value == b.value && a.typ == b.typ
    ensures Parts(a) == Parts(b)
  {}

  lemma LaterCut(a: Admission, b: Admission, j: nat)
    requires Real(a) && Real(b) && a.kind == b.kind
    requires var r := Cut(a.field) + Cut(a.value); j < |r| && r[j] == b.statusClass && |r| - (j + 1) == |Cut(b.field) + Cut(b.value)|
    ensures Recut(a)
  {
    var f, w := Cut(a.field), Cut(a.value);
    SplitFree(a.field, BAR);
    SplitFree(a.value, BAR);
    EmptyCut();
    hide Split, KindText;
    assert |Cut(b.field) + Cut(b.value)| >= 2;
    assert j + 3 <= |f| + |w|;
    if a.value == "" {
      assert j < |f| - 1 && (f + w)[j] == f[j];
      assert ClassInField(a.field);
    }
  }

  lemma CutFree(s: string)
    ensures FreeOf(Cut(s), BAR)
  {
    SplitParts(s, BAR);
  }

  /** Of bar-free pieces a part can be made. */
  lemma Part(ps: seq<string>) returns (s: string)
    requires ps != [] && FreeOf(ps, BAR)
    ensures Cut(s) == ps
  {
    s := Join(ps, BAR);
    SplitJoin(ps, BAR);
  }

  /** The body cut elsewhere: at a class within the template. */
  lemma EarlierTwin(a: Admission, j: nat) returns (b: Admission)
    requires Real(a) && !a.kind.AdmitEndpoint? && !a.kind.AdmitStatus? && 1 <= j < |Cut(a.template)| && IsClass(Cut(a.template)[j])
    ensures Twins(a, b)
  {
    CutFree(a.template);
    CutFree(a.field);
    ClassFree(a.statusClass);
    hide Split, KeyText, KindText;
    var t, f := Cut(a.template), Cut(a.field);
    var t' := Part(t[..j]);
    var f' := Part(t[j + 1..] + [a.statusClass] + f);
    b := a.(template := t', statusClass := t[j], field := f');
    assert t == t[..j] + [t[j]] + t[j + 1..];
    assert Body(b) == Body(a);
    assert |Cut(t')| < |t|;
    SameKeyIs(a, b);
  }

  /** At a class within the field. */
  lemma LaterTwin(a: Admission, j: nat) returns (b: Admission)
    requires Real(a) && (a.kind.AdmitField? || a.kind.AdmitType?) && j < |Cut(a.field)| - 1 && IsClass(Cut(a.field)[j])
    ensures Twins(a, b)
  {
    CutFree(a.template);
    CutFree(a.field);
    ClassFree(a.statusClass);
    hide Split, KeyText, KindText;
    var t, f := Cut(a.template), Cut(a.field);
    var t' := Part(t + [a.statusClass] + f[..j]);
    var f' := Part(f[j + 1..]);
    b := a.(template := t', statusClass := f[j], field := f');
    assert f == f[..j] + [f[j]] + f[j + 1..];
    assert Body(b) == Body(a);
    assert |Cut(f')| < |f|;
    SameKeyIs(a, b);
  }

  /** Or between field and value. */
  lemma ValueTwin(a: Admission) returns (b: Admission)
    requires Real(a) && a.kind.AdmitValue? && (BAR in a.field || BAR in a.value)
    ensures Twins(a, b)
  {
    CutFree(a.field);
    CutFree(a.value);
    SplitFree(a.field, BAR);
    SplitFree(a.value, BAR);
    hide Split, KeyText, KindText;
    var f, w := Cut(a.field), Cut(a.value);
    var all := f + w;
    var n := if |f| > 1 then 1 else 2;
    var f' := Part(all[..n]);
    var w' := Part(all[n..]);
    b := a.(field := f', value := w');
    assert all == all[..n] + all[n..];
    assert Body(a) == Cut(a.template) + [a.statusClass] + all;
    assert Body(b) == Cut(a.template) + [a.statusClass] + (all[..n] + all[n..]);
    assert |Cut(f')| != |f|;
    SameKeyIs(a, b);
  }

  /** An admission shares its key with a different one that `Admit` could make for the same
      method, exactly if its template has a status class after its first piece, or its field one
      before its last, or, for values, if a bar stands in the field or the value. Those of
      endpoints and status codes never do. */
  lemma KeyShared(a: Admission)
    requires Real(a)
    ensures (exists b :: Twins(a, b)) <==> Recut(a)
  {
    hide Twins, Real, Split;
    if b :| Twins(a, b) { TwinsRecut(a, b); }
    if Recut(a) {
      if ClassInTemplate(a.template) && !a.kind.AdmitEndpoint? && !a.kind.AdmitStatus? {
        var j :| 1 <= j < |Cut(a.template)| && IsClass(Cut(a.template)[j]);
        var b := EarlierTwin(a, j);
      } else if a.kind.AdmitValue? {
        var b := ValueTwin(a);
      } else {
        var j :| 0 <= j < |Cut(a.field)| - 1 && IsClass(Cut(a.field)[j]);
        var b := LaterTwin(a, j);
      }
    }
  }

  // ---- Every proposal is of these kinds ----

  /** What observing gives, of methods without a bar. */
  ghost predicate Plausible(ep: ObservedEndpoint) {
    && IsClass(ep.statusClass) && BAR !in ep.verb
    && (forall code | code in ep.statusCodes :: BAR !in code)
    && forall p | p in ep.fields :: TypesFree(ep.fields[p])
  }

  ghost predicate TypesFree(f: ObservedField) { forall t | t in f.types :: BAR !in t }

  ghost predicate AllPlausible(m: map<string, ObservedEndpoint>) { forall k | k in m :: Plausible(m[k]) }

  ghost predicate AllReal(ps: seq<Proposal>) {
    forall i | 0 <= i < |ps| && ps[i].Propose? :: Real(ps[i].a) && BAR !in ps[i].a.verb
  }

  lemma AllRealAppend(ps: seq<Proposal>, qs: seq<Proposal>)
    requires AllReal(ps) && AllReal(qs)
    ensures AllReal(ps + qs)
  {
    hide Real;
  }

  lemma {:induction false} DominantIsOne(types: map<string, nat>, names: seq<string>)
    requires forall t | t in names :: t in types
    ensures var d := DominanceOf(types, names); d.typ == "" || d.typ in types
  {
    if names != [] { DominantIsOne(types, Front(names)); }
  }

  lemma DominantFree(f: ObservedField)
    requires TypesFree(f)
    ensures BAR !in DominantStats(f.types).typ
  {
    DominantIsOne(f.types, Sorted(f.types.Keys));
  }

  lemma TypeReal(k: Case, path: string)
    requires Plausible(k.ep) && path in k.ep.fields
    ensures AllReal(TypeProposals(k, path))
  {
    DominantFree(k.ep.fields[path]);
    hide DominantStats, DeclaredType, PresenceRate, IsClass, TypesFree;
  }

  lemma {:induction false} ValuesReal(k: Case, path: string, vs: seq<string>)
    requires Plausible(k.ep) && path in k.ep.fields && forall v | v in vs :: v in k.ep.fields[path].values
    ensures AllReal(ValueProposals(k, path, vs))
  {
    if vs != [] {
      hide NewValue, PresenceRate, IsClass, TypesFree;
      ValuesReal(k, path, Front(vs));
      assert AllReal(ValueProposal(k, path, Last(vs)));
      hide AllReal, ValueProposal;
      AllRealAppend(ValueProposals(k, path, Front(vs)), ValueProposal(k, path, Last(vs)));
    }
  }

  lemma {:induction false} StatusesReal(k: Case, codes: seq<string>)
    requires Plausible(k.ep) && Declared(k).Some? && forall c | c in codes :: c in k.ep.statusCodes
    ensures AllReal(StatusProposals(k, codes))
  {
    if codes != [] {
      hide IsClass, Declared;
      StatusesReal(k, Front(codes));
      assert Last(codes) in codes;
      assert AllReal(StatusProposal(k, Last(codes)));
      hide AllReal, StatusProposal;
      AllRealAppend(StatusProposals(k, Front(codes)), StatusProposal(k, Last(codes)));
    }
  }

  lemma NoneReal()
    ensures AllReal([])
  {}

  lemma {:induction false} FieldsReal(k: Case, paths: seq<string>)
    requires Plausible(k.ep) && forall p | p in paths :: p in k.ep.fields
    ensures AllReal(AllFields(k, paths))
  {
    if paths == [] {
      NoneReal();
    } else {
      hide AllReal, TypeProposals, ValueProposals, Plausible, PresenceRate;
      var path := Last(paths);
      var vs := Sorted(k.ep.fields[path].values.Keys);
      FieldsReal(k, Front(paths));
      TypeReal(k, path);
      ValuesReal(k, path, vs);
      NoneReal();
      AllRealAppend(TypeProposals(k, path), []);
      AllRealAppend(TypeProposals(k, path), ValueProposals(k, path, vs));
      AllRealAppend(AllFields(k, Front(paths)), FieldProposals(k, path));
    }
  }

  lemma StartReal(k: Case)
    requires Plausible(k.ep)
    ensures AllReal([Propose(Contract.Make(k, AdmitEndpoint, "", "", "", 0.0, ""))])
  {}

  lemma EndpointReal(k: Case)
    requires Plausible(k.ep)
    ensures AllReal(EndpointProposals(k))
  {
    hide AllReal, AllFields, StatusProposals, Plausible, Declared;
    NoneReal();
    StartReal(k);
    var start := if Declared(k).None? then [Propose(Contract.Make(k, AdmitEndpoint, "", "", "", 0.0, ""))] else [];
    var fields := AllFields(k, Sorted(k.ep.fields.Keys));
    FieldsReal(k, Sorted(k.ep.fields.Keys));
    AllRealAppend(start, fields);
    var rest := if Declared(k).Some? then StatusProposals(k, Sorted(k.ep.statusCodes.Keys)) else [];
    if Declared(k).Some? { StatusesReal(k, Sorted(k.ep.statusCodes.Keys)); }
    AllRealAppend(start + fields, rest);
  }

  lemma {:induction false} ProposedReal(c: Settings, d: Definition, ov: Overlay, preferSpec: bool, now: int, keys: seq<string>)
    requires AllPlausible(ov.endpoints) && forall e | e in keys :: e in ov.endpoints
    ensures AllReal(AllProposals(c, d, ov, preferSpec, now, keys))
  {
    if keys == [] {
      NoneReal();
    } else {
      hide AllReal, EndpointProposals, Plausible;
      ProposedReal(c, d, ov, preferSpec, now, Front(keys));
      var k := Case(c, d, ov.endpoints[Last(keys)], preferSpec, now);
      EndpointReal(k);
      AllRealAppend(AllProposals(c, d, ov, preferSpec, now, Front(keys)), EndpointProposals(k));
    }
  }

  // ---- Observing gives plausible endpoints ----

  ghost predicate FieldsFree(ep: ObservedEndpoint) { forall p | p in ep.fields :: TypesFree(ep.fields[p]) }

  lemma SeeFree(ep: ObservedEndpoint, v: Visit)
    requires FieldsFree(ep) && BAR !in v.typ
    ensures FieldsFree(See(ep, v)) && SameEndpoint(ep, See(ep, v))
  {}

  /** All but fields and latch. */
  predicate SameEndpoint(a: ObservedEndpoint, b: ObservedEndpoint) {
    a.verb == b.verb && a.statusClass == b.statusClass && a.statusCodes == b.statusCodes
  }

  lemma RedactFree(ep: ObservedEndpoint, seen: set<string>, r: Redaction)
    requires FieldsFree(ep)
    ensures FieldsFree(Redact(ep, seen, r)) && SameEndpoint(ep, Redact(ep, seen, r))
  {
    hide Bump;
  }

  lemma {:induction false} SeeAllFree(ep: ObservedEndpoint, vs: seq<Visit>)
    requires FieldsFree(ep) && forall v | v in vs :: BAR !in v.typ
    ensures FieldsFree(SeeAll(ep, vs)) && SameEndpoint(ep, SeeAll(ep, vs))
  {
    if vs != [] {
      hide See, FieldsFree;
      SeeAllFree(ep, Front(vs));
      assert Last(vs) in vs;
      SeeFree(SeeAll(ep, Front(vs)), Last(vs));
    }
  }

  lemma {:induction false} RedactAllFree(ep: ObservedEndpoint, seen: set<string>, rs: seq<Redaction>)
    requires FieldsFree(ep)
    ensures FieldsFree(RedactAll(ep, seen, rs)) && SameEndpoint(ep, RedactAll(ep, seen, rs))
  {
    if rs != [] {
      hide Redact, FieldsFree;
      RedactAllFree(ep, seen, Front(rs));
      RedactFree(RedactAll(ep, seen, Front(rs)), seen, Last(rs));
    }
  }

  /** A method and JSON types without a bar. */
  predicate PlainRecord(r: Record) { BAR !in r.verb && forall v | v in r.visits :: BAR !in v.typ }

  lemma DigitsFree(s: string)
    requires forall i | 0 <= i < |s| :: IsDigit(s[i])
    ensures BAR !in s
  {}

  lemma CodeFree(status: int)
    ensures BAR !in CodeText(status)
  {
    if 100 <= status <= 999 { DigitsFree(CodeText(status)); }
  }

  lemma ObservedPlausible(ep: ObservedEndpoint, r: Record, now: int)
    requires Plausible(ep) && PlainRecord(r)
    ensures Plausible(ObserveEndpoint(ep, r, now))
  {
    hide SeeAll, RedactAll, SeenPaths, IsClass, CodeText, TypesFree;
    CodeFree(r.status);
    var counted := ep.(samples := ep.samples + 1, lastSeen := now, statusCodes := Bump(ep.statusCodes, CodeText(r.status)));
    assert FieldsFree(counted);
    SeeAllFree(counted, r.visits);
    RedactAllFree(SeeAll(counted, r.visits), SeenPaths(counted, r.visits), r.redactions);
    SampledFree(RedactAll(SeeAll(counted, r.visits), SeenPaths(counted, r.visits), r.redactions));
  }

  lemma SampledFree(ep: ObservedEndpoint)
    requires FieldsFree(ep)
    ensures FieldsFree(ep.(fields := Sampled(ep.fields)))
  {}

  /** Observing keeps all endpoints plausible. */
  lemma {:induction false} RunPlausible(rs: seq<Timed>)
    requires forall t | t in rs :: PlainRecord(t.r)
    ensures AllPlausible(ObserveRun(rs))
  {
    if rs != [] {
      RunPlausible(Front(rs));
      var m, t := ObserveRun(Front(rs)), Last(rs);
      assert t in rs;
      hide ObserveEndpoint, PlainRecord;
      NewPlausible(t.r, t.now);
      if KeyOf(t.r) in m { ObservedPlausible(m[KeyOf(t.r)], t.r, t.now); }
      ObservedPlausible(NewEndpoint(t.r, t.now), t.r, t.now);
      hide Plausible, KeyOf;
    }
  }

  lemma NewPlausible(r: Record, now: int)
    requires PlainRecord(r)
    ensures Plausible(NewEndpoint(r, now))
  {}

  // ---- What is lost over a run ----

  /** The journal holds an admission of the same parts. */
  ghost predicate Held(ov: Overlay, a: Admission) { exists i | 0 <= i < |ov.admissions| :: Parts(ov.admissions[i]) == Parts(a) }

  ghost predicate PlausibleOps(ops: seq<Op>) { forall i | 0 <= i < |ops| && ops[i].Observed? :: AllPlausible(ops[i].endpoints) }

  ghost predicate RealJournal(ov: Overlay) {
    AllPlausible(ov.endpoints) && forall i | 0 <= i < |ov.admissions| :: Real(ov.admissions[i]) && BAR !in ov.admissions[i].verb
  }

  lemma VersionReal(a: Admission, n: int)
    ensures Real(a.(version := n)) == Real(a) && Parts(a.(version := n)) == Parts(a)
  {}

  lemma {:induction false} TakeAllReal(ov: Overlay, ps: seq<Proposal>)
    requires RealJournal(ov) && AllReal(ps)
    ensures RealJournal(TakeAll(ov, ps))
  {
    if ps != [] {
      assert AllReal(Front(ps)) && Last(ps) == ps[|ps| - 1];
      TakeAllReal(ov, Front(ps));
      hide Real, AllPlausible, Journaled, KeyText;
      if Last(ps).Propose? { VersionReal(Last(ps).a, TakeAll(ov, Front(ps)).version + 1); }
    }
  }

  lemma {:induction false} RunReal(c: Settings, ops: seq<Op>)
    requires PlausibleOps(ops)
    ensures RealJournal(Contract.After(c, Contract.EMPTY, ops))
  {
    if ops != [] {
      hide TakeAll, AllProposals, AllPlausible, Real, AllReal;
      RunReal(c, Front(ops));
      var ov := Contract.After(c, Contract.EMPTY, Front(ops));
      assert Last(ops) == ops[|ops| - 1];
      match Last(ops)
      case Observed(_) =>
      case Admitted(d, preferSpec, now) =>
        var keys := Sorted(ov.endpoints.Keys);
        ProposedReal(c, d, ov, preferSpec, now, keys);
        TakeAllReal(ov, AllProposals(c, d, ov, preferSpec, now, keys));
    } else {
      assert AllPlausible(Contract.EMPTY.endpoints);
    }
  }

  lemma VerbFirst(a: Admission, b: Admission)
    requires Real(a) && Real(b) && BAR !in a.verb && BAR !in b.verb && KeyText(a) == KeyText(b)
    ensures a.verb == b.verb
  {
    SameKey(a, b);
    RealPieces(a);
    RealPieces(b);
    SplitFree(a.verb, BAR);
    SplitFree(b.verb, BAR);
    hide KeyText, Parts, Split, Pieces, Body, KindText, Real;
    SecondPiece(KindText(a.kind), a.verb, Body(a), a.typ);
    SecondPiece(KindText(b.kind), b.verb, Body(b), b.typ);
  }

  lemma SecondPiece(k: string, v: string, x: seq<string>, y: string)
    ensures ([k] + [v] + x + [y])[1] == v
  {}

  /** In every run: an `Admit` journals each of its proposals under its own parts, unless the
      journal is full or holds a twin of it; a proposal that cannot be cut otherwise has none. */
  lemma NothingElseLost(c: Settings, ops: seq<Op>, d: Definition, preferSpec: bool, now: int, a: Admission)
    requires PlausibleOps(ops)
    requires var ov := Contract.After(c, Contract.EMPTY, ops);
             Propose(a) in AllProposals(c, d, ov, preferSpec, now, Sorted(ov.endpoints.Keys))
    ensures var ov := Contract.Admit(c, d, Contract.After(c, Contract.EMPTY, ops), preferSpec, now);
            && Real(a)
            && (Held(ov, a) || |ov.admissions| >= MAX_ADMISSIONS || (exists b :: Twins(a, b) && Held(ov, b)))
            && (!Recut(a) ==> Held(ov, a) || |ov.admissions| >= MAX_ADMISSIONS)
  {
    hide AllProposals, TakeAll, Recut, Real, JournalOk, AllPlausible;
    var ov := Contract.After(c, Contract.EMPTY, ops);
    var ps := AllProposals(c, d, ov, preferSpec, now, Sorted(ov.endpoints.Keys));
    RunReal(c, ops);
    EmptyOk();
    RunKeeps(c, Contract.EMPTY, ops);
    ProposedReal(c, d, ov, preferSpec, now, Sorted(ov.endpoints.Keys));
    TakeAllReal(ov, ps);
    var after := TakeAll(ov, ps);
    var i :| 0 <= i < |ps| && ps[i] == Propose(a);
    AllSettled(ov, ps, i);
    if |after.admissions| < MAX_ADMISSIONS { TakenIsHeld(after, a); }
  }

  lemma EmptyOk()
    ensures JournalOk(Contract.EMPTY)
  {}

  lemma TakenIsHeld(ov: Overlay, a: Admission)
    requires Take(ov, Propose(a)) == ov && |ov.admissions| < MAX_ADMISSIONS && RealJournal(ov) && Real(a) && BAR !in a.verb
    ensures Held(ov, a) || (Recut(a) && exists b :: Twins(a, b) && Held(ov, b))
  {
    hide KeyText, Real, Recut, Parts, AllPlausible;
    assert Journaled(ov, KeyText(a));
    var i :| 0 <= i < |ov.admissions| && KeyText(ov.admissions[i]) == KeyText(a);
    var b := ov.admissions[i];
    VerbFirst(a, b);
    if Parts(b) != Parts(a) {
      assert Twins(a, b) && Held(ov, b);
      KeyShared(a);
    }
  }

  lemma PartsMakeKey(a: Admission, b: Admission)
    requires Parts(a) == Parts(b)
    ensures KeyText(a) == KeyText(b)
  {
    KeyIsJoin(a);
    KeyIsJoin(b);
  }

  /** Of two twins no run ever journals both. */
  lemma NeverBoth(c: Settings, ops: seq<Op>, a: Admission, b: Admission)
    requires Twins(a, b)
    ensures var ov := Contract.After(c, Contract.EMPTY, ops); !(Held(ov, a) && Held(ov, b))
  {
    hide KeyText, Parts, Contract.After, Real;
    var ov := Contract.After(c, Contract.EMPTY, ops);
    EmptyOk();
    RunKeeps(c, Contract.EMPTY, ops);
    if Held(ov, a) && Held(ov, b) {
      var i :| 0 <= i < |ov.admissions| && Parts(ov.admissions[i]) == Parts(a);
      var j :| 0 <= j < |ov.admissions| && Parts(ov.admissions[j]) == Parts(b);
      PartsMakeKey(ov.admissions[i], a);
      PartsMakeKey(ov.admissions[j], b);
      assert false;
    }
  }
}
