/** The path guard: literal path segments of high cardinality are promoted to `{id}`. A path is
    its list of segments, and a position is known by the segments emitted before it, which is
    what the text key of the source spells out (`KeyTextInjective`). */
module PathGuard {
  import opened JsNumber
  import opened Text
  import opened Totals

  const ID: string := "{id}"
  const PIN_COUNT: nat := 3
  const DEFAULT_CARDINALITY_THRESHOLD: nat := 32

  type Path = seq<string>

  /** The map key of the source. */
  function KeyText(p: Path): string { Join(p, '/') + "|" + Itoa(|p|) }

  predicate Free(s: string, c: char) { c !in s }

  ghost predicate Segments(p: Path) { forall i | 0 <= i < |p| :: Free(p[i], '/') }

  function FirstIndex(s: string, c: char): nat { if s == "" || s[0] == c then 0 else 1 + FirstIndex(s[1..], c) }

  function LastIndex(s: string, c: char): nat {
    if s == "" || s[|s| - 1] == c then |s| else LastIndex(s[..|s| - 1], c)
  }

  lemma {:induction false} FirstIndexIs(a: string, b: string, sep: char)
    requires Free(a, sep)
    ensures FirstIndex(a + [sep] + b, sep) == |a|
  {
    if a != "" {
      assert (a + [sep] + b)[1..] == a[1..] + [sep] + b;
      FirstIndexIs(a[1..], b, sep);
    }
  }

  lemma {:induction false} LastIndexIs(a: string, b: string, sep: char)
    requires Free(b, sep)
    ensures LastIndex(a + [sep] + b, sep) == |a| + 1
  {
    var s := a + [sep] + b;
    if b != "" {
      assert s[..|s| - 1] == a + [sep] + b[..|b| - 1];
      LastIndexIs(a, b[..|b| - 1], sep);
    }
  }

  lemma SameParts(a: string, b: string, c: string, d: string, sep: char)
    requires |a| == |c| && a + [sep] + b == c + [sep] + d
    ensures a == c && b == d
  {
    var s, t := a + [sep] + b, c + [sep] + d;
    assert s[..|a|] == a && t[..|a|] == c;
    assert s[|a| + 1..] == b && t[|a| + 1..] == d;
  }

  /** Two texts of the form a, separator, b agree only if both parts do, if the a parts are
      free of the separator, or the b parts are. */
  lemma SplitFirst(a: string, b: string, c: string, d: string, sep: char)
    requires Free(a, sep) && Free(c, sep) && a + [sep] + b == c + [sep] + d
    ensures a == c && b == d
  {
    FirstIndexIs(a, b, sep);
    FirstIndexIs(c, d, sep);
    SameParts(a, b, c, d, sep);
  }

  lemma SplitLast(a: string, b: string, c: string, d: string, sep: char)
    requires Free(b, sep) && Free(d, sep) && a + [sep] + b == c + [sep] + d
    ensures a == c && b == d
  {
    LastIndexIs(a, b, sep);
    LastIndexIs(c, d, sep);
    SameParts(a, b, c, d, sep);
  }

  lemma {:induction false} JoinInjective(p: Path, q: Path)
    requires Segments(p) && Segments(q) && |p| == |q| && Join(p, '/') == Join(q, '/')
    ensures p == q
  {
    if |p| > 1 {
      SplitFirst(p[0], Join(p[1..], '/'), q[0], Join(q[1..], '/'), '/');
      JoinInjective(p[1..], q[1..]);
      assert p == [p[0]] + p[1..] && q == [q[0]] + q[1..];
    }
  }

  lemma DigitsFree(n: nat)
    ensures Free(Itoa(n), '|')
  {}

  /** The text key stands for exactly one list of segments. */
  lemma KeyTextInjective(p: Path, q: Path)
    requires Segments(p) && Segments(q) && KeyText(p) == KeyText(q)
    ensures p == q
  {
    DigitsFree(|p|);
    DigitsFree(|q|);
    SplitLast(Join(p, '/'), Itoa(|p|), Join(q, '/'), Itoa(|q|), '|');
    ToNatItoa(|p|);
    ToNatItoa(|q|);
    JoinInjective(p, q);
  }

  datatype State = State(
    seen: map<Path, map<string, nat>>,
    promoted: set<Path>,
    pinned: map<Path, set<string>>)

  /** An unclassified segment at a position. */
  datatype Visit = Visit(key: Path, seg: string)

  const EMPTY: State := State(map[], {}, map[])

  function Tally(g: State, key: Path): map<string, nat> { if key in g.seen then g.seen[key] else map[] }

  function Pins(vals: map<string, nat>): set<string> { set v | v in vals && vals[v] >= PIN_COUNT }

  function PinnedAt(g: State, key: Path): set<string> { if key in g.pinned then g.pinned[key] else {} }

  predicate Promotes(threshold: nat, g: State, v: Visit) {
    v.key !in g.promoted && |Bump(Tally(g, v.key), v.seg)| > threshold
  }

  function Enter(threshold: nat, g: State, v: Visit): State {
    if v.key in g.promoted then g
    else
      var vals := Bump(Tally(g, v.key), v.seg);
      if |vals| > threshold then
        State(g.seen - {v.key}, g.promoted + {v.key}, g.pinned[v.key := Pins(vals)])
      else g.(seen := g.seen[v.key := vals])
  }

  /** What the segment becomes, the visit being entered. */
  function Output(g: State, v: Visit): string {
    if v.key in g.promoted && v.seg !in PinnedAt(g, v.key) then ID else v.seg
  }

  function After(threshold: nat, vs: seq<Visit>): State {
    if vs == [] then EMPTY else Enter(threshold, After(threshold, vs[..|vs| - 1]), vs[|vs| - 1])
  }

  /** Every segment ever emitted at a position. */
  function Outputs(threshold: nat, vs: seq<Visit>, key: Path): set<string> {
    if vs == [] then {}
    else
      var v := vs[|vs| - 1];
      Outputs(threshold, vs[..|vs| - 1], key) + if v.key == key then {Output(After(threshold, vs), v)} else {}
  }

  /** How often `seg` came to a position. */
  function Visits(vs: seq<Visit>, v: Visit): nat {
    if vs == [] then 0 else Visits(vs[..|vs| - 1], v) + if vs[|vs| - 1] == v then 1 else 0
  }

  /** Before promotion every segment seen was emitted as it is and counted; from promotion on
      the pinned ones had all been emitted. */
  ghost predicate Settled(threshold: nat, g: State, key: Path, out: set<string>) {
    if key in g.promoted then
      key in g.pinned && g.pinned[key] <= out && |out - {ID}| <= threshold
    else out == Tally(g, key).Keys && |out| <= threshold
  }

  lemma EnterSettles(threshold: nat, g: State, v: Visit, out: set<string>)
    requires Settled(threshold, g, v.key, out)
    ensures Settled(threshold, Enter(threshold, g, v), v.key, out + {Output(Enter(threshold, g, v), v)})
  {
    if v.key in g.promoted {
      SettledPromoted(threshold, g, v, out);
    } else if Promotes(threshold, g, v) {
      SettlesPromoting(threshold, g, v, out);
    } else {
      hide Pins;
      BumpKeys(Tally(g, v.key), v.seg);
    }
  }

  lemma BumpKeys(vals: map<string, nat>, seg: string)
    ensures Bump(vals, seg).Keys == vals.Keys + {seg} && |Bump(vals, seg)| == |vals.Keys + {seg}|
    ensures seg in vals ==> |Bump(vals, seg)| == |vals.Keys|
  {}

  lemma SettledPromoted(threshold: nat, g: State, v: Visit, out: set<string>)
    requires Settled(threshold, g, v.key, out) && v.key in g.promoted
    ensures Settled(threshold, g, v.key, out + {Output(g, v)})
  {}

  lemma SettlesPromoting(threshold: nat, g: State, v: Visit, out: set<string>)
    requires Settled(threshold, g, v.key, out) && Promotes(threshold, g, v)
    ensures Settled(threshold, Enter(threshold, g, v), v.key, out + {Output(Enter(threshold, g, v), v)})
  {}

  /** The segment that tips the balance is new, so it is not pinned. */
  lemma Promoting(threshold: nat, vals: map<string, nat>, seg: string)
    requires |vals.Keys| <= threshold < |Bump(vals, seg)|
    ensures seg !in vals && seg !in Pins(Bump(vals, seg)) && Pins(Bump(vals, seg)) <= vals.Keys
  {}

  lemma SubsetSize(a: set<string>, b: set<string>)
    requires a <= b
    ensures |a| <= |b|
  {
    if a != b {
      var x :| x in b && x !in a;
      SubsetSize(a, b - {x});
    }
  }

  lemma EnterElsewhere(threshold: nat, g: State, v: Visit, key: Path)
    requires v.key != key
    ensures var g' := Enter(threshold, g, v);
            (key in g'.promoted <==> key in g.promoted) && Tally(g', key) == Tally(g, key)
            && PinnedAt(g', key) == PinnedAt(g, key) && (key in g'.pinned <==> key in g.pinned)
  {
    hide Bump, Pins;
  }

  lemma {:induction false} RunSettles(threshold: nat, vs: seq<Visit>, key: Path)
    ensures Settled(threshold, After(threshold, vs), key, Outputs(threshold, vs, key))
  {
    if vs != [] {
      var front, v := vs[..|vs| - 1], vs[|vs| - 1];
      RunSettles(threshold, front, key);
      hide Enter, Output;
      if v.key == key {
        hide Settled;
        EnterSettles(threshold, After(threshold, front), v, Outputs(threshold, front, key));
      } else {
        EnterElsewhere(threshold, After(threshold, front), v, key);
      }
    }
  }

  /** Over every run a position emits at most `threshold` different segments besides `{id}`. */
  lemma LiteralsBounded(threshold: nat, vs: seq<Visit>, key: Path)
    ensures |Outputs(threshold, vs, key) - {ID}| <= threshold
  {
    RunSettles(threshold, vs, key);
    SubsetSize(Outputs(threshold, vs, key) - {ID}, Outputs(threshold, vs, key));
  }

  /** The bound is met: that many distinct segments all come out as they went in. */
  lemma {:induction false} LiteralsReached(threshold: nat, key: Path, segs: seq<string>)
    requires |segs| <= threshold && forall i, j | 0 <= i < j < |segs| :: segs[i] != segs[j]
    ensures var vs := VisitAll(key, segs);
            (forall s | s in Outputs(threshold, vs, key) :: s in segs) && |Outputs(threshold, vs, key)| == |segs|
            && key !in After(threshold, vs).promoted
  {
    if segs != [] {
      var n := |segs| - 1;
      LiteralsReached(threshold, key, segs[..n]);
      hide Outputs, After, VisitAll, Enter;
      assert segs[n] !in segs[..n];
      FreshStays(threshold, VisitAll(key, segs[..n]), Visit(key, segs[n]));
      VisitLast(threshold, key, segs);
    }
  }

  function VisitAll(key: Path, segs: seq<string>): seq<Visit> {
    seq(|segs|, i requires 0 <= i < |segs| => Visit(key, segs[i]))
  }

  lemma VisitLast(threshold: nat, key: Path, segs: seq<string>)
    requires segs != []
    ensures var before, v := VisitAll(key, segs[..|segs| - 1]), Visit(key, segs[|segs| - 1]);
            After(threshold, VisitAll(key, segs)) == Enter(threshold, After(threshold, before), v)
            && Outputs(threshold, VisitAll(key, segs), key)
               == Outputs(threshold, before, key) + {Output(Enter(threshold, After(threshold, before), v), v)}
  {
    hide Enter, Output;
    var n := |segs| - 1;
    assert VisitAll(key, segs)[..n] == VisitAll(key, segs[..n]);
  }

  lemma FreshStays(threshold: nat, vs: seq<Visit>, v: Visit)
    requires v.key !in After(threshold, vs).promoted && |Outputs(threshold, vs, v.key)| < threshold
    requires v.seg !in Outputs(threshold, vs, v.key)
    ensures var g := Enter(threshold, After(threshold, vs), v); v.key !in g.promoted && Output(g, v) == v.seg
  {
    RunSettles(threshold, vs, v.key);
    BumpKeys(Tally(After(threshold, vs), v.key), v.seg);
  }

  /** Promotion is permanent, and what a segment becomes there never changes again. */
  lemma {:induction false} PromotionIsFinal(threshold: nat, vs: seq<Visit>, more: seq<Visit>, v: Visit)
    requires v.key in After(threshold, vs).promoted
    ensures v.key in After(threshold, vs + more).promoted
    ensures Output(After(threshold, vs + more), v) == Output(After(threshold, vs), v)
  {
    if more == [] {
      assert vs + more == vs;
    } else {
      var n := |more| - 1;
      PromotionIsFinal(threshold, vs, more[..n], v);
      assert (vs + more)[..|vs + more| - 1] == vs + more[..n];
    }
  }

  /** The tally before promotion is the number of visits. */
  lemma {:induction false} TallyCounts(threshold: nat, vs: seq<Visit>, v: Visit)
    requires v.key !in After(threshold, vs).promoted
    ensures var t := Tally(After(threshold, vs), v.key); (if v.seg in t then t[v.seg] else 0) == Visits(vs, v)
  {
    if vs != [] { TallyCounts(threshold, vs[..|vs| - 1], v); }
  }

  /** The visit that promotes becomes `{id}`, and from then on exactly the segments that had
      come three times before are spared. */
  lemma SparedSegments(threshold: nat, vs: seq<Visit>, last: Visit, seg: string)
    requires Promotes(threshold, After(threshold, vs), last) && seg != ID
    ensures var g := After(threshold, vs + [last]);
            last.key in g.promoted
            && (Output(g, Visit(last.key, seg)) == seg <==> Visits(vs, Visit(last.key, seg)) >= PIN_COUNT)
  {
    hide Visits, Outputs, Enter, Promotes, Pins, Bump;
    var g, key := After(threshold, vs), last.key;
    assert (vs + [last])[..|vs|] == vs;
    assert After(threshold, vs + [last]) == Enter(threshold, g, last);
    TallyCounts(threshold, vs, Visit(key, seg)) by { StillOpen(threshold, g, last); }
    RunSettles(threshold, vs, key);
    Spared(threshold, g, last, seg, Outputs(threshold, vs, key));
  }

  lemma StillOpen(threshold: nat, g: State, last: Visit)
    requires Promotes(threshold, g, last)
    ensures last.key !in g.promoted
  {}

  lemma Spared(threshold: nat, g: State, last: Visit, seg: string, out: set<string>)
    requires Promotes(threshold, g, last) && Settled(threshold, g, last.key, out) && seg != ID
    ensures var g', t := Enter(threshold, g, last), Tally(g, last.key);
            last.key in g'.promoted
            && (Output(g', Visit(last.key, seg)) == seg <==> (if seg in t then t[seg] else 0) >= PIN_COUNT)
  {
    hide Tally;
    var t := Tally(g, last.key);
    Promoting(threshold, t, last.seg);
    var g' := Enter(threshold, g, last);
    assert g'.pinned[last.key] == Pins(Bump(t, last.seg));
    PinsAfter(t, last.seg, seg);
  }

  lemma PinsAfter(t: map<string, nat>, last: string, seg: string)
    requires last !in t
    ensures seg in Pins(Bump(t, last)) <==> (if seg in t then t[seg] else 0) >= PIN_COUNT
  {}

  // ---- Promotion by the number of different segments ----

  /** The different segments that came to a position. */
  function Segs(vs: seq<Visit>, key: Path): set<string> { set i | 0 <= i < |vs| && vs[i].key == key :: vs[i].seg }

  lemma SegsOne(vs: seq<Visit>, v: Visit, key: Path)
    ensures Segs(vs + [v], key) == Segs(vs, key) + if v.key == key then {v.seg} else {}
  {
    var all := vs + [v];
    assert all[|vs|] == v && forall i | 0 <= i < |vs| :: all[i] == vs[i];
    forall x | x in Segs(vs, key) ensures x in Segs(all, key) {
      var i :| 0 <= i < |vs| && vs[i].key == key && vs[i].seg == x;
      assert all[i].key == key && all[i].seg == x;
    }
  }

  /** A position is promoted exactly once more different segments than the threshold came. */
  lemma {:induction false} PromotedIff(threshold: nat, vs: seq<Visit>, key: Path)
    ensures key in After(threshold, vs).promoted <==> |Segs(vs, key)| > threshold
    ensures key !in After(threshold, vs).promoted ==> Tally(After(threshold, vs), key).Keys == Segs(vs, key)
  {
    if vs != [] {
      var front, v := vs[..|vs| - 1], vs[|vs| - 1];
      assert vs == front + [v];
      PromotedIff(threshold, front, key);
      SegsOne(front, v, key);
      if v.key == key {
        BumpKeys(Tally(After(threshold, front), key), v.seg);
        SubsetSize(Segs(front, key), Segs(vs, key));
        hide Bump, Pins, Segs;
      } else {
        hide Enter, Segs;
        EnterElsewhere(threshold, After(threshold, front), v, key);
      }
    }
  }

  lemma PromotesIff(threshold: nat, vs: seq<Visit>, v: Visit)
    ensures Promotes(threshold, After(threshold, vs), v) <==>
            |Segs(vs, v.key)| <= threshold < |Segs(vs + [v], v.key)|
  {
    PromotedIff(threshold, vs, v.key);
    SegsOne(vs, v, v.key);
    BumpKeys(Tally(After(threshold, vs), v.key), v.seg);
    hide Bump, Segs;
  }

  /** Up to the threshold segments come out as they are; beyond it they may become `{id}`. */
  lemma OutputIs(threshold: nat, vs: seq<Visit>, v: Visit)
    ensures var out := Output(After(threshold, vs), v);
            if |Segs(vs, v.key)| <= threshold then out == v.seg else out == v.seg || out == "{id}"
  {
    PromotedIff(threshold, vs, v.key);
  }

  // ---- The object ----

  /** `Promotion`: a position and the segments emitted before it. */
  datatype Promotion = Promotion(parent: Path, position: nat)

  /** The visits a path makes, in order, and the segments it becomes. `classify` gives the
      placeholder of a recognised segment, or the empty string. */
  datatype Walk = Walk(state: State, out: Path, visits: seq<Visit>, promo: Option<Promotion>)

  function Applied(threshold: nat, classify: string -> string, g: State, path: Path): Walk {
    if path == [] then Walk(g, [], [], None)
    else Advance(threshold, classify, Applied(threshold, classify, g, path[..|path| - 1]), path[|path| - 1])
  }

  function Advance(threshold: nat, classify: string -> string, w: Walk, seg: string): Walk {
    if seg == "" then w.(out := w.out + [seg])
    else if classify(seg) != "" then w.(out := w.out + [classify(seg)])
    else
      var v := Visit(w.out, seg);
      var g' := Enter(threshold, w.state, v);
      Walk(g', w.out + [Output(g', v)], w.visits + [v],
           if Promotes(threshold, w.state, v) then Some(Promotion(w.out, |w.out|)) else w.promo)
  }

  predicate Unclassified(classify: string -> string, seg: string) { seg != "" && classify(seg) == "" }

  /** The unclassified segments of a path, each under what the ones before it became. */
  function Visited(classify: string -> string, path: Path, out: Path): seq<Visit>
    requires |out| == |path|
  {
    if path == [] then []
    else
      var n := |path| - 1;
      Visited(classify, path[..n], out[..n]) + if Unclassified(classify, path[n]) then [Visit(out[..n], path[n])] else []
  }

  /** What segment `i` becomes: an empty one stays, a recognised one becomes its placeholder, any
      other what its visit gives. */
  predicate BecomesAt(threshold: nat, classify: string -> string, vs: seq<Visit>, path: Path, out: Path, i: nat)
    requires i < |path| == |out|
  {
    if path[i] == "" then out[i] == ""
    else if classify(path[i]) != "" then out[i] == classify(path[i])
    else out[i] == Output(After(threshold, vs + Visited(classify, path[..i + 1], out[..i + 1])), Visit(out[..i], path[i]))
  }

  /** Segment `i` takes its position beyond the threshold of different segments. */
  predicate TipsAt(threshold: nat, classify: string -> string, vs: seq<Visit>, path: Path, out: Path, i: nat)
    requires i < |path| == |out|
  {
    && Unclassified(classify, path[i])
    && |Segs(vs + Visited(classify, path[..i], out[..i]), out[..i])| <= threshold
    && |Segs(vs + Visited(classify, path[..i + 1], out[..i + 1]), out[..i])| > threshold
  }

  /** The last segment that does so is the promotion reported. */
  ghost predicate LastTip(threshold: nat, classify: string -> string, vs: seq<Visit>, path: Path, out: Path, promo: Option<Promotion>)
    requires |out| == |path|
  {
    if promo.None? then forall i | 0 <= i < |path| :: !TipsAt(threshold, classify, vs, path, out, i)
    else
      var at := promo.value.position;
      && at < |path| && promo.value.parent == out[..at] && TipsAt(threshold, classify, vs, path, out, at)
      && forall i | at < i < |path| :: !TipsAt(threshold, classify, vs, path, out, i)
  }

  ghost predicate WalkIs(threshold: nat, classify: string -> string, vs: seq<Visit>, path: Path, w: Walk) {
    && |w.out| == |path| && w.visits == Visited(classify, path, w.out) && w.state == After(threshold, vs + w.visits)
    && (forall i | 0 <= i < |path| :: BecomesAt(threshold, classify, vs, path, w.out, i))
    && LastTip(threshold, classify, vs, path, w.out, w.promo)
  }

  /** Applying a path visits its unclassified segments in turn, gives what those visits give, and
      reports the last position that went beyond the threshold. */
  lemma {:induction false} ApplyIsVisits(threshold: nat, classify: string -> string, vs: seq<Visit>, path: Path)
    ensures WalkIs(threshold, classify, vs, path, Applied(threshold, classify, After(threshold, vs), path))
  {
    if path == [] {
      assert vs + [] == vs;
    } else {
      ApplyIsVisits(threshold, classify, vs, path[..|path| - 1]);
      hide *;
      AppliedOne(threshold, classify, After(threshold, vs), path);
      AdvanceIs(threshold, classify, vs, path, Applied(threshold, classify, After(threshold, vs), path[..|path| - 1]));
    }
  }

  lemma AppliedOne(threshold: nat, classify: string -> string, g: State, path: Path)
    requires path != []
    ensures Applied(threshold, classify, g, path)
            == Advance(threshold, classify, Applied(threshold, classify, g, path[..|path| - 1]), path[|path| - 1])
  {}

  /** What was said of the shorter path holds of the longer. */
  lemma Earlier(threshold: nat, classify: string -> string, vs: seq<Visit>, path: Path, out: Path, o: string, i: nat)
    requires path != [] && |out| == |path| - 1 && i < |out|
    ensures BecomesAt(threshold, classify, vs, path, out + [o], i) <==> BecomesAt(threshold, classify, vs, path[..|out|], out, i)
    ensures TipsAt(threshold, classify, vs, path, out + [o], i) <==> TipsAt(threshold, classify, vs, path[..|out|], out, i)
  {
    var front, all := path[..|out|], out + [o];
    assert front[i] == path[i] && front[..i] == path[..i] && front[..i + 1] == path[..i + 1];
    assert all[i] == out[i] && all[..i] == out[..i] && all[..i + 1] == out[..i + 1];
    hide Visited, After, Segs, Output;
  }

  lemma VisitedOne(classify: string -> string, path: Path, out: Path, o: string)
    requires path != [] && |out| == |path| - 1
    ensures Visited(classify, path, out + [o])
            == Visited(classify, path[..|out|], out) + if Unclassified(classify, path[|out|]) then [Visit(out, path[|out|])] else []
  {
    assert (out + [o])[..|out|] == out;
  }

  /** The last segment of a path. */
  lemma LastSegment(threshold: nat, classify: string -> string, vs: seq<Visit>, path: Path, w: Walk)
    requires path != [] && |w.out| == |path| - 1 && w.visits == Visited(classify, path[..|w.out|], w.out)
    requires w.state == After(threshold, vs + w.visits)
    ensures var n := |w.out|;
            var w' := Advance(threshold, classify, w, path[n]);
            && |w'.out| == |path| && w'.out[..n] == w.out && w'.visits == Visited(classify, path, w'.out)
            && w'.state == After(threshold, vs + w'.visits) && BecomesAt(threshold, classify, vs, path, w'.out, n)
            && w'.promo == if TipsAt(threshold, classify, vs, path, w'.out, n) then Some(Promotion(w.out, n)) else w.promo
  {
    var n, v := |w.out|, Visit(w.out, path[|w.out|]);
    var w' := Advance(threshold, classify, w, path[n]);
    assert w'.out == w.out + [w'.out[n]];
    VisitedOne(classify, path, w.out, w'.out[n]);
    AfterOneMore(threshold, vs, w.visits, v);
    PromotesIff(threshold, vs + w.visits, v);
    assert w'.out[..n] == w.out && w'.out[..n + 1] == w'.out && path[..n + 1] == path;
    assert vs + w.visits + [v] == vs + (w.visits + [v]);
    assert w.visits + [] == w.visits;
    hide After, Enter, Output, Promotes, Segs, Visited;
  }

  lemma LastTipOne(threshold: nat, classify: string -> string, vs: seq<Visit>, path: Path, out: Path, o: string, promo: Option<Promotion>)
    requires path != [] && |out| == |path| - 1 && LastTip(threshold, classify, vs, path[..|out|], out, promo)
    ensures LastTip(threshold, classify, vs, path, out + [o],
                    if TipsAt(threshold, classify, vs, path, out + [o], |out|) then Some(Promotion(out, |out|)) else promo)
  {
    hide TipsAt;
    forall i | 0 <= i < |out|
      ensures TipsAt(threshold, classify, vs, path, out + [o], i) <==> TipsAt(threshold, classify, vs, path[..|out|], out, i)
    {
      Earlier(threshold, classify, vs, path, out, o, i);
    }
    assert (out + [o])[..|out|] == out;
    if promo.Some? { assert (out + [o])[..promo.value.position] == out[..promo.value.position]; }
  }

  lemma AdvanceIs(threshold: nat, classify: string -> string, vs: seq<Visit>, path: Path, w: Walk)
    requires path != [] && WalkIs(threshold, classify, vs, path[..|path| - 1], w)
    ensures WalkIs(threshold, classify, vs, path, Advance(threshold, classify, w, path[|path| - 1]))
  {
    hide After, Segs, Visited, Advance, BecomesAt, TipsAt, LastTip;
    var n, w' := |w.out|, Advance(threshold, classify, w, path[|path| - 1]);
    LastSegment(threshold, classify, vs, path, w);
    assert w'.out == w.out + [w'.out[n]];
    LastTipOne(threshold, classify, vs, path, w.out, w'.out[n], w.promo);
    forall i | 0 <= i < |path| ensures BecomesAt(threshold, classify, vs, path, w'.out, i) {
      if i < n { Earlier(threshold, classify, vs, path, w.out, w'.out[n], i); }
    }
  }

  lemma AfterOneMore(threshold: nat, vs: seq<Visit>, more: seq<Visit>, v: Visit)
    ensures After(threshold, vs + (more + [v])) == Enter(threshold, After(threshold, vs + more), v)
  {
    hide Enter;
    var all := vs + (more + [v]);
    assert all[..|all| - 1] == vs + more;
  }

  class Guard {
    const threshold: nat
    const classify: string -> string
    var seen: map<Path, map<string, nat>>
    var promoted: set<Path>
    var pinned: map<Path, set<string>>

    constructor (threshold: int, classify: string -> string)
      ensures this.threshold == (if threshold <= 0 then DEFAULT_CARDINALITY_THRESHOLD else threshold)
      ensures this.classify == classify && Current() == EMPTY
    {
      this.threshold := if threshold <= 0 then DEFAULT_CARDINALITY_THRESHOLD else threshold;
      this.classify := classify;
      seen, promoted, pinned := map[], {}, map[];
    }

    function Current(): State
      reads this
    {
      State(seen, promoted, pinned)
    }

    /** An unclassified segment at the position `key`. */
    method Place(key: Path, seg: string) returns (out: string, promotes: bool)
      modifies this
      ensures Current() == Enter(threshold, old(Current()), Visit(key, seg))
      ensures out == Output(Current(), Visit(key, seg))
      ensures promotes == Promotes(threshold, old(Current()), Visit(key, seg))
    {
      promotes := false;
      if key in promoted {
        return if key in pinned && seg in pinned[key] then seg else ID, false;
      }
      var vals := if key in seen then seen[key] else map[];
      vals := Bump(vals, seg);
      hide Bump, Pins;
      if |vals| > threshold {
        promoted := promoted + {key};
        var pins := Pins(vals);
        pinned := pinned[key := pins];
        seen := seen - {key};
        return if seg in pins then seg else ID, true;
      }
      seen := seen[key := vals];
      out := seg;
    }

    /** The segments are rewritten from left to right, each under those already rewritten. */
    method Apply(path: Path) returns (out: Path, promo: Option<Promotion>)
      modifies this
      ensures var w := Applied(threshold, classify, old(Current()), path);
              Current() == w.state && out == w.out && promo == w.promo
    {
      hide Enter, Output, Promotes;
      out, promo := [], None;
      ghost var start := Current();
      var i := 0;
      while i < |path|
        invariant 0 <= i <= |path| && |out| == i
        invariant var w := Applied(threshold, classify, start, path[..i]);
                  Current() == w.state && out == w.out && promo == w.promo
      {
        assert path[..i + 1][..i] == path[..i];
        var seg := path[i];
        var placeholder := if seg == "" then "" else classify(seg);
        if seg == "" {
          out := out + [seg];
        } else if placeholder != "" {
          out := out + [placeholder];
        } else {
          var o, promotes := Place(out, seg);
          if promotes { promo := Some(Promotion(out, i)); }
          out := out + [o];
        }
        i := i + 1;
      }
      assert path[..|path|] == path;
    }
  }
}
