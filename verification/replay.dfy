/** The replay set: three indexes over shared recordings, with a cursor per scope. */
module Replay {
  import opened Text

  /** The keys a recording, or a request, is filed under; how they are made is left open. */
  datatype Keys = Keys(exact: string, shape: string, order: string)

  datatype Tier = Exact | Shape | Sequence | Miss

  /** Which recording answers, by its place in the file, and where it stands in its list. */
  datatype Answer = Answer(tier: Tier, index: Option<nat>, position: nat, length: nat, held: bool)

  function KeyAt(k: Keys, tier: Tier): string {
    match tier
    case Exact => k.exact
    case Shape => k.shape
    case _ => k.order
  }

  /** The recordings filed under a key, in file order. */
  function Filed(recs: seq<Keys>, tier: Tier, key: string): seq<nat> {
    if recs == [] then []
    else Filed(Front(recs), tier, key) + if KeyAt(Last(recs), tier) == key then [|recs| - 1] else []
  }

  type Allow = (nat, Tier) -> bool

  function Permitted(ids: seq<nat>, tier: Tier, allow: Allow): seq<nat> {
    if ids == [] then [] else Permitted(Front(ids), tier, allow) + if allow(Last(ids), tier) then [Last(ids)] else []
  }

  function Choices(recs: seq<Keys>, q: Keys, allow: Allow, tier: Tier): seq<nat> {
    Permitted(Filed(recs, tier, KeyAt(q, tier)), tier, allow)
  }

  /** `takeUnserved`: where the first recording not served yet stands. */
  function FirstUnserved(ids: seq<nat>, served: set<nat>): (i: nat)
    ensures i <= |ids|
    ensures i < |ids| ==> ids[i] !in served
    ensures forall j | 0 <= j < i :: ids[j] in served
  {
    if ids == [] || ids[0] !in served then 0 else 1 + FirstUnserved(ids[1..], served)
  }

  /** From the exact matches: the next in order, or the last one held. */
  function FromExact(e: seq<nat>, served: set<nat>): (Answer, set<nat>)
    requires e != []
  {
    var i := FirstUnserved(e, served);
    if i < |e| then (Answer(Exact, Some(e[i]), i + 1, |e|, false), served + {e[i]})
    else (Answer(Exact, Some(Last(e)), |e|, |e|, true), served)
  }

  /** From the sequence: the next in order, or the first one, unmarked. */
  function FromSequence(t: seq<nat>, served: set<nat>): (Answer, set<nat>)
    requires t != []
  {
    var k := FirstUnserved(t, served);
    if k < |t| then (Answer(Sequence, Some(t[k]), 0, 0, false), served + {t[k]})
    else (Answer(Sequence, Some(t[0]), 0, 0, false), served - {t[0]})
  }

  /** The answer to a request of a scope, and the recordings served to that scope afterwards. */
  function Reply(recs: seq<Keys>, q: Keys, allow: Allow, served: set<nat>): (Answer, set<nat>) {
    var e, s, t := Choices(recs, q, allow, Exact), Choices(recs, q, allow, Shape), Choices(recs, q, allow, Sequence);
    var j := FirstUnserved(s, served);
    if e != [] then FromExact(e, served)
    else if j < |s| then (Answer(Shape, Some(s[j]), 0, 0, false), served + {s[j]})
    else if t != [] then FromSequence(t, served)
    else (Answer(Miss, None, 0, 0, false), served)
  }

  // ---- Runs of several scopes ----

  datatype Op =
    | Ask(scope: string, q: Keys, allow: Allow)
    | Forget(scope: string)

  /** What each scope was served. */
  type Cursors = map<string, set<nat>>

  function ServedTo(c: Cursors, scope: string): set<nat> { if scope in c then c[scope] else {} }

  function Do(recs: seq<Keys>, c: Cursors, op: Op): (seq<Answer>, Cursors) {
    match op
    case Forget(scope) => ([], c[scope := {}])
    case Ask(scope, q, allow) =>
      var (a, served) := Reply(recs, q, allow, ServedTo(c, scope));
      ([a], c[scope := served])
  }

  function After(recs: seq<Keys>, ops: seq<Op>): Cursors {
    if ops == [] then map[] else Do(recs, After(recs, Front(ops)), Last(ops)).1
  }

  /** The answers a scope gets in a run. */
  function Answers(recs: seq<Keys>, ops: seq<Op>, scope: string): seq<Answer> {
    if ops == [] then []
    else Answers(recs, Front(ops), scope)
         + if Last(ops).scope == scope then Do(recs, After(recs, Front(ops)), Last(ops)).0 else []
  }

  function Alone(ops: seq<Op>, scope: string): seq<Op> {
    if ops == [] then [] else Alone(Front(ops), scope) + if Last(ops).scope == scope then [Last(ops)] else []
  }

  /** A scope is answered in any interleaving as when it runs alone. */
  lemma {:induction false} ScopesDoNotInterfere(recs: seq<Keys>, ops: seq<Op>, scope: string)
    ensures Answers(recs, ops, scope) == Answers(recs, Alone(ops, scope), scope)
    ensures ServedTo(After(recs, ops), scope) == ServedTo(After(recs, Alone(ops, scope)), scope)
  {
    if ops != [] {
      ScopesDoNotInterfere(recs, Front(ops), scope);
      hide Reply;
      var alone := Alone(Front(ops), scope);
      if Last(ops).scope == scope {
        assert Front(alone + [Last(ops)]) == alone;
        assert Alone(ops, scope) == alone + [Last(ops)];
      } else {
        assert Alone(ops, scope) == alone;
      }
    }
  }

  lemma SameNext(recs: seq<Keys>, c: Cursors, d: Cursors, op: Op, scope: string)
    requires ServedTo(c, scope) == ServedTo(d, scope)
    ensures op.scope == scope ==> Do(recs, c, op).0 == Do(recs, d, op).0
    ensures ServedTo(Do(recs, c, op).1, scope) == if op.scope == scope then ServedTo(Do(recs, d, op).1, scope) else ServedTo(c, scope)
    ensures op.scope != scope ==> ServedTo(Do(recs, d, op).1, scope) == ServedTo(d, scope)
  {}

  /** After `Forget` a scope is answered as by a freshly loaded set. */
  lemma {:induction false} ForgottenIsFresh(recs: seq<Keys>, ops: seq<Op>, scope: string, more: seq<Op>)
    ensures Answers(recs, ops + [Forget(scope)] + more, scope)
            == Answers(recs, ops, scope) + Answers(recs, more, scope)
    ensures ServedTo(After(recs, ops + [Forget(scope)] + more), scope) == ServedTo(After(recs, more), scope)
  {
    var start := ops + [Forget(scope)];
    if more == [] {
      assert start + [] == start;
      RunNext(recs, ops, Forget(scope), scope);
    } else {
      ForgottenIsFresh(recs, ops, scope, Front(more));
      FreshNext(recs, Answers(recs, ops, scope), start + Front(more), Front(more), Last(more), scope);
      SplitLast(start, more);
    }
  }

  lemma SplitLast<T>(a: seq<T>, b: seq<T>)
    requires b != []
    ensures a + Front(b) + [Last(b)] == a + b && Front(b) + [Last(b)] == b
  {}

  lemma FreshNext(recs: seq<Keys>, before: seq<Answer>, long: seq<Op>, short: seq<Op>, op: Op, scope: string)
    requires Answers(recs, long, scope) == before + Answers(recs, short, scope)
    requires ServedTo(After(recs, long), scope) == ServedTo(After(recs, short), scope)
    ensures Answers(recs, long + [op], scope) == before + Answers(recs, short + [op], scope)
    ensures ServedTo(After(recs, long + [op]), scope) == ServedTo(After(recs, short + [op]), scope)
  {
    hide Answers, After, Do, ServedTo;
    RunNext(recs, long, op, scope);
    RunNext(recs, short, op, scope);
    SameNext(recs, After(recs, long), After(recs, short), op, scope);
  }

  lemma RunNext(recs: seq<Keys>, ops: seq<Op>, op: Op, scope: string)
    ensures After(recs, ops + [op]) == Do(recs, After(recs, ops), op).1
    ensures Answers(recs, ops + [op], scope)
            == Answers(recs, ops, scope) + if op.scope == scope then Do(recs, After(recs, ops), op).0 else []
  {}

  // ---- What a scope that keeps asking is served ----

  ghost predicate Increasing(ids: seq<nat>, bound: nat) {
    (forall i, j | 0 <= i < j < |ids| :: ids[i] < ids[j]) && forall i | 0 <= i < |ids| :: ids[i] < bound
  }

  lemma {:induction false} FiledIncreasing(recs: seq<Keys>, tier: Tier, key: string)
    ensures Increasing(Filed(recs, tier, key), |recs|)
  {
    if recs != [] { FiledIncreasing(Front(recs), tier, key); }
  }

  lemma {:induction false} PermittedIncreasing(ids: seq<nat>, tier: Tier, allow: Allow, bound: nat)
    requires Increasing(ids, bound)
    ensures Increasing(Permitted(ids, tier, allow), bound)
    ensures forall x | x in Permitted(ids, tier, allow) :: x in ids
  {
    if ids != [] {
      PermittedIncreasing(Front(ids), tier, allow, bound);
      var p := Permitted(Front(ids), tier, allow);
      forall i | 0 <= i < |p| ensures p[i] < Last(ids) {
        assert p[i] in p && p[i] in Front(ids);
      }
    }
  }

  lemma ChoicesIncreasing(recs: seq<Keys>, q: Keys, allow: Allow, tier: Tier)
    ensures Increasing(Choices(recs, q, allow, tier), |recs|)
  {
    FiledIncreasing(recs, tier, KeyAt(q, tier));
    PermittedIncreasing(Filed(recs, tier, KeyAt(q, tier)), tier, allow, |recs|);
  }

  // ---- An answer, said without the indexes ----

  /** Recording `x` answers the request in a tier: its key is the request's, and it is allowed. */
  predicate IsMatch(recs: seq<Keys>, q: Keys, allow: Allow, tier: Tier, x: nat) {
    x < |recs| && allow(x, tier)
    && match tier
       case Exact => recs[x].exact == q.exact
       case Shape => recs[x].shape == q.shape
       case Sequence => recs[x].order == q.order
       case Miss => false
  }

  function Fitting(recs: seq<Keys>, q: Keys, allow: Allow, tier: Tier): set<nat> {
    set x: nat | x < |recs| && IsMatch(recs, q, allow, tier, x)
  }

  /** The first in the file that has not been served. */
  ghost predicate FirstFree(fits: set<nat>, served: set<nat>, x: nat) {
    x in fits && x !in served && forall y | y in fits && y < x :: y in served
  }

  ghost predicate Newest(fits: set<nat>, x: nat) { x in fits && forall y | y in fits :: y <= x }

  ghost predicate Oldest(fits: set<nat>, x: nat) { x in fits && forall y | y in fits :: x <= y }

  lemma {:induction false} FiledAre(recs: seq<Keys>, tier: Tier, key: string, x: nat)
    ensures x in Filed(recs, tier, key) <==> x < |recs| && KeyAt(recs[x], tier) == key
  {
    if recs != [] {
      FiledAre(Front(recs), tier, key, x);
      var ids := Filed(Front(recs), tier, key);
      FrontAndLast(ids + [|recs| - 1], x);
      assert Front(ids + [|recs| - 1]) == ids;
    }
  }

  lemma {:induction false} PermittedAre(ids: seq<nat>, tier: Tier, allow: Allow, x: nat)
    ensures x in Permitted(ids, tier, allow) <==> x in ids && allow(x, tier)
  {
    if ids != [] {
      PermittedAre(Front(ids), tier, allow, x);
      FrontAndLast(ids, x);
    }
  }

  lemma ChoicesAre(recs: seq<Keys>, q: Keys, allow: Allow, tier: Tier, x: nat)
    requires !tier.Miss?
    ensures x in Choices(recs, q, allow, tier) <==> x in Fitting(recs, q, allow, tier)
  {
    FiledAre(recs, tier, KeyAt(q, tier), x);
    PermittedAre(Filed(recs, tier, KeyAt(q, tier)), tier, allow, x);
  }

  function UpTo(fits: set<nat>, x: nat): set<nat> { set y | y in fits && y <= x }

  /** An increasing list of the members of a set. */
  ghost predicate Enumerates(ids: seq<nat>, fits: set<nat>) {
    (forall i, j | 0 <= i < j < |ids| :: ids[i] < ids[j]) && forall x :: x in ids <==> x in fits
  }

  lemma ChoicesEnumerate(recs: seq<Keys>, q: Keys, allow: Allow, tier: Tier)
    requires !tier.Miss?
    ensures Enumerates(Choices(recs, q, allow, tier), Fitting(recs, q, allow, tier))
  {
    ChoicesIncreasing(recs, q, allow, tier);
    hide Fitting, Choices;
    forall x ensures x in Choices(recs, q, allow, tier) <==> x in Fitting(recs, q, allow, tier) { ChoicesAre(recs, q, allow, tier, x); }
  }

  lemma {:induction false} EnumeratesSize(ids: seq<nat>, fits: set<nat>)
    requires Enumerates(ids, fits)
    ensures |ids| == |fits|
    decreases |ids|
  {
    if ids == [] {
      assert fits == {};
    } else {
      var rest := fits - {Last(ids)};
      assert Last(ids) in ids;
      forall x ensures x in Front(ids) <==> x in rest { FrontAndLast(ids, x); }
      EnumeratesSize(Front(ids), rest);
    }
  }

  lemma EnumeratesPrefix(ids: seq<nat>, fits: set<nat>, i: nat)
    requires Enumerates(ids, fits) && i < |ids|
    ensures i + 1 == |UpTo(fits, ids[i])|
  {
    var few := UpTo(fits, ids[i]);
    forall x ensures x in ids[..i + 1] <==> x in few {
      if x in few {
        var k :| 0 <= k < |ids| && ids[k] == x;
        assert k <= i && ids[..i + 1][k] == x;
      }
      if x in ids[..i + 1] {
        var k :| 0 <= k <= i && ids[..i + 1][k] == x;
        assert ids[k] == x && x in ids;
      }
    }
    EnumeratesSize(ids[..i + 1], few);
  }

  /** Where the search ends: at the first one free, or past the end if there is none. */
  lemma SearchIs(ids: seq<nat>, fits: set<nat>, served: set<nat>)
    requires Enumerates(ids, fits)
    ensures var i := FirstUnserved(ids, served); if i < |ids| then FirstFree(fits, served, ids[i]) else fits <= served
    ensures ids != [] ==> Oldest(fits, ids[0]) && Newest(fits, Last(ids))
    ensures ids == [] <==> fits == {}
  {
    var i := FirstUnserved(ids, served);
    if ids != [] { assert ids[0] in ids && Last(ids) in ids; }
    if i < |ids| {
      assert ids[i] in ids;
      forall y | y in fits && y < ids[i] ensures y in served {
        var k :| 0 <= k < |ids| && ids[k] == y;
        assert k < i;
      }
    }
  }

  /** Exact matches come first: the next in the file not served yet, with its place among them,
      or the newest again, held. Then the shape: the next not served yet. Then the sequence: the
      next not served yet, or else the oldest, which then counts as not served. */
  ghost predicate AnswerIs(recs: seq<Keys>, q: Keys, allow: Allow, served: set<nat>, a: Answer, served': set<nat>) {
    var e, s, t := Fitting(recs, q, allow, Exact), Fitting(recs, q, allow, Shape), Fitting(recs, q, allow, Sequence);
    match a.tier
    case Exact =>
      && a.index.Some? && a.length == |e|
      && if a.held then e <= served && Newest(e, a.index.value) && a.position == |e| && served' == served
         else FirstFree(e, served, a.index.value) && a.position == |UpTo(e, a.index.value)|
              && served' == served + {a.index.value}
    case Shape =>
      e == {} && a.index.Some? && FirstFree(s, served, a.index.value) && served' == served + {a.index.value}
    case Sequence =>
      && e == {} && s <= served && a.index.Some?
      && if t <= served then Oldest(t, a.index.value) && served' == served - {a.index.value}
         else FirstFree(t, served, a.index.value) && served' == served + {a.index.value}
    case Miss => e == {} && s <= served && t == {} && a.index.None? && served' == served
  }

  lemma ReplyIs(recs: seq<Keys>, q: Keys, allow: Allow, served: set<nat>)
    ensures var (a, served') := Reply(recs, q, allow, served); AnswerIs(recs, q, allow, served, a, served')
  {
    hide Choices, Fitting, FirstUnserved, Enumerates, Oldest, Newest;
    var e, s, t := Choices(recs, q, allow, Exact), Choices(recs, q, allow, Shape), Choices(recs, q, allow, Sequence);
    ChoicesEnumerate(recs, q, allow, Exact);
    ChoicesEnumerate(recs, q, allow, Shape);
    ChoicesEnumerate(recs, q, allow, Sequence);
    SearchIs(e, Fitting(recs, q, allow, Exact), served);
    SearchIs(s, Fitting(recs, q, allow, Shape), served);
    SearchIs(t, Fitting(recs, q, allow, Sequence), served);
    EnumeratesSize(e, Fitting(recs, q, allow, Exact));
    var i := FirstUnserved(e, served);
    if i < |e| { EnumeratesPrefix(e, Fitting(recs, q, allow, Exact), i); }
  }

  /** The i-th answer to an exact match: the recordings in file order, then the last one held. */
  function ExactAnswer(e: seq<nat>, i: nat): Answer
    requires e != []
  {
    if i < |e| then Answer(Exact, Some(e[i]), i + 1, |e|, false) else Answer(Exact, Some(Last(e)), |e|, |e|, true)
  }

  function ExactAnswers(e: seq<nat>, n: nat): seq<Answer>
    requires e != []
  {
    if n == 0 then [] else ExactAnswers(e, n - 1) + [ExactAnswer(e, n - 1)]
  }

  function Served(e: seq<nat>, n: nat): set<nat> { set i | 0 <= i < n && i < |e| :: e[i] }

  function Repeated(op: Op, n: nat): seq<Op> { seq(n, _ => op) }

  lemma ExactNext(recs: seq<Keys>, q: Keys, allow: Allow, n: nat)
    requires Choices(recs, q, allow, Exact) != []
    ensures var e := Choices(recs, q, allow, Exact); Reply(recs, q, allow, Served(e, n)) == (ExactAnswer(e, n), Served(e, n + 1))
  {
    var e := Choices(recs, q, allow, Exact);
    ChoicesIncreasing(recs, q, allow, Exact);
    var i := FirstUnserved(e, Served(e, n));
    if n < |e| {
      assert forall j | 0 <= j < n :: e[j] in Served(e, n);
      assert e[n] !in Served(e, n);
      assert i == n;
      assert Served(e, n + 1) == Served(e, n) + {e[n]};
    } else {
      assert forall j | 0 <= j < |e| :: e[j] in Served(e, n);
      assert i == |e|;
      assert Served(e, n + 1) == Served(e, n);
    }
  }

  lemma ExactOneMore(recs: seq<Keys>, scope: string, q: Keys, allow: Allow, ops: seq<Op>, n: nat)
    requires Choices(recs, q, allow, Exact) != [] && ServedTo(After(recs, ops), scope) == Served(Choices(recs, q, allow, Exact), n)
    ensures var e, next := Choices(recs, q, allow, Exact), ops + [Ask(scope, q, allow)];
            ServedTo(After(recs, next), scope) == Served(e, n + 1)
            && Answers(recs, next, scope) == Answers(recs, ops, scope) + [ExactAnswer(e, n)]
  {
    hide Reply, Choices, Answers, After, Served, ExactAnswer;
    ExactNext(recs, q, allow, n);
    RunNext(recs, ops, Ask(scope, q, allow), scope);
  }

  lemma RepeatedGrows(op: Op, n: nat)
    ensures Repeated(op, 0) == [] && (n > 0 ==> Repeated(op, n) == Repeated(op, n - 1) + [op])
  {}

  lemma NothingServed(recs: seq<Keys>, scope: string, e: seq<nat>)
    requires e != []
    ensures Answers(recs, [], scope) == ExactAnswers(e, 0) && ServedTo(After(recs, []), scope) == Served(e, 0)
  {}

  lemma {:induction false} ExactInOrder(recs: seq<Keys>, scope: string, q: Keys, allow: Allow, n: nat)
    requires Choices(recs, q, allow, Exact) != []
    ensures var e, ops := Choices(recs, q, allow, Exact), Repeated(Ask(scope, q, allow), n);
            Answers(recs, ops, scope) == ExactAnswers(e, n) && ServedTo(After(recs, ops), scope) == Served(e, n)
  {
    hide Choices, Answers, After, Served, Repeated, ServedTo, ExactAnswer;
    RepeatedGrows(Ask(scope, q, allow), n);
    if n == 0 {
      NothingServed(recs, scope, Choices(recs, q, allow, Exact));
    } else {
      ExactInOrder(recs, scope, q, allow, n - 1);
      ExactOneMore(recs, scope, q, allow, Repeated(Ask(scope, q, allow), n - 1), n - 1);
    }
  }

  /** Without an exact match every request is given a recording not served yet, those of its
      shape first, as long as there is one. */
  lemma FreshWhileThereIsOne(recs: seq<Keys>, q: Keys, allow: Allow, served: set<nat>)
    requires Choices(recs, q, allow, Exact) == []
    requires exists x :: (x in Choices(recs, q, allow, Shape) || x in Choices(recs, q, allow, Sequence)) && x !in served
    ensures var (a, served') := Reply(recs, q, allow, served);
            a.index.Some? && a.index.value !in served && served' == served + {a.index.value}
            && (a.tier.Sequence? ==> forall x | x in Choices(recs, q, allow, Shape) :: x in served)
  {
    var s, t := Choices(recs, q, allow, Shape), Choices(recs, q, allow, Sequence);
    var x :| (x in s || x in t) && x !in served;
    assert x in s ==> FirstUnserved(s, served) < |s|;
    assert x in t ==> FirstUnserved(t, served) < |t|;
  }

  /** Everything but the first of the sequence has been served. */
  ghost predicate Spent(recs: seq<Keys>, q: Keys, allow: Allow, served: set<nat>) {
    && Choices(recs, q, allow, Exact) == [] && Choices(recs, q, allow, Sequence) != []
    && forall x | (x in Choices(recs, q, allow, Shape) || x in Choices(recs, q, allow, Sequence))
                  && x != Choices(recs, q, allow, Sequence)[0] :: x in served
  }

  /** Once spent, the sequence does not start over: it answers with its first recording forever. */
  lemma SpentSticks(recs: seq<Keys>, q: Keys, allow: Allow, served: set<nat>)
    requires Spent(recs, q, allow, served)
    ensures var (a, served') := Reply(recs, q, allow, served);
            a.index == Some(Choices(recs, q, allow, Sequence)[0]) && Spent(recs, q, allow, served')
  {
    hide Choices;
    var s, t := Choices(recs, q, allow, Shape), Choices(recs, q, allow, Sequence);
    var j, k := FirstUnserved(s, served), FirstUnserved(t, served);
    assert j < |s| ==> s[j] in s;
    assert k < |t| ==> t[k] in t;
  }

  // ---- The object ----

  class Recording {
    const at: nat
    const keys: Keys
    var served: set<string>

    constructor (at: nat, keys: Keys)
      ensures this.at == at && this.keys == keys && served == {}
    {
      this.at, this.keys, served := at, keys, {};
    }
  }

  type Index = map<string, seq<Recording>>

  function Places(list: seq<Recording>): seq<nat> { seq(|list|, i requires 0 <= i < |list| => list[i].at) }

  function Listed(x: Index, key: string): seq<Recording> { if key in x then x[key] else [] }

  /** The index files exactly the recordings whose key it is, in file order. */
  ghost predicate Indexes(x: Index, all: seq<Recording>, tier: Tier) {
    forall key :: Places(Listed(x, key)) == Filed(KeysOf(all), tier, key)
                  && forall i | 0 <= i < |Listed(x, key)| :: Listed(x, key)[i] in all
  }

  function KeysOf(all: seq<Recording>): seq<Keys> { seq(|all|, i requires 0 <= i < |all| => all[i].keys) }

  ghost predicate Placed(all: seq<Recording>) { forall i | 0 <= i < |all| :: all[i].at == i }

  ghost function Cursor(all: seq<Recording>, scope: string): set<nat>
    reads all
  {
    set i | 0 <= i < |all| && scope in all[i].served
  }

  method Append(x: Index, key: string, r: Recording, ghost all: seq<Recording>, tier: Tier) returns (y: Index)
    requires Indexes(x, all, tier) && key == KeyAt(r.keys, tier) && r.at == |all|
    ensures Indexes(y, all + [r], tier)
  {
    y := x[key := Listed(x, key) + [r]];
    forall k ensures Places(Listed(y, k)) == Filed(KeysOf(all + [r]), tier, k)
                     && forall i | 0 <= i < |Listed(y, k)| :: Listed(y, k)[i] in all + [r]
    {
      assert Front(KeysOf(all + [r])) == KeysOf(all);
      assert Places(Listed(x, k)) == Filed(KeysOf(all), tier, k);
      assert k == key ==> Places(Listed(y, k)) == Places(Listed(x, k)) + [r.at];
    }
  }

  class Set {
    ghost var all: seq<Recording>
    var exact: Index
    var shape: Index
    var sequence: Index
    var unmatched: nat

    ghost predicate Valid()
      reads this
    {
      Placed(all) && Indexes(exact, all, Exact) && Indexes(shape, all, Shape) && Indexes(sequence, all, Sequence)
    }

    /** `LoadFile`, the lines decoded. */
    constructor (recs: seq<Keys>)
      ensures Valid() && KeysOf(all) == recs && fresh(all) && forall scope :: Cursor(all, scope) == {}
    {
      var e, s, t;
      ghost var rs;
      e, s, t, rs := FileAll(recs);
      exact, shape, sequence, all, unmatched := e, s, t, rs, 0;
    }

    method MatchValueScoped(scope: string, q: Keys, allow: Allow) returns (a: Answer, r: Recording?)
      requires Valid()
      modifies all, this`unmatched
      ensures (a, Cursor(all, scope)) == Reply(KeysOf(all), q, allow, old(Cursor(all, scope)))
      ensures forall other | other != scope :: Cursor(all, other) == old(Cursor(all, other))
      ensures r == if a.index.Some? && a.index.value < |all| then all[a.index.value] else null
      ensures unmatched == old(unmatched) + if a.tier.Miss? then 1 else 0
    {
      hide Cursor, Indexes, FirstUnserved, FromExact, FromSequence, Filed, Permitted;
      var recs := AllowedIn(exact, q.exact, Exact, allow, all);
      if |recs| > 0 {
        a, r := ServeExact(recs, scope, all);
        return;
      }
      var shaped := AllowedIn(shape, q.shape, Shape, allow, all);
      var i := TakeUnserved(shaped, scope, all);
      if i < |shaped| { return Answer(Shape, Some(shaped[i].at), 0, 0, false), shaped[i]; }
      var ordered := AllowedIn(sequence, q.order, Sequence, allow, all);
      if |ordered| > 0 {
        a, r := ServeSequence(ordered, scope, all);
        return;
      }
      unmatched := unmatched + 1;
      a, r := Answer(Miss, None, 0, 0, false), null;
    }

    /** Every recording is in the sequence index, so walking that one forgets them all. */
    method ForgetScope(scope: string)
      requires Valid()
      modifies all
      ensures Cursor(all, scope) == {}
      ensures forall other | other != scope :: Cursor(all, other) == old(Cursor(all, other))
    {
      hide Cursor, Indexes;
      forall i | 0 <= i < |all| ensures all[i].keys.order in sequence {
        EveryRecordingFiled(KeysOf(all), i);
        KnownList(sequence, all, all[i].keys.order);
        assert i in Places(Listed(sequence, all[i].keys.order));
      }
      var keys := sequence.Keys;
      while keys != {}
        invariant keys <= sequence.Keys
        invariant forall i | 0 <= i < |all| && all[i].keys.order !in keys :: i !in Cursor(all, scope)
        invariant forall other | other != scope :: Cursor(all, other) == old(Cursor(all, other))
      {
        var key :| key in keys;
        KnownList(sequence, all, key);
        UnmarkAll(sequence[key], scope, all);
        forall i | 0 <= i < |all| && all[i].keys.order == key ensures i !in Cursor(all, scope) {
          EveryRecordingFiled(KeysOf(all), i);
          assert i in Places(sequence[key]);
        }
        keys := keys - {key};
      }
      CursorRange(all, scope);
    }
  }

  method ServeExact(recs: seq<Recording>, scope: string, ghost all: seq<Recording>) returns (a: Answer, r: Recording)
    requires Placed(all) && Known(recs, all) && |recs| > 0 && Increasing(Places(recs), |all|)
    modifies all
    ensures (a, Cursor(all, scope)) == FromExact(Places(recs), old(Cursor(all, scope)))
    ensures forall other | other != scope :: Cursor(all, other) == old(Cursor(all, other))
    ensures a.index == Some(r.at) && r in recs && a.tier.Exact?
  {
    hide Cursor, FirstUnserved;
    var i := TakeUnserved(recs, scope, all);
    assert |Places(recs)| == |recs| && forall j | 0 <= j < |recs| :: Places(recs)[j] == recs[j].at;
    if i == |recs| {
      r := Last(recs);
      a := Answer(Exact, Some(r.at), |recs|, |recs|, true);
    } else {
      r := recs[i];
      forall j | 0 <= j < i ensures recs[j] != r { assert Places(recs)[j] < Places(recs)[i]; }
      var p := PositionOf(recs, r, i);
      a := Answer(Exact, Some(r.at), p, |recs|, false);
    }
  }

  method ServeSequence(recs: seq<Recording>, scope: string, ghost all: seq<Recording>) returns (a: Answer, r: Recording)
    requires Placed(all) && Known(recs, all) && |recs| > 0
    modifies all
    ensures (a, Cursor(all, scope)) == FromSequence(Places(recs), old(Cursor(all, scope)))
    ensures forall other | other != scope :: Cursor(all, other) == old(Cursor(all, other))
    ensures a.index == Some(r.at) && r in recs && a.tier.Sequence?
  {
    hide Cursor, FirstUnserved;
    var i := TakeUnserved(recs, scope, all);
    assert |Places(recs)| == |recs| && forall j | 0 <= j < |recs| :: Places(recs)[j] == recs[j].at;
    if i == |recs| {
      Unmark(recs[0], scope, all);
      r := recs[0];
    } else {
      r := recs[i];
    }
    a := Answer(Sequence, Some(r.at), 0, 0, false);
  }

  method UnmarkAll(list: seq<Recording>, scope: string, ghost all: seq<Recording>)
    requires Placed(all) && Known(list, all)
    modifies all
    ensures Cursor(all, scope) <= old(Cursor(all, scope))
    ensures forall i | 0 <= i < |list| :: list[i].at !in Cursor(all, scope)
    ensures forall other | other != scope :: Cursor(all, other) == old(Cursor(all, other))
  {
    var i := 0;
    while i < |list|
      invariant 0 <= i <= |list|
      invariant Cursor(all, scope) <= old(Cursor(all, scope))
      invariant forall j | 0 <= j < i :: list[j].at !in Cursor(all, scope)
      invariant forall other | other != scope :: Cursor(all, other) == old(Cursor(all, other))
    {
      Unmark(list[i], scope, all);
      i := i + 1;
    }
  }

  lemma {:induction false} EveryRecordingFiled(recs: seq<Keys>, i: nat)
    requires i < |recs|
    ensures i in Filed(recs, Sequence, recs[i].order)
  {
    if i < |recs| - 1 { EveryRecordingFiled(Front(recs), i); }
  }

  lemma CursorRange(all: seq<Recording>, scope: string)
    ensures forall i | i in Cursor(all, scope) :: 0 <= i < |all|
  {}

  lemma KnownList(x: Index, all: seq<Recording>, key: string)
    requires Indexes(x, all, Sequence) && Placed(all)
    ensures Known(Listed(x, key), all) && Places(Listed(x, key)) == Filed(KeysOf(all), Sequence, key)
  {}

  /** `allowed`, on the list a key is filed under. */
  method AllowedIn(x: Index, key: string, tier: Tier, allow: Allow, ghost all: seq<Recording>) returns (out: seq<Recording>)
    requires Indexes(x, all, tier) && Placed(all)
    ensures Places(out) == Permitted(Filed(KeysOf(all), tier, key), tier, allow)
    ensures Known(out, all) && Increasing(Places(out), |all|)
  {
    var list := Listed(x, key);
    assert Places(list) == Filed(KeysOf(all), tier, key) && Known(list, all);
    FiledIncreasing(KeysOf(all), tier, key);
    PermittedIncreasing(Places(list), tier, allow, |all|);
    hide Indexes, Filed;
    out := Allowed(list, tier, allow, all);
  }

  ghost predicate Known(list: seq<Recording>, all: seq<Recording>) {
    forall i | 0 <= i < |list| :: list[i].at < |all| && all[list[i].at] == list[i]
  }

  method Allowed(list: seq<Recording>, tier: Tier, allow: Allow, ghost all: seq<Recording>) returns (out: seq<Recording>)
    requires Known(list, all)
    ensures Places(out) == Permitted(Places(list), tier, allow) && Known(out, all)
  {
    out := [];
    var i := 0;
    while i < |list|
      invariant 0 <= i <= |list|
      invariant Places(out) == Permitted(Places(list)[..i], tier, allow) && Known(out, all)
    {
      var r := list[i];
      i := i + 1;
      assert Front(Places(list)[..i]) == Places(list)[..i - 1] && Last(Places(list)[..i]) == r.at;
      if allow(r.at, tier) {
        assert Places(out + [r]) == Places(out) + [r.at];
        out := out + [r];
      }
    }
    assert Places(list)[..i] == Places(list);
  }

  method PositionOf(list: seq<Recording>, r: Recording, ghost i: nat) returns (p: nat)
    requires i < |list| && list[i] == r && forall j | 0 <= j < i :: list[j] != r
    ensures p == i + 1
  {
    p := 0;
    while p < |list|
      invariant 0 <= p <= i
    {
      if list[p] == r { return p + 1; }
      p := p + 1;
    }
  }

  method Mark(r: Recording, scope: string, ghost all: seq<Recording>)
    requires Placed(all) && r.at < |all| && all[r.at] == r
    modifies r
    ensures Cursor(all, scope) == old(Cursor(all, scope)) + {r.at}
    ensures forall other | other != scope :: Cursor(all, other) == old(Cursor(all, other))
  {
    r.served := r.served + {scope};
  }

  method Unmark(r: Recording, scope: string, ghost all: seq<Recording>)
    requires Placed(all) && r.at < |all| && all[r.at] == r
    modifies r
    ensures Cursor(all, scope) == old(Cursor(all, scope)) - {r.at}
    ensures forall other | other != scope :: Cursor(all, other) == old(Cursor(all, other))
  {
    r.served := r.served - {scope};
  }

  /** Marks the first recording not served to the scope, if there is one. */
  method TakeUnserved(list: seq<Recording>, scope: string, ghost all: seq<Recording>) returns (i: nat)
    requires Placed(all) && Known(list, all)
    modifies all
    ensures i == FirstUnserved(Places(list), old(Cursor(all, scope)))
    ensures Cursor(all, scope) == if i < |list| then old(Cursor(all, scope)) + {list[i].at} else old(Cursor(all, scope))
    ensures forall other | other != scope :: Cursor(all, other) == old(Cursor(all, other))
  {
    ghost var served := Cursor(all, scope);
    i := 0;
    while i < |list|
      invariant 0 <= i <= |list|
      invariant forall j | 0 <= j < i :: list[j].at in served
    {
      if scope !in list[i].served {
        FirstIs(Places(list), served, i);
        Mark(list[i], scope, all);
        return;
      }
      i := i + 1;
    }
    FirstIs(Places(list), served, i);
  }

  lemma {:induction false} FirstIs(ids: seq<nat>, served: set<nat>, i: nat)
    requires i <= |ids| && (forall j | 0 <= j < i :: ids[j] in served) && (i < |ids| ==> ids[i] !in served)
    ensures FirstUnserved(ids, served) == i
  {}

  method FileAll(recs: seq<Keys>) returns (exact: Index, shape: Index, sequence: Index, ghost all: seq<Recording>)
    ensures Placed(all) && Indexes(exact, all, Exact) && Indexes(shape, all, Shape) && Indexes(sequence, all, Sequence)
    ensures KeysOf(all) == recs && fresh(all) && forall i | 0 <= i < |all| :: all[i].served == {}
  {
    exact, shape, sequence, all := map[], map[], map[], [];
    var i := 0;
    assert Indexes(map[], [], Exact) && Indexes(map[], [], Shape) && Indexes(map[], [], Sequence);
    hide Indexes;
    while i < |recs|
      invariant 0 <= i <= |recs| && |all| == i && Placed(all) && KeysOf(all) == recs[..i]
      invariant Indexes(exact, all, Exact) && Indexes(shape, all, Shape) && Indexes(sequence, all, Sequence)
      invariant forall j | 0 <= j < i :: fresh(all[j]) && all[j].served == {}
    {
      var r := new Recording(i, recs[i]);
      exact := Append(exact, recs[i].exact, r, all, Exact);
      shape := Append(shape, recs[i].shape, r, all, Shape);
      sequence := Append(sequence, recs[i].order, r, all, Sequence);
      KeysOfMore(all, r);
      all := all + [r];
      i := i + 1;
      assert recs[..i] == recs[..i - 1] + [recs[i - 1]];
    }
    assert recs[..i] == recs;
  }

  lemma KeysOfMore(all: seq<Recording>, r: Recording)
    ensures KeysOf(all + [r]) == KeysOf(all) + [r.keys]
  {}
}
