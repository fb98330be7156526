/** Cutting a corpus of pages into batches, and choosing the pages that fit a budget. */
module Batching {
  import opened Text

  // ---- Greedy batches ----

  /** Total size of pages `i` up to `j`. */
  function Size(sizes: seq<nat>, i: nat, j: nat): nat
    requires i <= j <= |sizes|
  {
    if i == j then 0 else Size(sizes, i, j - 1) + sizes[j - 1]
  }

  /** A batch fits the limit or is a single page. */
  predicate Fits(sizes: seq<nat>, limit: int, i: nat, j: nat)
    requires i <= j <= |sizes|
  {
    j <= i + 1 || Size(sizes, i, j) <= limit
  }

  /** The furthest a batch begun at `i` reaches, knowing that it reaches `e`. */
  function Reach(sizes: seq<nat>, limit: int, i: nat, e: nat): (r: nat)
    requires i <= e <= |sizes|
    ensures e <= r <= |sizes|
    decreases |sizes| - e
  {
    if e < |sizes| && Fits(sizes, limit, i, e + 1) then Reach(sizes, limit, i, e + 1) else e
  }

  /** How many batches the greedy cut makes of the pages from `i` on. */
  function Greedy(sizes: seq<nat>, limit: int, i: nat): nat
    requires i <= |sizes|
    decreases |sizes| - i
  {
    if i == |sizes| then 0 else 1 + Greedy(sizes, limit, Reach(sizes, limit, i, i + 1))
  }

  lemma {:induction false} SizeShrinks(sizes: seq<nat>, h: nat, i: nat, j: nat)
    requires h <= i <= j <= |sizes|
    ensures Size(sizes, i, j) <= Size(sizes, h, j)
  {
    if i < j { SizeShrinks(sizes, h, i, j - 1); }
  }

  lemma {:induction false} SizeGrows(sizes: seq<nat>, i: nat, j: nat, k: nat)
    requires i <= j <= k <= |sizes|
    ensures Size(sizes, i, j) <= Size(sizes, i, k)
  {
    if j < k { SizeGrows(sizes, i, j, k - 1); }
  }

  /** A batch that fits stops no later than where the greedy one stops. */
  lemma {:induction false} ReachFurthest(sizes: seq<nat>, limit: int, i: nat, e: nat, j: nat)
    requires i <= e <= j <= |sizes| && Fits(sizes, limit, i, j)
    ensures j <= Reach(sizes, limit, i, e)
    decreases |sizes| - e
  {
    if e < j {
      SizeGrows(sizes, i, e + 1, j);
      ReachFurthest(sizes, limit, i, e + 1, j);
    }
  }

  lemma {:induction false} ReachFits(sizes: seq<nat>, limit: int, i: nat, e: nat)
    requires i <= e <= |sizes| && Fits(sizes, limit, i, e)
    ensures Fits(sizes, limit, i, Reach(sizes, limit, i, e))
    decreases |sizes| - e
  {
    if e < |sizes| && Fits(sizes, limit, i, e + 1) { ReachFits(sizes, limit, i, e + 1); }
  }

  /** Starting later never takes more batches: greedy stays ahead. */
  lemma {:induction false} StaysAhead(sizes: seq<nat>, limit: int, i: nat, j: nat)
    requires i <= j <= |sizes|
    ensures Greedy(sizes, limit, j) <= Greedy(sizes, limit, i)
    decreases |sizes| - i
  {
    if i < |sizes| && j < |sizes| {
      var e, f := Reach(sizes, limit, i, i + 1), Reach(sizes, limit, j, j + 1);
      if e <= j {
        StaysAhead(sizes, limit, e, j);
      } else {
        ReachFits(sizes, limit, i, i + 1);
        SizeShrinks(sizes, i, j, e);
        ReachFurthest(sizes, limit, j, j + 1, e);
        StaysAhead(sizes, limit, e, f);
      }
    }
  }

  function Flat<T>(batches: seq<seq<T>>): seq<T> { if batches == [] then [] else batches[0] + Flat(batches[1..]) }

  lemma {:induction false} FlatAppend<T>(batches: seq<seq<T>>, b: seq<T>)
    ensures Flat(batches + [b]) == Flat(batches) + b
  {
    if batches == [] {
      assert Flat([b]) == b + Flat([]);
    } else {
      assert (batches + [b])[1..] == batches[1..] + [b];
      FlatAppend(batches[1..], b);
    }
  }

  function Sizes<T>(pages: seq<T>, size: T -> nat): seq<nat> { seq(|pages|, i requires 0 <= i < |pages| => size(pages[i])) }

  /** The batches keep the pages in order, and each fits the limit or is a single page. */
  ghost predicate Cuts<T>(batches: seq<seq<T>>, pages: seq<T>, size: T -> nat, limit: int) {
    Flat(batches) == pages && forall b | b in batches :: Fits(Sizes(b, size), limit, 0, |b|)
  }

  lemma {:induction false} SizeOfSlice<T>(pages: seq<T>, size: T -> nat, i: nat, j: nat)
    requires i <= j <= |pages|
    ensures Size(Sizes(pages[i..j], size), 0, j - i) == Size(Sizes(pages, size), i, j)
  {
    if i < j {
      SizeOfSlice(pages, size, i, j - 1);
      SizeOfPrefix(Sizes(pages[i..j], size), Sizes(pages[i..j - 1], size), j - i - 1);
    }
  }

  lemma {:induction false} SizeOfPrefix(a: seq<nat>, b: seq<nat>, n: nat)
    requires n <= |a| && n <= |b| && forall i | 0 <= i < n :: a[i] == b[i]
    ensures Size(a, 0, n) == Size(b, 0, n)
  {
    if n > 0 { SizeOfPrefix(a, b, n - 1); }
  }

  /** No cut of the pages from `i` on makes fewer batches than the greedy one. */
  lemma {:induction false} GreedyIsLeast<T>(pages: seq<T>, size: T -> nat, limit: int, i: nat, batches: seq<seq<T>>)
    requires i <= |pages| && Cuts(batches, pages[i..], size, limit)
    ensures Greedy(Sizes(pages, size), limit, i) <= |batches|
    decreases |batches|
  {
    if batches != [] {
      var b, sizes := batches[0], Sizes(pages, size);
      var e := i + |b|;
      assert pages[i..] == b + Flat(batches[1..]);
      assert b == pages[i..e] && Flat(batches[1..]) == pages[e..];
      GreedyIsLeast(pages, size, limit, e, batches[1..]);
      SizeOfSlice(pages, size, i, e);
      if i < |pages| {
        if e > i { ReachFurthest(sizes, limit, i, i + 1, e); }
        StaysAhead(sizes, limit, e, Reach(sizes, limit, i, i + 1));
      }
    }
  }

  /** A batch from `b` to `i` may be closed: no further page fits. */
  predicate Full(sizes: seq<nat>, limit: int, b: nat, i: nat) {
    b < i <= |sizes| && Fits(sizes, limit, b, i) && (i < |sizes| ==> Size(sizes, b, i + 1) > limit)
  }

  lemma FullIsReach(sizes: seq<nat>, limit: int, b: nat, i: nat)
    requires Full(sizes, limit, b, i)
    ensures Greedy(sizes, limit, b) == 1 + Greedy(sizes, limit, i)
  {
    ReachFurthest(sizes, limit, b, b + 1, i);
    var r := Reach(sizes, limit, b, b + 1);
    ReachFits(sizes, limit, b, b + 1);
    if i < r { SizeGrows(sizes, b, i + 1, r); }
  }

  lemma CutsMore<T>(pages: seq<T>, size: T -> nat, limit: int, out: seq<seq<T>>, b: nat, i: nat)
    requires b <= i <= |pages| && Fits(Sizes(pages, size), limit, b, i) && Cuts(out, pages[..b], size, limit)
    ensures Cuts(out + [pages[b..i]], pages[..i], size, limit)
  {
    FlatAppend(out, pages[b..i]);
    SizeOfSlice(pages, size, b, i);
    hide Size;
    assert pages[..b] + pages[b..i] == pages[..i];
  }

  /** The pages before `b` are cut as the greedy cut does. */
  ghost predicate Progress<T>(pages: seq<T>, size: T -> nat, limit: int, out: seq<seq<T>>, b: nat) {
    && b <= |pages| && Cuts(out, pages[..b], size, limit) && (forall x | x in out :: x != [])
    && |out| + Greedy(Sizes(pages, size), limit, b) == Greedy(Sizes(pages, size), limit, 0)
  }

  lemma NextBatch<T>(pages: seq<T>, size: T -> nat, limit: int, out: seq<seq<T>>, b: nat, i: nat)
    requires Progress(pages, size, limit, out, b) && Full(Sizes(pages, size), limit, b, i)
    ensures Progress(pages, size, limit, out + [pages[b..i]], i)
  {
    hide Cuts, Greedy;
    FullIsReach(Sizes(pages, size), limit, b, i);
    CutsMore(pages, size, limit, out, b, i);
  }

  lemma NoBatchYet<T>(pages: seq<T>, size: T -> nat, limit: int)
    ensures Progress(pages, size, limit, [], 0)
  {}

  /** Batches in one pass, the fewest that any cut of that shape makes. */
  method BatchPages<T>(pages: seq<T>, size: T -> nat, limit: int) returns (out: seq<seq<T>>)
    ensures Cuts(out, pages, size, limit) && forall b | b in out :: b != []
    ensures forall other | Cuts(other, pages, size, limit) :: |out| <= |other|
  {
    ghost var sizes, b := Sizes(pages, size), 0;
    NoBatchYet(pages, size, limit);
    hide Progress, Cuts;
    out := [];
    var cur: seq<T> := [];
    var used := 0;
    var i := 0;
    while i < |pages|
      invariant 0 <= b <= i <= |pages| && cur == pages[b..i] && used == Size(sizes, b, i)
      invariant Fits(sizes, limit, b, i) && Progress(pages, size, limit, out, b)
    {
      var n := size(pages[i]);
      if |cur| > 0 && used + n > limit {
        NextBatch(pages, size, limit, out, b, i);
        out := out + [cur];
        cur, used, b := [], 0, i;
      }
      cur := cur + [pages[i]];
      used := used + n;
      i := i + 1;
    }
    if |cur| > 0 {
      NextBatch(pages, size, limit, out, b, i);
      out := out + [cur];
    }
    Done(pages, size, limit, out);
  }

  lemma Done<T>(pages: seq<T>, size: T -> nat, limit: int, out: seq<seq<T>>)
    requires Progress(pages, size, limit, out, |pages|)
    ensures Cuts(out, pages, size, limit) && forall b | b in out :: b != []
    ensures forall other | Cuts(other, pages, size, limit) :: |out| <= |other|
  {
    assert pages[..|pages|] == pages;
    Fewest(pages, size, limit, |out|);
  }

  lemma Fewest<T>(pages: seq<T>, size: T -> nat, limit: int, n: nat)
    requires n == Greedy(Sizes(pages, size), limit, 0)
    ensures forall other | Cuts(other, pages, size, limit) :: n <= |other|
  {
    hide Cuts;
    assert pages[0..] == pages;
    forall other | Cuts(other, pages, size, limit) ensures n <= |other| { GreedyIsLeast(pages, size, limit, 0, other); }
  }

  // ---- Choosing pages under a budget ----

  datatype Page = Page(size: nat, name: string)

  type Groups = seq<seq<Page>>

  datatype Slot = Slot(group: nat, at: nat)

  predicate InGroups(groups: Groups, s: Slot) { s.group < |groups| && s.at < |groups[s.group]| }

  function PageAt(groups: Groups, s: Slot): Page
    requires InGroups(groups, s)
  {
    groups[s.group][s.at]
  }

  predicate AllIn(groups: Groups, order: seq<Slot>) { forall i | 0 <= i < |order| :: InGroups(groups, order[i]) }

  function Used(groups: Groups, order: seq<Slot>): nat
    requires AllIn(groups, order)
  {
    if order == [] then 0 else Used(groups, Front(order)) + PageAt(groups, Last(order)).size
  }

  /** `int(float64(budget) * share)`: towards zero. */
  function Reserve(budget: int, shares: seq<real>, g: nat): int {
    if g >= |shares| then budget
    else
      var r := budget as real * shares[g];
      if r >= 0.0 then r.Floor else -((-r).Floor)
  }

  function SumReserves(budget: int, shares: seq<real>, n: nat): int {
    if n == 0 then 0 else SumReserves(budget, shares, n - 1) + Reserve(budget, shares, n - 1)
  }

  function PrefixSize(pages: seq<Page>, n: nat): nat
    requires n <= |pages|
  {
    if n == 0 then 0 else PrefixSize(pages, n - 1) + pages[n - 1].size
  }

  /** The pages taken so far, each once, within the budget. */
  ghost predicate Within(groups: Groups, budget: int, order: seq<Slot>, used: int) {
    && AllIn(groups, order) && used == Used(groups, order) && (order == [] || used <= budget)
    && forall i, j | 0 <= i < j < |order| :: order[i] != order[j]
  }

  lemma TakeOne(groups: Groups, budget: int, order: seq<Slot>, used: int, s: Slot)
    requires Within(groups, budget, order, used) && InGroups(groups, s) && s !in order && used + PageAt(groups, s).size <= budget
    ensures Within(groups, budget, order + [s], used + PageAt(groups, s).size)
  {}

  /** Every group's share is honoured: the pages at its head that fit its reserve are taken. */
  ghost predicate Honours(groups: Groups, budget: int, shares: seq<real>, n: nat, order: seq<Slot>)
    requires n <= |groups|
  {
    forall g, i | 0 <= g < n && 0 <= i < |groups[g]| && PrefixSize(groups[g], i + 1) <= Reserve(budget, shares, g) ::
      Slot(g, i) in order
  }

  /** The reserves of the first groups are not negative and leave the budget enough. */
  ghost predicate SharesFit(groups: Groups, budget: int, shares: seq<real>) {
    (forall g | 0 <= g < |groups| :: Reserve(budget, shares, g) >= 0)
    && forall n | 0 <= n <= |groups| :: SumReserves(budget, shares, n) <= budget
  }

  /** What a share comes to, exactly. */
  function PartOf(budget: int, share: real): real { budget as real * share }

  /** A reserve is the whole number next to the share's part of the budget, on the side of zero;
      a group without a share has the whole budget. */
  lemma ReserveIs(budget: int, shares: seq<real>, g: nat)
    ensures g >= |shares| ==> Reserve(budget, shares, g) == budget
    ensures g < |shares| ==>
              var exact, r := PartOf(budget, shares[g]), Reserve(budget, shares, g) as real;
              if exact >= 0.0 then r <= exact < r + 1.0 else r - 1.0 < exact <= r
  {}

  function SumShares(shares: seq<real>, n: nat): real
    requires n <= |shares|
  {
    if n == 0 then 0.0 else SumShares(shares, n - 1) + shares[n - 1]
  }

  predicate AllPositive(shares: seq<real>) { forall g | 0 <= g < |shares| :: shares[g] >= 0.0 }

  lemma PartsAdd(budget: nat, x: real, y: real)
    ensures PartOf(budget, 0.0) == 0.0 && PartOf(budget, x + y) == PartOf(budget, x) + PartOf(budget, y)
  {}

  lemma PartWithin(budget: nat, x: real)
    requires x >= 0.0
    ensures PartOf(budget, x) >= 0.0 && (x <= 1.0 ==> PartOf(budget, x) <= budget as real)
  {}

  lemma {:induction false} ReservesUnderShares(budget: nat, shares: seq<real>, n: nat)
    requires n <= |shares| && AllPositive(shares)
    ensures SumReserves(budget, shares, n) as real <= PartOf(budget, SumShares(shares, n))
  {
    hide PartOf, Reserve;
    if n > 0 {
      ReservesUnderShares(budget, shares, n - 1);
      ReserveIs(budget, shares, n - 1);
      PartWithin(budget, shares[n - 1]);
      PartsAdd(budget, SumShares(shares, n - 1), shares[n - 1]);
    } else {
      PartsAdd(budget, 0.0, 0.0);
    }
  }

  lemma {:induction false} SharesGrow(shares: seq<real>, m: nat, n: nat)
    requires m <= n <= |shares| && AllPositive(shares)
    ensures 0.0 <= SumShares(shares, m) <= SumShares(shares, n)
  {
    if m < n { SharesGrow(shares, m, n - 1); }
    else if m > 0 { SharesGrow(shares, m - 1, m - 1); }
  }

  lemma WholeFits(budget: nat, shares: seq<real>, n: nat)
    requires n <= |shares| && AllPositive(shares) && SumShares(shares, |shares|) <= 1.0
    ensures SumReserves(budget, shares, n) <= budget
  {
    hide *;
    ReservesUnderShares(budget, shares, n);
    SharesGrow(shares, n, |shares|);
    PartWithin(budget, SumShares(shares, n));
  }

  lemma PositiveReserve(budget: nat, shares: seq<real>, k: nat)
    requires k < |shares| && AllPositive(shares)
    ensures Reserve(budget, shares, k) >= 0
  {
    hide Reserve, PartOf;
    PartWithin(budget, shares[k]);
    ReserveIs(budget, shares, k);
  }

  /** Shares of at most the whole, one for each group, fit every budget; then each group has all
      the pages at its head whose size in all is within its part of the budget. */
  lemma SharesHonoured(groups: Groups, budget: nat, shares: seq<real>, order: seq<Slot>, g: nat, i: nat)
    requires |groups| == |shares| && SumShares(shares, |shares|) <= 1.0 && AllPositive(shares)
    requires SharesFit(groups, budget, shares) ==> Honours(groups, budget, shares, |groups|, order)
    requires g < |groups| && i < |groups[g]| && PrefixSize(groups[g], i + 1) as real <= PartOf(budget, shares[g])
    ensures SharesFit(groups, budget, shares) && Slot(g, i) in order
  {
    hide Reserve, PrefixSize, PartOf, SumShares, SumReserves;
    forall k | 0 <= k < |groups| ensures Reserve(budget, shares, k) >= 0 { PositiveReserve(budget, shares, k); }
    forall n | 0 <= n <= |groups| ensures SumReserves(budget, shares, n) <= budget { WholeFits(budget, shares, n); }
    PartWithin(budget, shares[g]);
    ReserveIs(budget, shares, g);
  }

  lemma {:induction false} PrefixGrows(pages: seq<Page>, m: nat, n: nat)
    requires m <= n <= |pages|
    ensures PrefixSize(pages, m) <= PrefixSize(pages, n)
  {
    if m < n { PrefixGrows(pages, m, n - 1); }
  }

  /** The first `n` pages of a group were taken, and why no more: the group's reserve or the budget
      would not do for the next. */
  ghost predicate HeadTaken(groups: Groups, budget: int, reserve: int, g: nat, used: int, n: nat)
    requires g < |groups|
  {
    && n <= |groups[g]| && (n > 0 ==> PrefixSize(groups[g], n) <= reserve)
    && (n < |groups[g]| ==> PrefixSize(groups[g], n + 1) > reserve || used + groups[g][n].size > budget)
  }

  /** Page `i` and those before it are within the reserve. */
  predicate InReserve(pages: seq<Page>, reserve: int, i: nat)
    requires i < |pages|
  {
    PrefixSize(pages, i + 1) <= reserve
  }

  function Head(g: nat, n: nat): seq<Slot> { seq(n, i requires 0 <= i < n => Slot(g, i)) }

  /** One group in the first pass: its head, while its reserve and the budget last. */
  method TakeHead(groups: Groups, budget: int, shares: seq<real>, g: nat, order: seq<Slot>, used: int)
    returns (order': seq<Slot>, used': int, n: nat)
    requires g < |groups| && Within(groups, budget, order, used) && forall s | s in order :: s.group < g
    ensures Within(groups, budget, order', used') && order' == order + Head(g, n)
    ensures HeadTaken(groups, budget, Reserve(budget, shares, g), g, used', n)
    ensures SharesFit(groups, budget, shares) && used <= SumReserves(budget, shares, g) ==>
              used' <= SumReserves(budget, shares, g + 1)
              && forall i: nat | i < |groups[g]| && InReserve(groups[g], Reserve(budget, shares, g), i) :: i < n
  {
    hide Within, Reserve;
    var reserve := Reserve(budget, shares, g);
    var spent := 0;
    order', used', n := order, used, 0;
    assert order + Head(g, 0) == order;
    while n < |groups[g]|
      invariant 0 <= n <= |groups[g]| && Within(groups, budget, order', used') && order' == order + Head(g, n)
      invariant spent == PrefixSize(groups[g], n) && used' == used + spent && (spent <= reserve || n == 0)
    {
      var p := groups[g][n];
      if spent + p.size > reserve || used' + p.size > budget {
        forall k: nat | k < |groups[g]| && InReserve(groups[g], reserve, k)
          ensures SharesFit(groups, budget, shares) && used <= SumReserves(budget, shares, g) ==> k < n
        {
          if k >= n {
            PrefixGrows(groups[g], n + 1, k + 1);
            assert spent + p.size <= reserve;
            assert SharesFit(groups, budget, shares) ==> SumReserves(budget, shares, g + 1) <= budget;
          }
        }
        return;
      }
      assert Slot(g, n) !in order';
      TakeOne(groups, budget, order', used', Slot(g, n));
      assert Head(g, n + 1) == Head(g, n) + [Slot(g, n)];
      order' := order' + [Slot(g, n)];
      spent := spent + p.size;
      used' := used' + p.size;
      n := n + 1;
    }
  }

  /** Group by group, then page by page. */
  predicate Earlier(s: Slot, t: Slot) { s.group < t.group || (s.group == t.group && s.at < t.at) }

  ghost predicate Ascending(order: seq<Slot>) { forall i, j | 0 <= i < j < |order| :: Earlier(order[i], order[j]) }

  /** When its turn came, after the first `k` of the order, the page did not fit any more. */
  ghost predicate PassedOver(groups: Groups, budget: int, order: seq<Slot>, h: nat, s: Slot, k: nat)
    requires AllIn(groups, order) && InGroups(groups, s)
  {
    && h <= k <= |order| && (forall i | h <= i < k :: Earlier(order[i], s)) && (forall i | k <= i < |order| :: Earlier(s, order[i]))
    && Used(groups, order[..k]) + PageAt(groups, s).size > budget
  }

  /** The second pass up to page `i` of group `g`: in order after the heads, whatever fits in turn. */
  ghost predicate RestTaken(groups: Groups, budget: int, order: seq<Slot>, h: nat, g: nat, i: nat) {
    && AllIn(groups, order) && h <= |order| && Ascending(order[h..])
    && (forall j | h <= j < |order| :: Earlier(order[j], Slot(g, i)))
    && forall s | InGroups(groups, s) && s !in order && Earlier(s, Slot(g, i)) :: exists k: nat :: PassedOver(groups, budget, order, h, s, k)
  }

  lemma RestTakes(groups: Groups, budget: int, order: seq<Slot>, h: nat, s: Slot)
    requires RestTaken(groups, budget, order, h, s.group, s.at) && InGroups(groups, s)
    ensures RestTaken(groups, budget, order + [s], h, s.group, s.at + 1)
  {
    var more := order + [s];
    hide Used;
    assert forall j | 0 <= j < |order| :: more[j] == order[j];
    assert more[h..] == order[h..] + [s];
    forall j | h <= j < |order| ensures order[h..][j - h] == order[j] {}
    forall x | InGroups(groups, x) && x !in more && Earlier(x, Slot(s.group, s.at + 1)) ensures exists k: nat :: PassedOver(groups, budget, more, h, x, k) {
      assert more[|order|] == s && x != s && x !in order;
      var k: nat :| PassedOver(groups, budget, order, h, x, k);
      assert more[..k] == order[..k];
      assert PassedOver(groups, budget, more, h, x, k);
    }
  }

  lemma RestPasses(groups: Groups, budget: int, order: seq<Slot>, h: nat, s: Slot)
    requires RestTaken(groups, budget, order, h, s.group, s.at) && InGroups(groups, s)
    requires s in order || Used(groups, order) + PageAt(groups, s).size > budget
    ensures RestTaken(groups, budget, order, h, s.group, s.at + 1)
  {
    hide Used;
    forall x | InGroups(groups, x) && x !in order && Earlier(x, Slot(s.group, s.at + 1)) ensures exists k: nat :: PassedOver(groups, budget, order, h, x, k) {
      if x == s {
        assert order[..|order|] == order;
        assert PassedOver(groups, budget, order, h, x, |order|);
      }
    }
  }

  lemma NextGroup(groups: Groups, budget: int, order: seq<Slot>, h: nat, g: nat)
    requires g < |groups| && RestTaken(groups, budget, order, h, g, |groups[g]|)
    ensures RestTaken(groups, budget, order, h, g + 1, 0)
  {
    hide Used, PassedOver;
    forall x | InGroups(groups, x) && x !in order && Earlier(x, Slot(g + 1, 0)) ensures exists k: nat :: PassedOver(groups, budget, order, h, x, k) {
      assert Earlier(x, Slot(g, |groups[g]|));
    }
  }

  /** One group in the second pass: whatever still fits, in turn. */
  method TakeRest(groups: Groups, budget: int, g: nat, order: seq<Slot>, used: int, ghost h: nat) returns (order': seq<Slot>, used': int)
    requires g < |groups| && Within(groups, budget, order, used) && RestTaken(groups, budget, order, h, g, 0)
    ensures Within(groups, budget, order', used') && order <= order'
    ensures RestTaken(groups, budget, order', h, g + 1, 0)
  {
    order', used' := order, used;
    var i := 0;
    hide RestTaken, Used;
    while i < |groups[g]|
      invariant 0 <= i <= |groups[g]| && Within(groups, budget, order', used') && order <= order'
      invariant RestTaken(groups, budget, order', h, g, i)
    {
      var s := Slot(g, i);
      if s !in order' && used' + groups[g][i].size <= budget {
        TakeOne(groups, budget, order', used', s);
        RestTakes(groups, budget, order', h, s);
        hide Within;
        order' := order' + [s];
        used' := used' + groups[g][i].size;
      } else {
        RestPasses(groups, budget, order', h, s);
      }
      i := i + 1;
    }
    NextGroup(groups, budget, order', h, g);
  }

  function PagesOf(groups: Groups, order: seq<Slot>): seq<Page>
    requires AllIn(groups, order)
  {
    seq(|order|, i requires 0 <= i < |order| => PageAt(groups, order[i]))
  }

  /** The names of a group's first pages that were not taken. */
  function LeftIn(pages: seq<Page>, g: nat, order: seq<Slot>, n: nat): seq<string>
    requires n <= |pages|
  {
    if n == 0 then []
    else LeftIn(pages, g, order, n - 1) + if Slot(g, n - 1) in order then [] else [pages[n - 1].name]
  }

  function Left(groups: Groups, order: seq<Slot>, n: nat): seq<string>
    requires n <= |groups|
  {
    if n == 0 then [] else Left(groups, order, n - 1) + LeftIn(groups[n - 1], n - 1, order, |groups[n - 1]|)
  }

  /** These are the pages of the first groups, and of the next one's first `n`, that were not
      taken, in their order. */
  ghost predicate LeftOut(groups: Groups, order: seq<Slot>, g: nat, n: nat, slots: seq<Slot>)
    requires g < |groups| ==> n <= |groups[g]|
  {
    && Ascending(slots) && AllIn(groups, slots)
    && forall s | InGroups(groups, s) :: s in slots <==> s !in order && (s.group < g || (s.group == g && s.at < n))
  }

  function NamesOf(groups: Groups, slots: seq<Slot>): seq<string>
    requires AllIn(groups, slots)
  {
    seq(|slots|, i requires 0 <= i < |slots| => PageAt(groups, slots[i]).name)
  }

  lemma OneMoreLeft(groups: Groups, order: seq<Slot>, g: nat, n: nat, slots: seq<Slot>)
    requires g < |groups| && n < |groups[g]| && LeftOut(groups, order, g, n, slots)
    ensures var more := if Slot(g, n) in order then [] else [Slot(g, n)];
            LeftOut(groups, order, g, n + 1, slots + more)
            && NamesOf(groups, slots + more) == NamesOf(groups, slots) + if Slot(g, n) in order then [] else [groups[g][n].name]
  {
    var more := if Slot(g, n) in order then [] else [Slot(g, n)];
    forall s | s in slots ensures Earlier(s, Slot(g, n)) { assert InGroups(groups, s); }
    forall s | InGroups(groups, s)
      ensures s in slots + more <==> s !in order && (s.group < g || (s.group == g && s.at < n + 1))
    {
      assert s.group == g && s.at == n ==> s == Slot(g, n);
    }
  }

  lemma {:induction false} LeftInIs(groups: Groups, order: seq<Slot>, g: nat, n: nat, slots: seq<Slot>) returns (all: seq<Slot>)
    requires g < |groups| && n <= |groups[g]| && LeftOut(groups, order, g, 0, slots)
    ensures LeftOut(groups, order, g, n, all)
    ensures NamesOf(groups, all) == NamesOf(groups, slots) + LeftIn(groups[g], g, order, n)
  {
    all := slots;
    if n > 0 {
      hide LeftOut, Ascending, NamesOf;
      var before := LeftInIs(groups, order, g, n - 1, slots);
      LeftOutIn(groups, order, g, n - 1, before);
      OneMoreLeft(groups, order, g, n - 1, before);
      all := before + if Slot(g, n - 1) in order then [] else [Slot(g, n - 1)];
      Regroup(NamesOf(groups, slots), LeftIn(groups[g], g, order, n - 1),
              if Slot(g, n - 1) in order then [] else [groups[g][n - 1].name]);
    } else {
      assert NamesOf(groups, slots) + [] == NamesOf(groups, slots);
    }
  }

  lemma Regroup(a: seq<string>, b: seq<string>, c: seq<string>)
    ensures a + b + c == a + (b + c)
  {}

  lemma LeftOutIn(groups: Groups, order: seq<Slot>, g: nat, n: nat, slots: seq<Slot>)
    requires (g < |groups| ==> n <= |groups[g]|) && LeftOut(groups, order, g, n, slots)
    ensures AllIn(groups, slots)
  {}

  /** A group through to its end is the next one at its beginning. */
  lemma NextLeft(groups: Groups, order: seq<Slot>, g: nat, slots: seq<Slot>)
    requires g < |groups| && LeftOut(groups, order, g, |groups[g]|, slots)
    ensures LeftOut(groups, order, g + 1, 0, slots)
  {}

  /** The names given as skipped are those of exactly the pages that were not taken, in order. */
  lemma {:induction false} LeftIs(groups: Groups, order: seq<Slot>, g: nat) returns (slots: seq<Slot>)
    requires g <= |groups|
    ensures LeftOut(groups, order, g, 0, slots) && NamesOf(groups, slots) == Left(groups, order, g)
  {
    slots := [];
    if g > 0 {
      slots := LeftIs(groups, order, g - 1);
      slots := LeftInIs(groups, order, g - 1, |groups[g - 1]|, slots);
      NextLeft(groups, order, g - 1, slots);
    }
  }

  method NamesLeft(groups: Groups, order: seq<Slot>) returns (skipped: seq<string>)
    ensures skipped == Left(groups, order, |groups|)
  {
    skipped := [];
    for g := 0 to |groups|
      invariant skipped == Left(groups, order, g)
    {
      for i := 0 to |groups[g]|
        invariant skipped == Left(groups, order, g) + LeftIn(groups[g], g, order, i)
      {
        if Slot(g, i) !in order { skipped := skipped + [groups[g][i].name]; }
      }
    }
  }

  /** How many pages of the first groups were taken at their heads. */
  function Heads(ns: seq<nat>): seq<Slot> { if ns == [] then [] else Heads(Front(ns)) + Head(|ns| - 1, Last(ns)) }

  /** The heads of the first groups: as many of each as its reserve and the budget did for. */
  ghost predicate HeadsTaken(groups: Groups, budget: int, shares: seq<real>, ns: seq<nat>)
    requires |ns| <= |groups|
  {
    ns == []
    || (HeadsTaken(groups, budget, shares, Front(ns)) && AllIn(groups, Heads(ns))
        && HeadTaken(groups, budget, Reserve(budget, shares, |ns| - 1), |ns| - 1, Used(groups, Heads(ns)), Last(ns)))
  }

  /** Of each of the first groups all that is within its reserve. */
  ghost predicate AllInReserve(groups: Groups, budget: int, shares: seq<real>, n: nat, ns: seq<nat>)
    requires n <= |groups| && n <= |ns|
  {
    forall g: nat, i: nat | g < n && i < |groups[g]| && InReserve(groups[g], Reserve(budget, shares, g), i) :: i < ns[g]
  }

  lemma HeadsMore(groups: Groups, budget: int, shares: seq<real>, ns: seq<nat>, n: nat)
    requires |ns| < |groups| && HeadsTaken(groups, budget, shares, ns) && AllIn(groups, Heads(ns) + Head(|ns|, n))
    requires HeadTaken(groups, budget, Reserve(budget, shares, |ns|), |ns|, Used(groups, Heads(ns) + Head(|ns|, n)), n)
    ensures HeadsTaken(groups, budget, shares, ns + [n]) && Heads(ns + [n]) == Heads(ns) + Head(|ns|, n)
  {
    hide Reserve, Used, HeadTaken;
    assert Front(ns + [n]) == ns;
  }

  lemma {:induction false} HeadsHold(ns: seq<nat>, s: Slot)
    ensures s in Heads(ns) <==> s.group < |ns| && s.at < ns[s.group]
  {
    if ns != [] {
      HeadsHold(Front(ns), s);
      var h := Head(|ns| - 1, Last(ns));
      assert s in h <==> s.group == |ns| - 1 && s.at < Last(ns) by {
        if s.group == |ns| - 1 && s.at < Last(ns) { assert h[s.at] == s; }
      }
    }
  }

  /** Every page is chosen once or skipped. First each group has the pages at its head, while its
      reserve and the budget last; then the others have their turn in order, and one is passed
      over only if it does not fit. What is chosen keeps to the budget, nothing skipped would still
      fit, and every group has its share if the shares fit the budget. */
  method PlanCorpus(groups: Groups, budget: int, shares: seq<real>)
    returns (chosen: seq<Page>, skipped: seq<string>, order: seq<Slot>, ghost ns: seq<nat>)
    ensures AllIn(groups, order) && chosen == PagesOf(groups, order) && skipped == Left(groups, order, |groups|)
    ensures forall i, j | 0 <= i < j < |order| :: order[i] != order[j]
    ensures order == [] || Used(groups, order) <= budget
    ensures |ns| == |groups| && HeadsTaken(groups, budget, shares, ns) && Heads(ns) <= order && Ascending(order[|Heads(ns)|..])
    ensures forall s | InGroups(groups, s) && s !in order :: exists k: nat :: PassedOver(groups, budget, order, |Heads(ns)|, s, k)
    ensures forall s | InGroups(groups, s) && s !in order :: Used(groups, order) + PageAt(groups, s).size > budget
    ensures SharesFit(groups, budget, shares) ==> Honours(groups, budget, shares, |groups|, order)
  {
    var slots, used := [], 0;
    ns := [];
    var g := 0;
    while g < |groups|
      invariant 0 <= g <= |groups| && Within(groups, budget, slots, used) && |ns| == g && slots == Heads(ns)
      invariant HeadsTaken(groups, budget, shares, ns)
      invariant SharesFit(groups, budget, shares) ==>
                  used <= SumReserves(budget, shares, g)
                  && AllInReserve(groups, budget, shares, g, ns)
    {
      hide Reserve, SharesFit, PrefixSize, Used, HeadTaken, HeadsTaken;
      forall s | s in slots ensures s.group < g { HeadsHold(ns, s); }
      var n;
      slots, used, n := TakeHead(groups, budget, shares, g, slots, used);
      HeadsMore(groups, budget, shares, ns, n);
      ns := ns + [n];
      g := g + 1;
    }
    ghost var h := |slots|;
    g := 0;
    assert slots[h..] == [];
    while g < |groups|
      invariant 0 <= g <= |groups| && Within(groups, budget, slots, used) && Heads(ns) <= slots
      invariant RestTaken(groups, budget, slots, h, g, 0)
    {
      hide Within, RestTaken, Heads;
      slots, used := TakeRest(groups, budget, g, slots, used, h);
      g := g + 1;
    }
    order := slots;
    chosen := PagesOf(groups, slots);
    skipped := NamesLeft(groups, slots);
    PlanEnds(groups, budget, order, h);
    HonoursHeads(groups, budget, shares, order, ns);
  }

  lemma {:induction false} UsedMore(groups: Groups, order: seq<Slot>, k: nat)
    requires AllIn(groups, order) && k <= |order|
    ensures Used(groups, order[..k]) <= Used(groups, order)
  {
    if k == |order| {
      assert order[..k] == order;
    } else {
      UsedMore(groups, Front(order), k);
      assert Front(order)[..k] == order[..k];
    }
  }

  lemma PlanEnds(groups: Groups, budget: int, order: seq<Slot>, h: nat)
    requires RestTaken(groups, budget, order, h, |groups|, 0)
    ensures forall s | InGroups(groups, s) && s !in order :: exists k: nat :: PassedOver(groups, budget, order, h, s, k)
    ensures forall s | InGroups(groups, s) && s !in order :: Used(groups, order) + PageAt(groups, s).size > budget
  {
    hide Used;
    forall s | InGroups(groups, s) && s !in order
      ensures exists k: nat :: PassedOver(groups, budget, order, h, s, k)
      ensures Used(groups, order) + PageAt(groups, s).size > budget
    {
      assert Earlier(s, Slot(|groups|, 0));
      var k: nat :| PassedOver(groups, budget, order, h, s, k);
      UsedMore(groups, order, k);
    }
  }

  lemma HonoursHeads(groups: Groups, budget: int, shares: seq<real>, order: seq<Slot>, ns: seq<nat>)
    requires |ns| == |groups| && Heads(ns) <= order
    requires SharesFit(groups, budget, shares) ==>
               AllInReserve(groups, budget, shares, |groups|, ns)
    ensures SharesFit(groups, budget, shares) ==> Honours(groups, budget, shares, |groups|, order)
  {
    hide Reserve, SharesFit, PrefixSize, Heads;
    if SharesFit(groups, budget, shares) {
      forall g, i | 0 <= g < |groups| && 0 <= i < |groups[g]| && PrefixSize(groups[g], i + 1) <= Reserve(budget, shares, g)
        ensures Slot(g, i) in order
      {
        assert InReserve(groups[g], Reserve(budget, shares, g), i);
        HeadsHold(ns, Slot(g, i));
        assert Slot(g, i) in Heads(ns);
      }
    }
  }
}
