/** The order of names: Go sorts strings by bytes, which is by code points. */
module Names {
  import opened Utf16

  predicate Less(a: string, b: string) { LexLess(Scalars(a), Scalars(b)) }

  lemma LessStrictTotal(a: string, b: string, c: string)
    ensures !Less(a, a)
    ensures Less(a, b) && Less(b, c) ==> Less(a, c)
    ensures Less(a, b) || Less(b, a) || a == b
  {
    LexIrreflexive(Scalars(a));
    if Less(a, b) && Less(b, c) { LexTransitive(Scalars(a), Scalars(b), Scalars(c)); }
    LexTotal(Scalars(a), Scalars(b));
    if Scalars(a) == Scalars(b) {
      assert |a| == |Scalars(a)| == |b|;
      forall i | 0 <= i < |a| ensures a[i] == b[i] { assert Scalars(a)[i] == Scalars(b)[i]; }
    }
  }

  /** `a` comes first exactly if it has the smaller character where the two first differ, or
      ends there. */
  lemma LessIs(a: string, b: string)
    ensures Less(a, b) <==>
            exists i: nat | i <= |a| && i <= |b| && a[..i] == b[..i] :: i < |b| && (i < |a| ==> a[i] < b[i])
  {
    LexLessIs(Scalars(a), Scalars(b));
    if i: nat :| i <= |a| && i <= |b| && a[..i] == b[..i] && i < |b| && (i < |a| ==> a[i] < b[i]) {
      ScalarsUpTo(a, b, i);
      assert Precedes(Scalars(a), Scalars(b));
    }
    if i: nat :| i <= |a| && i <= |b| && Scalars(a)[..i] == Scalars(b)[..i] && i < |b| && (i < |a| ==> Scalars(a)[i] < Scalars(b)[i]) {
      ScalarsUpTo(a, b, i);
    }
  }

  lemma ScalarsUpTo(a: string, b: string, i: nat)
    requires i <= |a| && i <= |b|
    ensures Scalars(a)[..i] == Scalars(b)[..i] <==> a[..i] == b[..i]
  {
    forall k | 0 <= k < i
      ensures Scalars(a)[..i][k] == a[..i][k] as int && Scalars(b)[..i][k] == b[..i][k] as int
    {}
  }

  /** The names of a set, each once, in order. */
  ghost predicate Listing(ps: seq<string>, keys: set<string>) {
    && (forall i, j | 0 <= i < j < |ps| :: Less(ps[i], ps[j]))
    && (forall p :: p in ps <==> p in keys)
  }

  /** There is only one such list. */
  lemma {:induction false} ListingUnique(ps: seq<string>, qs: seq<string>, keys: set<string>)
    requires Listing(ps, keys) && Listing(qs, keys)
    ensures ps == qs
    decreases |ps|
  {
    hide Less;
    EmptyListing(ps, keys);
    EmptyListing(qs, keys);
    if ps != [] && qs != [] {
      SameFirst(ps, qs, keys);
      ListingRest(ps, keys);
      ListingRest(qs, keys);
      ListingUnique(ps[1..], qs[1..], keys - {ps[0]});
      assert ps == [ps[0]] + ps[1..] && qs == [qs[0]] + qs[1..];
    }
  }

  lemma EmptyListing(ps: seq<string>, keys: set<string>)
    requires Listing(ps, keys)
    ensures ps == [] <==> keys == {}
  {
    hide Less;
    assert ps != [] ==> ps[0] in ps;
    assert keys != {} ==> exists k :: k in keys && k in ps;
  }

  lemma SameFirst(ps: seq<string>, qs: seq<string>, keys: set<string>)
    requires Listing(ps, keys) && Listing(qs, keys) && ps != [] && qs != []
    ensures ps[0] == qs[0]
  {
    hide Less;
    assert ps[0] in ps && qs[0] in qs && ps[0] in qs && qs[0] in ps;
    var i :| 0 <= i < |qs| && qs[i] == ps[0];
    var j :| 0 <= j < |ps| && ps[j] == qs[0];
    LessStrictTotal(ps[0], qs[0], ps[0]);
  }

  lemma ListingRest(ps: seq<string>, keys: set<string>)
    requires Listing(ps, keys) && ps != []
    ensures Listing(ps[1..], keys - {ps[0]})
  {
    hide Less;
    forall p ensures p in ps[1..] <==> p in keys - {ps[0]} {
      assert p in ps <==> p == ps[0] || p in ps[1..];
      LessStrictTotal(ps[0], ps[0], ps[0]);
      assert forall i | 1 <= i < |ps| :: Less(ps[0], ps[i]);
    }
  }

  ghost predicate IsLeast(least: string, keys: set<string>) {
    least in keys && forall p | p in keys && p != least :: Less(least, p)
  }

  lemma {:induction false} LeastExists(keys: set<string>) returns (least: string)
    requires keys != {}
    ensures IsLeast(least, keys)
  {
    hide Less;
    least :| least in keys;
    if keys != {least} {
      var other := LeastExists(keys - {least});
      LessStrictTotal(least, other, least);
      if Less(other, least) {
        least := other;
      } else {
        forall p | p in keys && p != least ensures Less(least, p) { LessStrictTotal(least, other, p); }
      }
    }
  }

  lemma {:induction false} ListingExists(keys: set<string>) returns (ps: seq<string>)
    ensures Listing(ps, keys)
    decreases |keys|
  {
    hide Less;
    if keys == {} {
      ps := [];
    } else {
      var least := LeastExists(keys);
      var rest := ListingExists(keys - {least});
      ps := [least] + rest;
      forall i, j | 0 <= i < j < |ps| ensures Less(ps[i], ps[j]) {
        assert ps[j] == rest[j - 1] && rest[j - 1] in rest;
        if i > 0 { assert ps[i] == rest[i - 1]; }
      }
      assert forall p :: p in ps <==> p == least || p in rest;
    }
  }

  ghost function Sorted(keys: set<string>): (ps: seq<string>)
    ensures Listing(ps, keys)
  {
    assert exists ps :: Listing(ps, keys) by { var ps := ListingExists(keys); }
    var ps :| Listing(ps, keys);
    ps
  }

  /** `sortedKeys`: takes the least of what is left until nothing is. */
  method SortedNames(keys: set<string>) returns (ps: seq<string>)
    ensures ps == Sorted(keys)
  {
    hide Less;
    ps := [];
    var left := keys;
    while left != {}
      invariant left <= keys && Listing(ps, keys - left)
      invariant forall p, q | p in ps && q in left :: Less(p, q)
    {
      var least := Least(left);
      forall p ensures p in ps + [least] <==> p in keys - (left - {least}) {}
      ps := ps + [least];
      left := left - {least};
    }
    assert keys - left == keys;
    ListingUnique(ps, Sorted(keys), keys);
  }

  method Least(keys: set<string>) returns (least: string)
    requires keys != {}
    ensures least in keys && forall p | p in keys && p != least :: Less(least, p)
  {
    hide Less;
    least :| least in keys;
    var left := keys - {least};
    while left != {}
      invariant left <= keys && least in keys && least !in left
      invariant forall p | p in keys && p !in left && p != least :: Less(least, p)
    {
      var p :| p in left;
      left := left - {p};
      LessStrictTotal(p, least, p);
      var earlier := Earlier(p, least);
      if earlier {
        forall q | q in keys && q !in left && q != p ensures Less(p, q) { LessStrictTotal(p, least, q); }
        least := p;
      }
    }
  }

  method Earlier(a: string, b: string) returns (less: bool)
    ensures less == Less(a, b)
  {
    less := CompareBytes(a, b);
  }
}
