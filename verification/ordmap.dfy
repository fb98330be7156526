/** The insertion-ordered map of the importer, its JavaScript key order, and the escaping of
    JSON pointer segments. */
module OrderedMap {
  import opened JsNumber
  import opened Text

  /** The largest array index: 2^32 - 2. */
  const MAX_ARRAY_INDEX: nat := 4294967294

  /** A decimal without leading zero that is an array index. */
  predicate IsArrayIndexKey(key: string) {
    0 < |key| <= 10 && (key == "0" || key[0] != '0') && AllDigits(key) && ToNat(key) <= MAX_ARRAY_INDEX
  }

  /** Go compares digit strings of one length byte by byte. */
  predicate DigitsLess(a: string, b: string)
    requires |a| == |b|
  {
    a != "" && (a[0] < b[0] || (a[0] == b[0] && DigitsLess(a[1..], b[1..])))
  }

  predicate IndexLess(a: string, b: string) { if |a| != |b| then |a| < |b| else DigitsLess(a, b) }

  function Pow10(n: nat): nat { if n == 0 then 1 else 10 * Pow10(n - 1) }

  lemma TenTimes(d: nat, p: nat)
    ensures 10 * (d * p) == d * (10 * p)
  {}

  lemma {:induction false} ToNatFirst(ds: string)
    requires ds != "" && AllDigits(ds)
    ensures ToNat(ds) == DigitValue(ds[0]) * Pow10(|ds| - 1) + ToNat(ds[1..])
  {
    var n := |ds| - 1;
    if n > 0 {
      ToNatFirst(ds[..n]);
      var mid, rest := ds[..n][1..], ds[1..];
      assert mid == rest[..|rest| - 1] && rest[|rest| - 1] == ds[n];
      assert ToNat(rest) == 10 * ToNat(mid) + DigitValue(ds[n]);
      assert ToNat(ds) == 10 * ToNat(ds[..n]) + DigitValue(ds[n]);
      assert Pow10(n) == 10 * Pow10(n - 1);
      hide ToNat, Pow10, DigitValue;
      TenTimes(DigitValue(ds[0]), Pow10(n - 1));
    } else {
      assert ds[..0] == "" && ds[1..] == "";
    }
  }

  lemma {:induction false} ToNatBound(ds: string)
    requires AllDigits(ds)
    ensures ToNat(ds) < Pow10(|ds|)
  {
    if ds != "" { ToNatBound(ds[..|ds| - 1]); }
  }

  lemma {:induction false} DigitsLessIs(a: string, b: string)
    requires |a| == |b| && AllDigits(a) && AllDigits(b)
    ensures DigitsLess(a, b) <==> ToNat(a) < ToNat(b)
  {
    if a != "" {
      var p := Pow10(|a| - 1);
      ToNatFirst(a);
      ToNatFirst(b);
      ToNatBound(a[1..]);
      ToNatBound(b[1..]);
      DigitsLessIs(a[1..], b[1..]);
      var x, y := DigitValue(a[0]), DigitValue(b[0]);
      if x < y { LeadingDigit(x, y, p); }
      if y < x { LeadingDigit(y, x, p); }
    }
  }

  lemma {:induction false} LeadingDigit(x: nat, y: nat, p: nat)
    requires x < y
    ensures x * p + p <= y * p
    decreases y
  {
    assert y * p == (y - 1) * p + p;
    if x < y - 1 { LeadingDigit(x, y - 1, p); }
  }

  lemma LongerIsLarger(a: string, b: string)
    requires IsArrayIndexKey(a) && IsArrayIndexKey(b) && |a| < |b|
    ensures ToNat(a) < ToNat(b)
  {}

  /** On array indexes the text order is the order of the numbers. */
  lemma IndexLessIs(a: string, b: string)
    requires IsArrayIndexKey(a) && IsArrayIndexKey(b)
    ensures IndexLess(a, b) <==> ToNat(a) < ToNat(b)
  {
    if |a| < |b| { LongerIsLarger(a, b); }
    else if |b| < |a| { LongerIsLarger(b, a); }
    else { DigitsLessIs(a, b); }
  }

  lemma ItoaMore(m: nat, d: nat)
    requires m > 0 && d < 10
    ensures Itoa(10 * m + d) == Itoa(m) + [('0' as int + d) as char]
  {}

  lemma DigitText(c: char)
    requires IsDigit(c)
    ensures DigitValue(c) < 10 && [('0' as int + DigitValue(c)) as char] == [c]
  {}

  lemma ToNatMore(ds: string)
    requires ds != ""
    ensures ToNat(ds) == 10 * ToNat(ds[..|ds| - 1]) + DigitValue(ds[|ds| - 1])
  {
    hide DigitValue;
  }

  /** A text without leading zeros is what its number is written as. */
  lemma {:induction false} WrittenBack(ds: string)
    requires ds != "" && AllDigits(ds) && (ds == "0" || ds[0] != '0')
    ensures Itoa(ToNat(ds)) == ds && (ToNat(ds) == 0 <==> ds == "0")
  {
    var n := |ds| - 1;
    ToNatMore(ds);
    assert IsDigit(ds[n]) && AllDigits(ds[..n]);
    DigitText(ds[n]);
    if n > 0 {
      hide Itoa, ToNat, DigitValue, AllDigits, IsDigit;
      assert ds == ds[..n] + [ds[n]];
      WrittenBack(ds[..n]);
      ItoaMore(ToNat(ds[..n]), DigitValue(ds[n]));
    } else {
      assert ds[..0] == "" && ToNat("") == 0;
    }
  }

  lemma {:induction false} ItoaShort(n: nat, k: nat)
    requires n < Pow10(k) && k > 0
    ensures |Itoa(n)| <= k && (Itoa(n) == "0" || Itoa(n)[0] != '0')
  {
    if n >= 10 {
      assert Pow10(k) == 10 * Pow10(k - 1) && Pow10(0) == 1;
      ItoaShort(n / 10, k - 1);
      assert Itoa(n / 10) != "0" by { ToNatItoa(n / 10); }
    }
  }

  lemma TenDigits()
    ensures Pow10(10) == 10_000_000_000
  {
    assert Pow10(5) == 100_000;
    assert Pow10(10) == 100_000 * Pow10(5);
  }

  /** The array indexes are the numbers below 2^32 - 1, as they are written. */
  lemma IndexKeyIs(key: string)
    ensures IsArrayIndexKey(key) <==> exists n: nat :: n < 0x1_0000_0000 - 1 && key == Itoa(n)
  {
    if IsArrayIndexKey(key) {
      WrittenBack(key);
      assert key == Itoa(ToNat(key));
    }
    forall n: nat | n < 0x1_0000_0000 - 1 && key == Itoa(n) ensures IsArrayIndexKey(key) {
      TenDigits();
      ItoaShort(n, 10);
      ToNatItoa(n);
    }
  }

  function Filter(keys: seq<string>, index: bool): seq<string> {
    if keys == [] then [] else Filter(Front(keys), index) + if IsArrayIndexKey(Last(keys)) == index then [Last(keys)] else []
  }

  /** Array indexes of increasing number. */
  ghost predicate Ascending(ks: seq<string>) {
    forall i, j | 0 <= i < j < |ks| :: IsArrayIndexKey(ks[i]) && IsArrayIndexKey(ks[j]) && ToNat(ks[i]) <= ToNat(ks[j])
  }

  /** Ascending but for the key at `j`, which is in order with what follows it. */
  ghost predicate Sinking(ks: seq<string>, n: nat, j: nat) {
    && j < n <= |ks|
    && (forall k | 0 <= k < |ks| :: IsArrayIndexKey(ks[k]))
    && (forall a, b | 0 <= a < b < n && b != j :: ToNat(ks[a]) <= ToNat(ks[b]))
  }

  lemma SwapSinks(ks: seq<string>, i: nat, j: nat)
    requires 0 < j <= i && Sinking(ks, i + 1, j) && ToNat(ks[j]) < ToNat(ks[j - 1])
    ensures Sinking(ks[j := ks[j - 1]][j - 1 := ks[j]], i + 1, j - 1)
  {}

  /** The insertion sort of the index keys, swap by swap. */
  method SortIndexes(keys: seq<string>) returns (ks: seq<string>)
    requires forall k | 0 <= k < |keys| :: IsArrayIndexKey(keys[k])
    ensures multiset(ks) == multiset(keys) && Ascending(ks)
  {
    hide IsArrayIndexKey, ToNat, IndexLess;
    ks := keys;
    var i := 1;
    while i < |ks|
      invariant 1 <= i && (|ks| > 0 ==> i <= |ks|) && multiset(ks) == multiset(keys)
      invariant forall k | 0 <= k < |ks| :: IsArrayIndexKey(ks[k])
      invariant forall a, b | 0 <= a < b < i && b < |ks| :: ToNat(ks[a]) <= ToNat(ks[b])
    {
      ks := Sink(ks, i);
      i := i + 1;
    }
  }

  method Sink(ks0: seq<string>, i: nat) returns (ks: seq<string>)
    requires Sinking(ks0, i + 1, i)
    ensures multiset(ks) == multiset(ks0) && |ks| == |ks0| && forall k | 0 <= k < |ks| :: IsArrayIndexKey(ks[k])
    ensures forall a, b | 0 <= a < b < i + 1 :: ToNat(ks[a]) <= ToNat(ks[b])
  {
    hide IsArrayIndexKey, ToNat, IndexLess;
    ks := ks0;
    var j := i;
    assert Sinking(ks, i + 1, j);
    while j > 0 && IndexLess(ks[j], ks[j - 1])
      invariant 0 <= j <= i && |ks| == |ks0| && multiset(ks) == multiset(ks0) && Sinking(ks, i + 1, j)
    {
      IndexLessIs(ks[j], ks[j - 1]);
      SwapSame(ks, j);
      SwapSinks(ks, i, j);
      ks := ks[j := ks[j - 1]][j - 1 := ks[j]];
      j := j - 1;
    }
    Sunk(ks, i, j);
  }

  lemma Sunk(ks: seq<string>, i: nat, j: nat)
    requires j <= i && Sinking(ks, i + 1, j) && (j == 0 || !IndexLess(ks[j], ks[j - 1]))
    ensures forall a, b | 0 <= a < b < i + 1 :: ToNat(ks[a]) <= ToNat(ks[b])
  {
    if j > 0 { IndexLessIs(ks[j], ks[j - 1]); }
    hide IsArrayIndexKey, ToNat, IndexLess;
  }

  lemma SwapSame(ks: seq<string>, j: nat)
    requires 0 < j < |ks|
    ensures multiset(ks[j := ks[j - 1]][j - 1 := ks[j]]) == multiset(ks)
  {}

  /** A list of keys less the first occurrence of one. */
  function Without(keys: seq<string>, key: string): seq<string> {
    if keys == [] then [] else if keys[0] == key then keys[1..] else [keys[0]] + Without(keys[1..], key)
  }

  lemma {:induction false} WithoutAt(keys: seq<string>, key: string, i: nat)
    requires i < |keys| && keys[i] == key && forall j | 0 <= j < i :: keys[j] != key
    ensures Without(keys, key) == keys[..i] + keys[i + 1..]
  {
    if i > 0 {
      WithoutAt(keys[1..], key, i - 1);
      assert keys[..i] + keys[i + 1..] == [keys[0]] + (keys[1..][..i - 1] + keys[1..][i..]);
    }
  }

  lemma {:induction false} WithoutAbsent(keys: seq<string>, key: string)
    requires key !in keys
    ensures Without(keys, key) == keys
  {
    if keys != [] { WithoutAbsent(keys[1..], key); }
  }

  /** Of distinct keys, exactly that one is gone. */
  lemma {:induction false} WithoutKeeps(keys: seq<string>, key: string)
    requires forall i, j | 0 <= i < j < |keys| :: keys[i] != keys[j]
    ensures var w := Without(keys, key);
            (forall k :: k in w <==> k in keys && k != key) && forall i, j | 0 <= i < j < |w| :: w[i] != w[j]
  {
    if keys != [] {
      WithoutKeeps(keys[1..], key);
      var w := Without(keys[1..], key);
      assert forall k :: k in keys <==> k == keys[0] || k in keys[1..];
      assert keys[0] !in keys[1..];
      if keys[0] != key {
        assert forall j | 0 <= j < |w| :: w[j] in w && w[j] != keys[0];
        assert forall j | 0 < j <= |w| :: ([keys[0]] + w)[j] == w[j - 1];
      }
    }
  }

  // ---- The order of the keys ----

  predicate Distinct(ks: seq<string>) { forall i, j | 0 <= i < j < |ks| :: ks[i] != ks[j] }

  /** Which of two keys comes first: of indexes the smaller number, an index before any other key,
      and of other keys the one inserted first. */
  ghost predicate Precedes(keys: seq<string>, a: string, b: string) {
    if IsArrayIndexKey(a) && IsArrayIndexKey(b) then ToNat(a) < ToNat(b)
    else if IsArrayIndexKey(a) || IsArrayIndexKey(b) then IsArrayIndexKey(a)
    else exists p, q :: 0 <= p < q < |keys| && keys[p] == a && keys[q] == b
  }

  /** The same keys, each before those it precedes. */
  ghost predicate InJsOrder(keys: seq<string>, out: seq<string>) {
    && |out| == |keys| && (forall k :: k in out <==> k in keys)
    && forall i, j | 0 <= i < j < |out| :: Precedes(keys, out[i], out[j])
  }

  lemma {:induction false} FilterIs(keys: seq<string>, index: bool)
    ensures forall k :: k in Filter(keys, index) <==> k in keys && IsArrayIndexKey(k) == index
    ensures |Filter(keys, true)| + |Filter(keys, false)| == |keys|
  {
    if keys != [] {
      hide IsArrayIndexKey;
      FilterIs(Front(keys), index);
      assert keys == Front(keys) + [Last(keys)];
    }
  }

  lemma {:induction false} FilterInOrder(keys: seq<string>, index: bool, i: nat, j: nat) returns (p: nat, q: nat)
    requires i < j < |Filter(keys, index)|
    ensures p < q < |keys| && keys[p] == Filter(keys, index)[i] && keys[q] == Filter(keys, index)[j]
  {
    hide IsArrayIndexKey;
    var n := |Filter(Front(keys), index)|;
    if j < n {
      p, q := FilterInOrder(Front(keys), index, i, j);
    } else {
      FilterIs(Front(keys), index);
      assert Filter(Front(keys), index)[i] in Front(keys);
      p :| 0 <= p < |keys| - 1 && Front(keys)[p] == Filter(Front(keys), index)[i];
      q := |keys| - 1;
    }
  }

  lemma {:induction false} OnceEach(ks: seq<string>)
    requires Distinct(ks)
    ensures forall k :: multiset(ks)[k] <= 1
  {
    if ks != [] {
      OnceEach(Front(ks));
      assert ks == Front(ks) + [Last(ks)];
      assert Last(ks) !in Front(ks);
    }
  }

  lemma TwiceCounted(ks: seq<string>, i: nat, j: nat)
    requires i < j < |ks| && ks[i] == ks[j]
    ensures multiset(ks)[ks[i]] >= 2
  {
    assert ks == ks[..j] + (([ks[j]]) + ks[j + 1..]);
    assert ks[i] in ks[..j];
  }

  lemma FilterDistinct(keys: seq<string>, index: bool)
    requires Distinct(keys)
    ensures Distinct(Filter(keys, index))
  {
    hide Filter;
    forall i, j | 0 <= i < j < |Filter(keys, index)| ensures Filter(keys, index)[i] != Filter(keys, index)[j] {
      var p, q := FilterInOrder(keys, index, i, j);
    }
  }

  lemma DifferentNumbers(a: string, b: string)
    requires IsArrayIndexKey(a) && IsArrayIndexKey(b) && ToNat(a) == ToNat(b)
    ensures a == b
  {
    hide ToNat;
    WrittenBack(a);
    WrittenBack(b);
  }

  /** A sorted list of indexes has each once, and the smaller first. */
  lemma IndexesAscend(keys: seq<string>, indexes: seq<string>)
    requires Distinct(keys) && Ascending(indexes) && multiset(indexes) == multiset(Filter(keys, true))
    ensures forall i, j | 0 <= i < j < |indexes| :: ToNat(indexes[i]) < ToNat(indexes[j])
  {
    hide ToNat, Filter, IsArrayIndexKey;
    FilterDistinct(keys, true);
    OnceEach(Filter(keys, true));
    forall i, j | 0 <= i < j < |indexes| ensures ToNat(indexes[i]) < ToNat(indexes[j]) {
      if indexes[i] == indexes[j] { TwiceCounted(indexes, i, j); }
      if ToNat(indexes[i]) == ToNat(indexes[j]) { DifferentNumbers(indexes[i], indexes[j]); }
    }
  }

  lemma OrderIs(keys: seq<string>, indexes: seq<string>)
    requires Distinct(keys) && Ascending(indexes) && multiset(indexes) == multiset(Filter(keys, true))
    requires forall k | 0 <= k < |indexes| :: IsArrayIndexKey(indexes[k])
    ensures InJsOrder(keys, indexes + Filter(keys, false))
  {
    hide ToNat, IsArrayIndexKey, Filter;
    var plain := Filter(keys, false);
    var out := indexes + plain;
    FilterIs(keys, true);
    FilterIs(keys, false);
    SameMembers(indexes, Filter(keys, true));
    IndexesAscend(keys, indexes);
    forall i, j | 0 <= i < j < |out| ensures Precedes(keys, out[i], out[j]) {
      if i >= |indexes| {
        var p, q := FilterInOrder(keys, false, i - |indexes|, j - |indexes|);
        assert out[i] in plain && out[j] in plain;
      } else if j >= |indexes| {
        assert out[j] in plain;
      }
    }
  }

  lemma SameMembers(a: seq<string>, b: seq<string>)
    requires multiset(a) == multiset(b)
    ensures |a| == |b| && forall k :: k in a <==> k in b
  {
    assert |a| == |multiset(a)|;
    forall k ensures k in a <==> k in b { assert k in a <==> k in multiset(a); }
  }

  class OrdMap<T(==)> {
    var keys: seq<string>
    var values: map<string, T>

    /** The keys are those of the map, each once. */
    ghost predicate Valid()
      reads this
    {
      (forall k :: k in keys <==> k in values) && Distinct(keys)
    }

    constructor ()
      ensures Valid() && keys == [] && values == map[]
    {
      keys, values := [], map[];
    }

    method Set(key: string, value: T)
      requires Valid()
      modifies this
      ensures Valid() && values == old(values)[key := value]
      ensures keys == if key in old(values) then old(keys) else old(keys) + [key]
    {
      if key !in values { keys := keys + [key]; }
      values := values[key := value];
    }

    method Delete(key: string)
      requires Valid()
      modifies this
      ensures Valid() && values == old(values) - {key} && keys == Without(old(keys), key)
    {
      if key !in values {
        WithoutAbsent(keys, key);
        assert values == values - {key};
        return;
      }
      WithoutKeeps(keys, key);
      values := values - {key};
      var i := 0;
      while keys[i] != key
        invariant 0 <= i < |keys| && keys == old(keys) && key in keys && forall j | 0 <= j < i :: keys[j] != key
        decreases |keys| - i
      {
        i := i + 1;
      }
      WithoutAt(keys, key, i);
      keys := keys[..i] + keys[i + 1..];
    }

    /** Array indexes in numeric order, then the rest as they were inserted. */
    method Keys() returns (out: seq<string>)
      requires Valid()
      ensures exists indexes :: out == indexes + Filter(keys, false) && Ascending(indexes)
                                && multiset(indexes) == multiset(Filter(keys, true))
      ensures InJsOrder(keys, out)
    {
      hide IsArrayIndexKey;
      var indexKeys, plainKeys := [], [];
      var i := 0;
      while i < |keys|
        invariant 0 <= i <= |keys|
        invariant indexKeys == Filter(keys[..i], true) && plainKeys == Filter(keys[..i], false)
        invariant forall k | 0 <= k < |indexKeys| :: IsArrayIndexKey(indexKeys[k])
      {
        assert Front(keys[..i + 1]) == keys[..i];
        if IsArrayIndexKey(keys[i]) { indexKeys := indexKeys + [keys[i]]; } else { plainKeys := plainKeys + [keys[i]]; }
        i := i + 1;
      }
      assert keys[..i] == keys;
      var sorted := SortIndexes(indexKeys);
      out := sorted + plainKeys;
      SameMembers(sorted, indexKeys);
      forall k | 0 <= k < |sorted| ensures IsArrayIndexKey(sorted[k]) { assert sorted[k] in indexKeys; }
      OrderIs(keys, sorted);
    }
  }

  // ---- JSON pointer segments ----

  /** `strings.ReplaceAll` of a two-character pattern, from the left. */
  function ReplaceTwo(s: string, a: char, b: char, c: char): string {
    if |s| < 2 then s
    else if s[0] == a && s[1] == b then [c] + ReplaceTwo(s[2..], a, b, c)
    else [s[0]] + ReplaceTwo(s[1..], a, b, c)
  }

  function JpEscape(s: string): string { ReplaceAll(ReplaceAll(s, '~', "~0"), '/', "~1") }

  function JpUnescape(s: string): string { ReplaceTwo(ReplaceTwo(s, '~', '1', '/'), '~', '0', '~') }

  function Slashed(s: string): string { ReplaceAll(s, '/', "~1") }

  /** Undoing the second replacement, in a text where every tilde is followed by a zero. */
  lemma {:induction false} UndoSlash(s: string)
    ensures ReplaceTwo(Slashed(ReplaceAll(s, '~', "~0")), '~', '1', '/') == ReplaceAll(s, '~', "~0")
  {
    if s != "" {
      UndoSlash(s[1..]);
      hide ReplaceTwo, Slashed;
      var t := ReplaceAll(s[1..], '~', "~0");
      if s[0] == '~' { UndoTildeSlash(t); }
      else if s[0] == '/' { UndoOneSlash(t); }
      else { UndoPlain(s[0], t); }
    }
  }

  lemma UndoTildeSlash(t: string)
    requires ReplaceTwo(Slashed(t), '~', '1', '/') == t
    ensures ReplaceTwo(Slashed("~0" + t), '~', '1', '/') == "~0" + t
  {
    var u := Slashed(t);
    assert "~0" + t == ['~'] + (['0'] + t) && (['~'] + (['0'] + t))[1..] == ['0'] + t && (['0'] + t)[1..] == t;
    assert Slashed(['0'] + t) == ['0'] + u;
    assert Slashed("~0" + t) == ['~'] + (['0'] + u);
    UndoAfter(u);
  }

  lemma UndoOneSlash(t: string)
    requires ReplaceTwo(Slashed(t), '~', '1', '/') == t
    ensures ReplaceTwo(Slashed(['/'] + t), '~', '1', '/') == ['/'] + t
  {}

  lemma UndoPlain(c: char, t: string)
    requires ReplaceTwo(Slashed(t), '~', '1', '/') == t && c != '~' && c != '/'
    ensures ReplaceTwo(Slashed([c] + t), '~', '1', '/') == [c] + t
  {}

  lemma UndoAfter(u: string)
    ensures ReplaceTwo(['~'] + (['0'] + u), '~', '1', '/') == ['~'] + (['0'] + ReplaceTwo(u, '~', '1', '/'))
  {}

  lemma {:induction false} UndoTilde(s: string)
    ensures ReplaceTwo(ReplaceAll(s, '~', "~0"), '~', '0', '~') == s
  {
    if s != "" {
      UndoTilde(s[1..]);
      var t := ReplaceAll(s[1..], '~', "~0");
      assert s == [s[0]] + s[1..];
      if s[0] == '~' { assert ("~0" + t)[2..] == t; } else { assert ([s[0]] + t)[1..] == t; }
    }
  }

  /** Unescaping undoes escaping, for every segment (section 4 of RFC 6901). */
  lemma PointerRoundTrip(s: string)
    ensures JpUnescape(JpEscape(s)) == s
  {
    UndoSlash(s);
    UndoTilde(s);
  }

  /** An escaped segment holds no slash, so it stays one segment of a pointer. */
  lemma {:induction false} EscapedHasNoSlash(s: string)
    ensures '/' !in ReplaceAll(s, '/', "~1")
  {
    if s != "" { EscapedHasNoSlash(s[1..]); }
  }
}
