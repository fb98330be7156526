/** Shared text helpers: options, words found at a cursor, digit runs, byte lengths, parts of texts. */
module Text {

  datatype Option<+T> = None | Some(value: T)

  function Front<T>(es: seq<T>): seq<T>
    requires es != []
  {
    es[..|es| - 1]
  }

  function Last<T>(es: seq<T>): T
    requires es != []
  {
    es[|es| - 1]
  }

  lemma FrontAndLast<T>(es: seq<T>, x: T)
    requires es != []
    ensures x in es <==> x in Front(es) || x == Last(es)
  {
    if x in es {
      var i :| 0 <= i < |es| && es[i] == x;
      if i < |es| - 1 { assert Front(es)[i] == x; }
    }
  }

  /** The places in `keep`, in order. */
  ghost predicate Picks(at: seq<nat>, keep: set<nat>) {
    (forall i, j | 0 <= i < j < |at| :: at[i] < at[j]) && forall k :: k in at <==> k in keep
  }

  lemma PicksOneMore(at: seq<nat>, keep: set<nat>, n: nat, more: set<nat>)
    requires Picks(at, keep) && forall k | k in keep :: k < n
    ensures more == keep + {n} ==> Picks(at + [n], more)
  {
    if more == keep + {n} {
      forall k ensures k in at + [n] <==> k in more { assert (at + [n])[|at|] == n; }
      forall i | 0 <= i < |at| ensures at[i] < n { assert at[i] in at; }
    }
  }

  /** The word `w` stands in `s` at position `i`. */
  predicate At(s: string, i: nat, w: string)
    decreases |w|
  {
    if w == "" then i <= |s| else i < |s| && s[i] == w[0] && At(s, i + 1, w[1..])
  }

  lemma {:induction false} AtSplit(s: string, i: nat, a: string, b: string)
    ensures At(s, i, a + b) <==> At(s, i, a) && At(s, i + |a|, b)
    decreases |a|
  {
    if a == "" {
      assert a + b == b;
      AtBounds(s, i, b);
    } else {
      assert (a + b)[1..] == a[1..] + b;
      AtSplit(s, i + 1, a[1..], b);
    }
  }

  lemma {:induction false} AtBounds(s: string, i: nat, w: string)
    ensures At(s, i, w) ==> i + |w| <= |s|
    decreases |w|
  {
    if w != "" { AtBounds(s, i + 1, w[1..]); }
  }

  lemma {:induction false} AtSlice(s: string, i: nat, w: string)
    ensures At(s, i, w) <==> i + |w| <= |s| && s[i..i + |w|] == w
    decreases |w|
  {
    if w != "" {
      AtSlice(s, i + 1, w[1..]);
      if At(s, i, w) { assert s[i..i + |w|] == [s[i]] + s[i + 1..i + |w|]; }
      if i + |w| <= |s| && s[i..i + |w|] == w {
        assert s[i] == s[i..i + |w|][0];
        assert s[i + 1..i + |w|] == s[i..i + |w|][1..];
      }
    }
  }

  lemma AtSelf(w: string)
    ensures At(w, 0, w)
  {
    AtSlice(w, 0, w);
  }

  predicate IsDigit(c: char) { '0' <= c <= '9' }

  predicate AllDigits(ds: string) { forall k | 0 <= k < |ds| :: IsDigit(ds[k]) }

  predicate DigitAt(s: string, i: nat) { i < |s| && IsDigit(s[i]) }

  predicate CharAt(s: string, i: nat, c: char) { i < |s| && s[i] == c }

  /** First position at or after `i` that holds no digit. */
  function DigitRun(s: string, i: nat): (j: nat)
    requires i <= |s|
    ensures i <= j <= |s|
    decreases |s| - i
  {
    if DigitAt(s, i) then DigitRun(s, i + 1) else i
  }

  lemma {:induction false} DigitRunAt(s: string, i: nat, ds: string)
    requires At(s, i, ds) && AllDigits(ds) && !DigitAt(s, i + |ds|)
    ensures i + |ds| <= |s| && DigitRun(s, i) == i + |ds|
    decreases |ds|
  {
    AtBounds(s, i, ds);
    if ds != "" { DigitRunAt(s, i + 1, ds[1..]); }
  }

  lemma {:induction false} DigitRunDigits(s: string, i: nat)
    requires i <= |s|
    ensures AllDigits(s[i..DigitRun(s, i)]) && !DigitAt(s, DigitRun(s, i))
    decreases |s| - i
  {
    if DigitAt(s, i) {
      DigitRunDigits(s, i + 1);
      assert s[i..DigitRun(s, i)] == [s[i]] + s[i + 1..DigitRun(s, i)];
    }
  }

  function Zeros(n: nat): string { seq(n, _ => '0') }

  /** UTF-8 length, the unit the source's byte limits are written in. */
  function CharBytes(c: char): nat {
    var n := c as int;
    if n < 0x80 then 1 else if n < 0x800 then 2 else if n < 0x1_0000 then 3 else 4
  }

  function ByteLength(s: string): nat {
    if s == "" then 0 else ByteLength(s[..|s| - 1]) + CharBytes(s[|s| - 1])
  }

  lemma ByteLengthMonotone(s: string, j: nat)
    requires j <= |s|
    ensures ByteLength(s[..j]) <= ByteLength(s)
    ensures j < |s| ==> ByteLength(s[..j]) < ByteLength(s)
    decreases |s|
  {
    if j < |s| {
      assert s[..|s| - 1][..j] == s[..j];
      ByteLengthMonotone(s[..|s| - 1], j);
    } else {
      assert s[..j] == s;
    }
  }

  /** `strings.ReplaceAll` of one character. */
  function ReplaceAll(s: string, c: char, w: string): string {
    if s == "" then "" else (if s[0] == c then w else [s[0]]) + ReplaceAll(s[1..], c, w)
  }

  // ---- Joining and splitting ----

  /** `strings.Join`. */
  function Join(p: seq<string>, sep: char): string {
    if p == [] then "" else if |p| == 1 then p[0] else p[0] + [sep] + Join(p[1..], sep)
  }

  /** `strings.Split`. */
  function Split(s: string, sep: char): (parts: seq<string>)
    ensures parts != []
  {
    if s == "" then [""]
    else
      var rest := Split(s[1..], sep);
      if s[0] == sep then [""] + rest else [[s[0]] + rest[0]] + rest[1..]
  }

  predicate FreeOf(parts: seq<string>, sep: char) { forall i | 0 <= i < |parts| :: sep !in parts[i] }

  /** A text free of the separator is its own only part. */
  lemma {:induction false} SplitFree(s: string, sep: char)
    ensures |Split(s, sep)| == 1 <==> sep !in s
    ensures sep !in s ==> Split(s, sep) == [s]
  {
    if s != "" {
      SplitFree(s[1..], sep);
      assert s == [s[0]] + s[1..];
    }
  }

  lemma {:induction false} SplitParts(s: string, sep: char)
    ensures FreeOf(Split(s, sep), sep)
  {
    if s != "" { SplitParts(s[1..], sep); }
  }

  /** The parts of a text one character longer at the front. */
  function Prefixed(c: char, parts: seq<string>, sep: char): seq<string>
    requires parts != []
  {
    if c == sep then [""] + parts else [[c] + parts[0]] + parts[1..]
  }

  lemma SplitCons(c: char, s: string, sep: char)
    ensures Split([c] + s, sep) == Prefixed(c, Split(s, sep), sep)
  {
    assert ([c] + s)[1..] == s;
  }

  lemma PrefixedBoth(c: char, x: seq<string>, y: seq<string>, sep: char)
    requires x != []
    ensures Prefixed(c, x + y, sep) == Prefixed(c, x, sep) + y
  {
    assert (x + y)[0] == x[0] && (x + y)[1..] == x[1..] + y;
  }

  lemma CharFirst(c: char, a: string, sep: char, b: string)
    ensures [c] + a + [sep] + b == [c] + (a + [sep] + b)
  {}

  /** Two texts with a separator between have the parts of both. */
  lemma {:induction false} SplitBoth(a: string, b: string, sep: char)
    ensures Split(a + [sep] + b, sep) == Split(a, sep) + Split(b, sep)
  {
    hide Split, Prefixed;
    if a == "" {
      assert a + [sep] + b == [sep] + b;
      SplitCons(sep, b, sep);
      NoParts(b, sep);
    } else {
      var c, t := a[0], a[1..];
      assert a == [c] + t;
      SplitBoth(t, b, sep);
      CharFirst(c, t, sep, b);
      SplitCons(c, t, sep);
      SplitCons(c, t + [sep] + b, sep);
      PrefixedBoth(c, Split(t, sep), Split(b, sep), sep);
    }
  }

  lemma NoParts(b: string, sep: char)
    ensures Prefixed(sep, Split(b, sep), sep) == Split("", sep) + Split(b, sep)
  {}

  lemma {:induction false} JoinSplit(s: string, sep: char)
    ensures Join(Split(s, sep), sep) == s
  {
    if s != "" {
      JoinSplit(s[1..], sep);
      var rest := Split(s[1..], sep);
      assert s == [s[0]] + s[1..];
      if s[0] == sep {
        assert ([""] + rest)[1..] == rest;
      } else {
        JoinLonger([s[0]], rest, sep);
      }
    }
  }

  /** A longer first part makes the text that much longer. */
  lemma JoinLonger(x: string, parts: seq<string>, sep: char)
    requires parts != []
    ensures Join([x + parts[0]] + parts[1..], sep) == x + Join(parts, sep)
  {
    assert ([x + parts[0]] + parts[1..])[1..] == parts[1..];
  }

  lemma {:induction false} SplitJoin(parts: seq<string>, sep: char)
    requires parts != [] && FreeOf(parts, sep)
    ensures Split(Join(parts, sep), sep) == parts
  {
    SplitFree(parts[0], sep);
    if |parts| > 1 {
      SplitJoin(parts[1..], sep);
      SplitBoth(parts[0], Join(parts[1..], sep), sep);
      assert parts == [parts[0]] + parts[1..];
    }
  }

  /** Texts of the same parts are the same. */
  lemma SplitInjective(a: string, b: string, sep: char)
    requires Split(a, sep) == Split(b, sep)
    ensures a == b
  {
    JoinSplit(a, sep);
    JoinSplit(b, sep);
  }
}
