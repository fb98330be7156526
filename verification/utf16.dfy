/** UTF-16 code units, as `jsLess` and the string reader of the bounded JSON
    parser use them.  A `string` is a sequence of Unicode scalar values, so
    surrogates only ever occur as code units. */
module Utf16 {

  type CodeUnit = u: int | 0 <= u < 0x1_0000

  const REPLACEMENT: char := '\U{FFFD}'

  predicate IsHigh(u: CodeUnit) { 0xD800 <= u < 0xDC00 }

  predicate IsLow(u: CodeUnit) { 0xDC00 <= u < 0xE000 }

  predicate IsSurrogate(u: CodeUnit) { 0xD800 <= u < 0xE000 }

  /** The scalar value a surrogate pair stands for. */
  function Combine(high: CodeUnit, low: CodeUnit): char
    requires IsHigh(high) && IsLow(low)
  {
    (0x1_0000 + (high - 0xD800) * 0x400 + (low - 0xDC00)) as char
  }

  function EncodeChar(c: char): seq<CodeUnit> {
    var n := c as int;
    if n < 0x1_0000 then [n] else [0xD800 + (n - 0x1_0000) / 0x400, 0xDC00 + (n - 0x1_0000) % 0x400]
  }

  function Encode(s: string): seq<CodeUnit> {
    if s == "" then [] else EncodeChar(s[0]) + Encode(s[1..])
  }

  /** Reference decoder: pairs combine, every lone surrogate becomes U+FFFD. */
  function Decode(us: seq<CodeUnit>): string {
    if us == [] then ""
    else if |us| >= 2 && IsHigh(us[0]) && IsLow(us[1]) then [Combine(us[0], us[1])] + Decode(us[2..])
    else if IsSurrogate(us[0]) then [REPLACEMENT] + Decode(us[1..])
    else [us[0] as char] + Decode(us[1..])
  }

  /** A well-formed character at the front of the code units is decoded on its own. */
  lemma DecodeCharFirst(c: char, us: seq<CodeUnit>)
    ensures Decode(EncodeChar(c) + us) == [c] + Decode(us)
  {}

  /** A lone surrogate followed by the start of a well-formed character stays lone. */
  lemma DecodeLoneThenChar(u: CodeUnit, c: char, us: seq<CodeUnit>)
    requires IsSurrogate(u)
    ensures Decode([u] + EncodeChar(c) + us) == [REPLACEMENT, c] + Decode(us)
  {}

  lemma {:induction false} DecodeEncode(s: string)
    ensures Decode(Encode(s)) == s
  {
    if s != "" {
      DecodeCharFirst(s[0], Encode(s[1..]));
      DecodeEncode(s[1..]);
    }
  }

  /** Lexicographic order on code units, a proper prefix first. */
  predicate LexLess(a: seq<int>, b: seq<int>) {
    if b == [] then false
    else if a == [] then true
    else if a[0] != b[0] then a[0] < b[0]
    else LexLess(a[1..], b[1..])
  }

  lemma {:induction false} LexIrreflexive(a: seq<int>)
    ensures !LexLess(a, a)
  {
    if a != [] { LexIrreflexive(a[1..]); }
  }

  lemma {:induction false} LexTransitive(a: seq<int>, b: seq<int>, c: seq<int>)
    requires LexLess(a, b) && LexLess(b, c)
    ensures LexLess(a, c)
  {
    if a != [] && a[0] == b[0] == c[0] { LexTransitive(a[1..], b[1..], c[1..]); }
  }

  lemma {:induction false} LexTotal(a: seq<int>, b: seq<int>)
    ensures LexLess(a, b) || LexLess(b, a) || a == b
  {
    if a != [] && b != [] && a[0] == b[0] {
      LexTotal(a[1..], b[1..]);
      assert a == [a[0]] + a[1..] && b == [b[0]] + b[1..];
    }
  }

  /** A shared prefix does not matter. */
  lemma {:induction false} LexSkip(a: seq<int>, b: seq<int>, i: nat)
    requires i <= |a| && i <= |b| && a[..i] == b[..i]
    ensures LexLess(a, b) == LexLess(a[i..], b[i..])
  {
    if i > 0 {
      assert a[0] == a[..i][0] && b[0] == b[..i][0];
      assert a[1..][..i - 1] == a[..i][1..] && b[1..][..i - 1] == b[..i][1..];
      LexSkip(a[1..], b[1..], i - 1);
      assert a[1..][i - 1..] == a[i..] && b[1..][i - 1..] == b[i..];
    } else {
      assert a[0..] == a && b[0..] == b;
    }
  }

  predicate IsAscii(s: string) { forall i | 0 <= i < |s| :: s[i] as int < 0x80 }

  /** The bytes Go compares on the fast path, for a string of ASCII characters. */
  function Scalars(s: string): seq<int> { seq(|s|, i requires 0 <= i < |s| => s[i] as int) }

  lemma {:induction false} AsciiUnits(s: string)
    requires IsAscii(s)
    ensures Encode(s) == Scalars(s)
  {
    if s != "" {
      AsciiUnits(s[1..]);
      assert Scalars(s) == [s[0] as int] + Scalars(s[1..]);
    }
  }

  /** The order canonical JSON is sorted by. */
  predicate JsLess(a: string, b: string) { LexLess(Encode(a), Encode(b)) }

  lemma JsLessStrictTotal(a: string, b: string, c: string)
    ensures !JsLess(a, a)
    ensures JsLess(a, b) && JsLess(b, c) ==> JsLess(a, c)
    ensures JsLess(a, b) || JsLess(b, a) || a == b
    ensures !(JsLess(a, b) && JsLess(b, a))
  {
    LexIrreflexive(Encode(a));
    if JsLess(a, b) && JsLess(b, c) { LexTransitive(Encode(a), Encode(b), Encode(c)); }
    if JsLess(a, b) && JsLess(b, a) { LexTransitive(Encode(a), Encode(b), Encode(a)); }
    LexTotal(Encode(a), Encode(b));
    if Encode(a) == Encode(b) {
      DecodeEncode(a);
      DecodeEncode(b);
    }
  }

  // ---- The order, said without the comparison ----

  /** At the first position where the two differ `x` has the smaller number, or it ends there. */
  ghost predicate Precedes(x: seq<int>, y: seq<int>) {
    exists i: nat | i <= |x| && i <= |y| && x[..i] == y[..i] :: i < |y| && (i < |x| ==> x[i] < y[i])
  }

  lemma {:induction false} LexLessIs(x: seq<int>, y: seq<int>)
    ensures LexLess(x, y) <==> Precedes(x, y)
  {
    if y == [] {
    } else if x == [] {
      assert x[..0] == y[..0];
    } else if x[0] != y[0] {
      assert x[..0] == y[..0];
      if i: nat :| i <= |x| && i <= |y| && x[..i] == y[..i] && i < |y| && (i < |x| ==> x[i] < y[i]) {
        if i > 0 { assert x[..i][0] == y[..i][0]; }
      }
    } else {
      LexLessIs(x[1..], y[1..]);
      StepOff(x, y);
    }
  }

  /** A shared first number does not matter. */
  lemma StepOff(x: seq<int>, y: seq<int>)
    requires x != [] && y != [] && x[0] == y[0]
    ensures Precedes(x, y) <==> Precedes(x[1..], y[1..])
  {
    if i: nat :| i <= |x| && i <= |y| && x[..i] == y[..i] && i < |y| && (i < |x| ==> x[i] < y[i]) {
      assert i > 0 && x[1..][..i - 1] == x[..i][1..] && y[1..][..i - 1] == y[..i][1..];
    }
    if i: nat :| i <= |x| - 1 && i <= |y| - 1 && x[1..][..i] == y[1..][..i] && i < |y| - 1 && (i < |x| - 1 ==> x[1..][i] < y[1..][i]) {
      assert x[..i + 1] == [x[0]] + x[1..][..i] && y[..i + 1] == [y[0]] + y[1..][..i];
    }
  }

  /** Strings are in the order of their UTF-16 code units, the smaller first, a prefix first. */
  lemma JsLessIs(a: string, b: string)
    ensures JsLess(a, b) <==> Precedes(Encode(a), Encode(b))
  {
    LexLessIs(Encode(a), Encode(b));
  }

  /** The code units of a character: itself, or the pair of surrogates that spells it. */
  lemma EncodeCharIs(c: char)
    ensures var us := EncodeChar(c);
            if c as int < 0x1_0000 then us == [c as int]
            else |us| == 2 && 0xD800 <= us[0] < 0xDC00 <= us[1] < 0xE000
                 && c as int == 0x1_0000 + (us[0] as int - 0xD800) * 1024 + (us[1] as int - 0xDC00)
  {}

  /** A unit or pair at the front is decoded for itself, a lone surrogate as U+FFFD. */
  lemma DecodeIs(us: seq<CodeUnit>)
    requires us != []
    ensures !(0xD800 <= us[0] < 0xE000) ==> Decode(us) == [us[0] as char] + Decode(us[1..])
    ensures 0xD800 <= us[0] < 0xE000 && !(us[0] < 0xDC00 && |us| > 1 && 0xDC00 <= us[1] < 0xE000) ==>
              Decode(us) == ['\U{FFFD}'] + Decode(us[1..])
    ensures 0xD800 <= us[0] < 0xDC00 && |us| > 1 && 0xDC00 <= us[1] < 0xE000 ==>
              Decode(us) == [(0x1_0000 + (us[0] as int - 0xD800) * 1024 + (us[1] as int - 0xDC00)) as char] + Decode(us[2..])
  {}

  method CompareBytes(a: string, b: string) returns (less: bool)
    ensures less == LexLess(Scalars(a), Scalars(b))
  {
    var x, y := Scalars(a), Scalars(b);
    less := CompareUnits(x, y);
  }

  method CompareUnits(x: seq<int>, y: seq<int>) returns (less: bool)
    ensures less == LexLess(x, y)
  {
    var i := 0;
    while i < |x| && i < |y|
      invariant i <= |x| && i <= |y|
      invariant x[..i] == y[..i]
    {
      if x[i] != y[i] {
        LexSkip(x, y, i);
        return x[i] < y[i];
      }
      i := i + 1;
    }
    LexSkip(x, y, i);
    less := |x| < |y|;
  }

  /** `jsLess`: byte order when both strings are ASCII, UTF-16 order otherwise. */
  method CompareJs(a: string, b: string) returns (less: bool)
    ensures less == JsLess(a, b)
  {
    if IsAscii(a) && IsAscii(b) {
      AsciiUnits(a);
      AsciiUnits(b);
      less := CompareBytes(a, b);
    } else {
      less := CompareUnits(Encode(a), Encode(b));
    }
  }
}
