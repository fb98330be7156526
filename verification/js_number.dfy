/** Numbers: the ECMAScript text `FormatJSNumber` writes (section 6.1.6.1.20 of
    ECMA-262) and the number grammar of RFC 8259 section 6 that `parseNumber`
    reads.  A finite double is its shortest decimal digits and exponent, which is
    all the formatter looks at. */
module JsNumber {
  import opened Text

  /** `Finite(neg, "d1...dk", e)` is d1.d2...dk times 10 to the e. */
  datatype Raw =
    | NonFinite
    | Zero(negative: bool)
    | Finite(negative: bool, digits: string, exponent: int)

  predicate IsMantissa(ds: string) {
    |ds| > 0 && AllDigits(ds) && ds[0] != '0' && ds[|ds| - 1] != '0'
  }

  type Number = n: Raw | n.Finite? ==> IsMantissa(n.digits) witness Zero(false)

  function Itoa(n: nat): (ds: string)
    ensures |ds| > 0 && AllDigits(ds)
  {
    var last := [('0' as int + n % 10) as char];
    if n < 10 then last else Itoa(n / 10) + last
  }

  function DigitValue(c: char): nat { if IsDigit(c) then c as int - '0' as int else 0 }

  function ToNat(ds: string): nat {
    if ds == "" then 0 else 10 * ToNat(ds[..|ds| - 1]) + DigitValue(ds[|ds| - 1])
  }

  lemma {:induction false} ToNatItoa(n: nat)
    ensures ToNat(Itoa(n)) == n
  {
    var ds := Itoa(n);
    if n >= 10 {
      assert ds[..|ds| - 1] == Itoa(n / 10);
      ToNatItoa(n / 10);
    } else {
      assert ds[..|ds| - 1] == "";
    }
  }

  function SignText(negative: bool): string { if negative then "-" else "" }

  function FormatJSNumber(f: Number): string {
    match f
    case NonFinite => "null"
    case Zero(_) => "0"
    case Finite(negative, mantissa, exponent) =>
      var neg := SignText(negative);
      var k := |mantissa|;
      var n := exponent + 1;
      if k <= n && n <= 21 then
        neg + (mantissa + Zeros(n - k))
      else if 0 < n && n <= 21 then
        neg + (mantissa[..n] + ("." + mantissa[n..]))
      else if -6 < n && n <= 0 then
        neg + ("0." + (Zeros(-n) + mantissa))
      else
        var expPart := if n - 1 >= 0 then "+" + Itoa(n - 1) else "-" + Itoa(1 - n);
        if k == 1 then neg + (mantissa + ("e" + expPart))
        else neg + (mantissa[..1] + ("." + mantissa[1..] + ("e" + expPart)))
  }

  // ---- Reading ----

  /** The parts of a number literal, with the value of its exponent part if it has one. */
  datatype Literal = Literal(negative: bool, whole: string, frac: string, exp: Option<int>) {
    /** Power of ten of the last digit. */
    function Scale10(): int { (if exp.Some? then exp.value else 0) - |frac| }
  }

  predicate WellFormed(lit: Literal) {
    AllDigits(lit.whole) && AllDigits(lit.frac)
  }

  function ScanWhole(s: string, i: nat): (end: Option<nat>)
    requires i <= |s|
    ensures end.Some? ==> i <= end.value <= |s|
  {
    if CharAt(s, i, '0') then Some(i + 1)
    else if DigitAt(s, i) then Some(DigitRun(s, i))
    else None
  }

  /** End of the fraction part: `i` itself when there is none. */
  function ScanFraction(s: string, i: nat): (end: Option<nat>)
    requires i <= |s|
    ensures end.Some? ==> i <= end.value <= |s|
    ensures end.Some? && end.value != i ==> i + 1 <= end.value
  {
    if !CharAt(s, i, '.') then Some(i)
    else if !DigitAt(s, i + 1) then None
    else Some(DigitRun(s, i + 1))
  }

  function ExponentDigits(s: string, i: nat): (j: nat)
    requires i < |s|
    ensures i < j <= |s|
  {
    if CharAt(s, i + 1, '+') || CharAt(s, i + 1, '-') then i + 2 else i + 1
  }

  function ScanExponent(s: string, i: nat): (end: Option<nat>)
    requires i <= |s|
    ensures end.Some? ==> i <= end.value <= |s|
    ensures end.Some? && end.value != i ==> i < |s| && ExponentDigits(s, i) <= end.value
  {
    if !CharAt(s, i, 'e') && !CharAt(s, i, 'E') then Some(i)
    else if !DigitAt(s, ExponentDigits(s, i)) then None
    else Some(DigitRun(s, ExponentDigits(s, i)))
  }

  function ExponentValue(s: string, i: nat, end: nat): Option<int>
    requires end != i ==> i < |s| && ExponentDigits(s, i) <= end <= |s|
  {
    if end == i then None
    else
      var n: int := ToNat(s[ExponentDigits(s, i)..end]);
      Some(if CharAt(s, i + 1, '-') then -n else n)
  }

  /** The longest number literal at `i`, with its end. */
  function ScanNumber(s: string, i: nat): (r: Option<(Literal, nat)>)
    requires i <= |s|
    ensures r.Some? ==> i <= r.value.1 <= |s|
  {
    if CharAt(s, i, '-') then ScanUnsigned(s, i + 1, true) else ScanUnsigned(s, i, false)
  }

  function ScanUnsigned(s: string, a: nat, negative: bool): (r: Option<(Literal, nat)>)
    requires a <= |s|
    ensures r.Some? ==> a <= r.value.1 <= |s|
  {
    var whole := ScanWhole(s, a);
    if whole.None? then None
    else
      var frac := ScanFraction(s, whole.value);
      if frac.None? then None
      else
        var exp := ScanExponent(s, frac.value);
        if exp.None? then None
        else
          Some((Literal(negative, s[a..whole.value],
                        if frac.value == whole.value then "" else s[whole.value + 1..frac.value],
                        ExponentValue(s, frac.value, exp.value)),
                exp.value))
  }

  lemma ScanWellFormed(s: string, i: nat)
    requires i <= |s|
    ensures ScanNumber(s, i).Some? ==> i < ScanNumber(s, i).value.1 && WellFormed(ScanNumber(s, i).value.0)
  {
    UnsignedWellFormed(s, i, false);
    if CharAt(s, i, '-') { UnsignedWellFormed(s, i + 1, true); }
  }

  lemma UnsignedWellFormed(s: string, a: nat, negative: bool)
    requires a <= |s|
    ensures ScanUnsigned(s, a, negative).Some? ==>
              a < ScanUnsigned(s, a, negative).value.1 && WellFormed(ScanUnsigned(s, a, negative).value.0)
  {
    DigitRunDigits(s, a);
    if ScanWhole(s, a).Some? {
      var b := ScanWhole(s, a).value;
      if b < |s| { DigitRunDigits(s, b + 1); }
    }
  }

  function StripLeading(ds: string): (t: string)
    ensures |t| <= |ds| && ds == Zeros(|ds| - |t|) + t
    ensures t != "" ==> t[0] != '0'
    ensures AllDigits(ds) ==> AllDigits(t)
  {
    if ds != "" && ds[0] == '0' then StripLeading(ds[1..]) else ds
  }

  function StripTrailing(ds: string): (t: string)
    ensures |t| <= |ds| && ds == t + Zeros(|ds| - |t|)
    ensures t == "" ==> forall k | 0 <= k < |ds| :: ds[k] == '0'
    ensures t != "" ==> t[|t| - 1] != '0'
    ensures AllDigits(ds) ==> AllDigits(t)
  {
    if ds != "" && ds[|ds| - 1] == '0' then StripTrailing(ds[..|ds| - 1]) else ds
  }

  /** The decimal a literal stands for, before it is rounded to a double. */
  function Exact(lit: Literal): (n: Number)
    requires WellFormed(lit)
    ensures !n.NonFinite?
  {
    var ds := StripLeading(lit.whole + lit.frac);
    FromDigits(lit.negative, ds, lit.Scale10())
  }

  /** The number with digits `ds`, no leading zero, times 10 to the e. */
  function FromDigits(negative: bool, ds: string, e: int): (n: Number)
    requires AllDigits(ds) && (ds != "" ==> ds[0] != '0')
    ensures !n.NonFinite?
  {
    if ds == "" then Zero(negative)
    else
      var m := StripTrailing(ds);
      Finite(negative, m, |ds| - 1 + e)
  }

  /** The number literal at `i` as the decimal it stands for, with its end. */
  function ReadNumber(s: string, i: nat): (r: Option<(Number, nat)>)
    requires i <= |s|
    ensures r.Some? ==> i < r.value.1 <= |s| && !r.value.0.NonFinite?
  {
    ScanWellFormed(s, i);
    match ScanNumber(s, i)
    case None => None
    case Some((lit, end)) => Some((Exact(lit), end))
  }

  // ---- The four layouts read back ----

  /** What reading a printed number gives: the sign of zero is the one thing the text loses. */
  function Printed(f: Number): Number { if f.Zero? then Zero(false) else f }

  /** What may follow a printed number: anything that cannot continue it. */
  predicate Delimited(s: string, i: nat) {
    i < |s| ==> !IsDigit(s[i]) && s[i] != '.' && s[i] != 'e' && s[i] != 'E'
  }

  function FracText(frac: string): string { if frac == "" then "" else "." + frac }

  function ExpText(exp: int): string {
    if exp >= 0 then "e+" + Itoa(exp) else "e-" + Itoa(-exp)
  }

  lemma ScanWholeAt(s: string, i: nat, whole: string)
    requires At(s, i, whole) && |whole| > 0 && AllDigits(whole) && (whole[0] == '0' ==> whole == "0")
    requires !DigitAt(s, i + |whole|)
    ensures ScanWhole(s, i) == Some(i + |whole|)
  {
    assert s[i] == whole[0];
    if whole[0] != '0' { DigitRunAt(s, i, whole); }
  }

  lemma ScanFractionAt(s: string, i: nat, frac: string)
    requires At(s, i, FracText(frac)) && AllDigits(frac)
    requires !DigitAt(s, i + |FracText(frac)|) && !CharAt(s, i + |FracText(frac)|, '.')
    ensures ScanFraction(s, i) == Some(i + |FracText(frac)|)
    ensures frac != "" ==> s[i + 1..i + |FracText(frac)|] == frac
  {
    if frac != "" {
      AtSplit(s, i, ".", frac);
      DigitRunAt(s, i + 1, frac);
      AtSlice(s, i + 1, frac);
    }
  }

  lemma TwoAt(s: string, i: nat, w: string)
    requires At(s, i, w) && |w| == 2
    ensures i + 2 <= |s| && s[i] == w[0] && s[i + 1] == w[1]
  {
    AtSlice(s, i, w);
    assert s[i..i + 2][0] == s[i] && s[i..i + 2][1] == s[i + 1];
  }

  lemma FirstAt(s: string, i: nat, ds: string)
    requires At(s, i, ds) && ds != "" && AllDigits(ds)
    ensures DigitAt(s, i)
  {
    assert s[i] == ds[0];
  }

  lemma SignedDigitsAt(s: string, i: nat, minus: bool, ds: string, end: nat)
    requires At(s, i, if minus then "e-" else "e+") && At(s, i + 2, ds) && ds != "" && AllDigits(ds)
    requires end == i + 2 + |ds| && !DigitAt(s, end)
    ensures ScanExponent(s, i) == Some(end)
    ensures ExponentValue(s, i, end) == Some(if minus then -(ToNat(ds) as int) else ToNat(ds))
  {
    TwoAt(s, i, if minus then "e-" else "e+");
    FirstAt(s, i + 2, ds);
    DigitRunAt(s, i + 2, ds);
    AtSlice(s, i + 2, ds);
    hide At, DigitRun, ToNat, AllDigits;
  }

  lemma ScanExponentAt(s: string, i: nat, exp: int, w: string)
    requires w == ExpText(exp) && At(s, i, w) && !DigitAt(s, i + |w|)
    ensures ScanExponent(s, i) == Some(i + |w|) && ExponentValue(s, i, i + |w|) == Some(exp)
  {
    hide At, ScanExponent, ExponentValue, Itoa, ToNat, DigitAt, AllDigits;
    var n: nat := if exp >= 0 then exp else -exp;
    var head := if exp >= 0 then "e+" else "e-";
    assert w == head + Itoa(n);
    AtSplit(s, i, head, Itoa(n));
    SignedDigitsAt(s, i, exp < 0, Itoa(n), i + |w|);
    ToNatItoa(n);
  }

  function OptExpText(exp: Option<int>): string { if exp.Some? then ExpText(exp.value) else "" }

  function UnsignedText(lit: Literal): string { lit.whole + (FracText(lit.frac) + OptExpText(lit.exp)) }

  /** A literal as it is written. */
  function LiteralText(lit: Literal): string { SignText(lit.negative) + UnsignedText(lit) }

  /** The literals RFC 8259 allows: no leading zero, a fraction that is absent rather than empty. */
  predicate IsJson(lit: Literal) {
    |lit.whole| > 0 && AllDigits(lit.whole) && (lit.whole[0] == '0' ==> lit.whole == "0") && AllDigits(lit.frac)
  }

  lemma ScanOptExponentAt(s: string, i: nat, exp: Option<int>, w: string)
    requires w == OptExpText(exp) && At(s, i, w) && Delimited(s, i + |w|)
    ensures ScanExponent(s, i) == Some(i + |w|) && ExponentValue(s, i, i + |w|) == exp
    ensures !DigitAt(s, i) && !CharAt(s, i, '.')
  {
    hide Itoa, ToNat;
    if exp.Some? {
      AtFirst(s, i, w);
      hide At, ExpText;
      ScanExponentAt(s, i, exp.value, w);
    }
  }

  lemma AtFirst(s: string, i: nat, w: string)
    requires At(s, i, w) && w != ""
    ensures i < |s| && s[i] == w[0]
  {}

  /** Where the parts of a written literal start and end. */
  ghost predicate PartsAt(s: string, a: nat, b: nat, c: nat, e: nat, lit: Literal) {
    && At(s, a, lit.whole) && b == a + |lit.whole|
    && At(s, b, FracText(lit.frac)) && c == b + |FracText(lit.frac)|
    && At(s, c, OptExpText(lit.exp)) && e == c + |OptExpText(lit.exp)|
  }

  /** A literal is scanned back into its parts. */
  lemma ScanLiteral(s: string, i: nat, lit: Literal, w: string)
    requires IsJson(lit) && w == LiteralText(lit) && At(s, i, w) && Delimited(s, i + |w|)
    ensures ScanNumber(s, i) == Some((lit, i + |w|))
  {
    hide *;
    var a, b, c, e := SplitLiteral(s, i, lit, w);
    ScanSign(s, i, lit.negative);
    ScanUnsignedAt(s, a, b, c, e, lit);
  }

  lemma SplitLiteral(s: string, i: nat, lit: Literal, w: string) returns (a: nat, b: nat, c: nat, e: nat)
    requires IsJson(lit) && w == LiteralText(lit) && At(s, i, w)
    ensures a == i + |SignText(lit.negative)| && e == i + |w|
    ensures At(s, i, SignText(lit.negative)) && DigitAt(s, a) && PartsAt(s, a, b, c, e, lit)
  {
    var sign, whole, frac, exp := SignText(lit.negative), lit.whole, FracText(lit.frac), OptExpText(lit.exp);
    assert w == sign + (whole + (frac + exp)) && whole != "" && AllDigits(whole);
    hide At, SignText, FracText, OptExpText, LiteralText, UnsignedText;
    a := i + |sign|;
    AtSplit(s, i, sign, whole + (frac + exp));
    AtSplit(s, a, whole, frac + exp);
    b := a + |whole|;
    AtSplit(s, b, frac, exp);
    c := b + |frac|;
    e := c + |exp|;
    FirstAt(s, a, whole);
  }

  lemma ScanSign(s: string, i: nat, neg: bool)
    requires At(s, i, SignText(neg)) && DigitAt(s, i + |SignText(neg)|)
    ensures ScanNumber(s, i) == ScanUnsigned(s, i + |SignText(neg)|, neg)
  {}

  lemma ScanUnsignedAt(s: string, a: nat, b: nat, c: nat, e: nat, lit: Literal)
    requires IsJson(lit) && PartsAt(s, a, b, c, e, lit) && Delimited(s, e)
    ensures ScanUnsigned(s, a, lit.negative) == Some((lit, e))
  {
    hide At, AllDigits, FracText, OptExpText, ScanUnsigned, ScanWhole, ScanFraction, ScanExponent, ExponentValue;
    var exp := OptExpText(lit.exp);
    ScanOptExponentAt(s, c, lit.exp, exp);
    FractionStart(s, b, c, lit.frac);
    ScanFractionAt(s, b, lit.frac);
    ScanWholeAt(s, a, lit.whole);
    AtSlice(s, a, lit.whole);
    Assemble(s, a, lit.negative, b, c, e);
  }

  /** A fraction starts with its point, so a digit cannot come first. */
  lemma FractionStart(s: string, b: nat, c: nat, frac: string)
    requires At(s, b, FracText(frac)) && c == b + |FracText(frac)| && !DigitAt(s, c)
    ensures !DigitAt(s, b) && (frac == "" <==> c == b)
  {}

  lemma Assemble(s: string, a: nat, neg: bool, b: nat, c: nat, e: nat)
    requires a <= |s| && ScanWhole(s, a) == Some(b)
    requires ScanFraction(s, b) == Some(c) && ScanExponent(s, c) == Some(e)
    ensures ScanUnsigned(s, a, neg) == Some((Literal(neg, s[a..b], if c == b then "" else s[b + 1..c], ExponentValue(s, c, e)), e))
  {}

  /** The literal each layout of the formatter spells. */
  function LayoutOf(f: Number): Literal
    requires !f.NonFinite?
  {
    match f
    case Zero(_) => Literal(false, "0", "", None)
    case Finite(negative, m, exponent) =>
      var k, n := |m|, exponent + 1;
      if k <= n && n <= 21 then Literal(negative, m + Zeros(n - k), "", None)
      else if 0 < n && n <= 21 then Literal(negative, m[..n], m[n..], None)
      else if -6 < n && n <= 0 then Literal(negative, "0", Zeros(-n) + m, None)
      else Literal(negative, m[..1], m[1..], Some(n - 1))
  }

  lemma LayoutIsJson(f: Number)
    requires !f.NonFinite?
    ensures IsJson(LayoutOf(f))
  {}

  lemma LayoutSpells(f: Number)
    requires !f.NonFinite?
    ensures FormatJSNumber(f) == LiteralText(LayoutOf(f))
  {
    if f.Finite? {
      var n := f.exponent + 1;
      if |f.digits| <= n && n <= 21 { IntegerSpells(f); }
      else if 0 < n && n <= 21 { DecimalSpells(f); }
      else if -6 < n && n <= 0 { FractionSpells(f); }
      else { ExponentSpells(f); }
    }
  }

  lemma IntegerSpells(f: Number)
    requires f.Finite? && |f.digits| <= f.exponent + 1 <= 21
    ensures FormatJSNumber(f) == LiteralText(LayoutOf(f))
  {
    hide Itoa, Zeros, AllDigits;
    var w := f.digits + Zeros(f.exponent + 1 - |f.digits|);
    AppendEmpty(w);
    assert UnsignedText(LayoutOf(f)) == w + ("" + "");
  }

  lemma DecimalSpells(f: Number)
    requires f.Finite? && 0 < f.exponent + 1 < |f.digits| && f.exponent + 1 <= 21
    ensures FormatJSNumber(f) == LiteralText(LayoutOf(f))
  {
    hide Itoa, Zeros, AllDigits;
    AppendEmpty("." + f.digits[f.exponent + 1..]);
  }

  lemma FractionSpells(f: Number)
    requires f.Finite? && -6 < f.exponent + 1 <= 0
    ensures FormatJSNumber(f) == LiteralText(LayoutOf(f))
  {
    hide Itoa, Zeros, AllDigits;
    var w := Zeros(-f.exponent - 1) + f.digits;
    AppendEmpty("." + w);
    assert FracText(w) == "." + w && "0." + w == "0" + ("." + w);
    assert UnsignedText(LayoutOf(f)) == "0" + (("." + w) + "");
  }

  lemma ExponentSpells(f: Number)
    requires f.Finite? && !(-6 < f.exponent + 1 <= 21)
    ensures FormatJSNumber(f) == LiteralText(LayoutOf(f))
  {
    ScientificSpells(f.digits, f.exponent);
  }

  lemma ScientificSpells(m: string, e: int)
    requires |m| > 0
    ensures var expPart := if e >= 0 then "+" + Itoa(e) else "-" + Itoa(-e);
            m[..1] + (FracText(m[1..]) + ExpText(e)) ==
            if |m| == 1 then m + ("e" + expPart) else m[..1] + ("." + m[1..] + ("e" + expPart))
  {}

  lemma AppendEmpty(w: string)
    ensures w + "" == w && w + ("" + "") == w
  {}

  lemma {:induction false} StripLeadingUnique(z: nat, t: string)
    requires t != "" ==> t[0] != '0'
    ensures StripLeading(Zeros(z) + t) == t
  {
    var ds := Zeros(z) + t;
    if z > 0 {
      assert ds[1..] == Zeros(z - 1) + t;
      StripLeadingUnique(z - 1, t);
    } else {
      assert ds == t;
    }
  }

  lemma ZeroLast(t: string, z: nat)
    ensures t + Zeros(0) == t && (z > 0 ==> t + Zeros(z) == t + Zeros(z - 1) + "0")
  {}

  lemma OneStripped(ds: string)
    ensures StripTrailing(ds + "0") == StripTrailing(ds)
  {
    assert (ds + "0")[..|ds|] == ds;
  }

  lemma {:induction false} StripTrailingUnique(t: string, z: nat)
    requires t != "" ==> t[|t| - 1] != '0'
    ensures StripTrailing(t + Zeros(z)) == t
  {
    ZeroLast(t, z);
    if z > 0 {
      StripTrailingUnique(t, z - 1);
      OneStripped(t + Zeros(z - 1));
    }
  }

  /** Digits padded by `z` zeros in front and `y` behind stand for their middle. */
  lemma ExactPadded(lit: Literal, z: nat, m: string, y: nat)
    requires WellFormed(lit) && IsMantissa(m)
    requires lit.whole + lit.frac == Zeros(z) + (m + Zeros(y))
    ensures Exact(lit) == Finite(lit.negative, m, |m| + y - 1 + lit.Scale10())
  {
    StripLeadingUnique(z, m + Zeros(y));
    StripTrailingUnique(m, y);
  }

  lemma LayoutExact(f: Number)
    requires !f.NonFinite?
    ensures Exact(LayoutOf(f)) == Printed(f)
  {
    match f
    case Zero(_) => ZeroExact();
    case Finite(negative, m, exponent) =>
      var n := exponent + 1;
      if |m| <= n && n <= 21 {
        NoPadding(m + Zeros(n - |m|));
        DigitsExact(f, LayoutOf(f), 0, n - |m|);
      } else if 0 < n && n <= 21 {
        SplitDigits(m, n);
        DigitsExact(f, LayoutOf(f), 0, 0);
      } else if -6 < n && n <= 0 {
        LeadingZeros(m, -n);
        DigitsExact(f, LayoutOf(f), 1 - n, 0);
      } else {
        SplitDigits(m, 1);
        DigitsExact(f, LayoutOf(f), 0, 0);
      }
  }

  lemma NoPadding(w: string)
    ensures w + "" == Zeros(0) + w
  {}

  lemma SplitDigits(m: string, n: nat)
    requires n <= |m|
    ensures m[..n] + m[n..] == Zeros(0) + (m + Zeros(0))
  {}

  lemma LeadingZeros(m: string, z: nat)
    ensures "0" + (Zeros(z) + m) == Zeros(z + 1) + (m + Zeros(0))
  {}

  lemma DigitsExact(f: Number, lit: Literal, z: nat, y: nat)
    requires f.Finite? && IsJson(lit) && lit.negative == f.negative
    requires lit.whole + lit.frac == Zeros(z) + (f.digits + Zeros(y))
    requires f.exponent == |f.digits| + y - 1 + lit.Scale10()
    ensures Exact(lit) == f
  {
    ExactPadded(lit, z, f.digits, y);
  }

  /** Every layout is read in full, up to a delimiter, and stands for the number printed. */
  lemma FormatReadsBack(s: string, i: nat, f: Number, w: string)
    requires !f.NonFinite? && w == FormatJSNumber(f)
    requires At(s, i, w) && Delimited(s, i + |w|)
    ensures ReadNumber(s, i) == Some((Printed(f), i + |w|))
  {
    assert w == LiteralText(LayoutOf(f)) by { LayoutSpells(f); }
    LayoutReadsBack(s, i, f, w);
  }

  lemma LayoutReadsBack(s: string, i: nat, f: Number, w: string)
    requires !f.NonFinite?
    requires w == LiteralText(LayoutOf(f)) && At(s, i, w) && Delimited(s, i + |w|)
    ensures ReadNumber(s, i) == Some((Printed(f), i + |w|))
  {
    LayoutIsJson(f);
    LiteralReadsBack(s, i, LayoutOf(f), w);
    LayoutExact(f);
  }

  lemma LiteralReadsBack(s: string, i: nat, lit: Literal, w: string)
    requires IsJson(lit) && w == LiteralText(lit) && At(s, i, w) && Delimited(s, i + |w|)
    ensures ReadNumber(s, i) == Some((Exact(lit), i + |w|))
    ensures ScanNumber(s, i) == Some((lit, i + |w|))
  {
    ScanLiteral(s, i, lit, w);
    AtBounds(s, i, w);
    hide LiteralText, ScanNumber, Exact, IsJson, At, Delimited;
  }

  lemma ZeroExact()
    ensures Exact(Literal(false, "0", "", None)) == Zero(false)
  {}

  /** Two numbers print alike only when they are the same number or both zero
      (all non-finite values share "null"). */
  lemma FormatInjective(f: Number, g: Number)
    ensures FormatJSNumber(f) == FormatJSNumber(g) <==> f == g || (f.Zero? && g.Zero?)
  {
    if FormatJSNumber(f) == FormatJSNumber(g) {
      FormatHead(f);
      FormatHead(g);
      var s := FormatJSNumber(f);
      if !f.NonFinite? && !g.NonFinite? {
        AtSelf(s);
        FormatReadsBack(s, 0, f, s);
        FormatReadsBack(s, 0, g, s);
      }
    }
  }

  /** A printed finite number starts with a minus sign or a digit. */
  lemma FormatHead(f: Number)
    ensures |FormatJSNumber(f)| > 0
    ensures f.NonFinite? <==> FormatJSNumber(f)[0] == 'n'
    ensures !f.NonFinite? ==> FormatJSNumber(f)[0] == '-' || IsDigit(FormatJSNumber(f)[0])
  {
    if !f.NonFinite? {
      LayoutIsJson(f);
      LayoutSpells(f);
      var lit := LayoutOf(f);
      assert FormatJSNumber(f)[0] == if lit.negative then '-' else lit.whole[0];
    }
  }

  // ---- Which layout is chosen ----

  /** One digit before the point, and the exponent with its sign. */
  predicate Scientific(u: string, digits: string, exponent: int) {
    && digits != "" && u != "" && u[0] == digits[0]
    && (|digits| == 1 ==> |u| > 1 && u[1] == 'e')
    && (|digits| > 1 ==> |u| > |digits| + 1 && u[1] == '.' && u[2..|digits| + 1] == digits[1..] && u[|digits| + 1] == 'e')
    && var at := if |digits| == 1 then 1 else |digits| + 1;
       |u| > at + 1 && (if exponent >= 0 then u[at + 1] == '+' && u[at + 2..] == Itoa(exponent)
                        else u[at + 1] == '-' && u[at + 2..] == Itoa(-exponent))
  }

  /** The digits with the point in its place: filled up with zeros to a whole number, or after
      "0." and zeros for a number below one. */
  predicate Positional(u: string, digits: string, exponent: int) {
    if exponent < 0 then |u| == 1 - exponent + |digits| && u[..2] == "0." && u[1 - exponent..] == digits
                         && forall i | 2 <= i < 1 - exponent :: u[i] == '0'
    else if |digits| <= exponent + 1 then |u| == exponent + 1 && u[..|digits|] == digits && forall i | |digits| <= i < |u| :: u[i] == '0'
    else |u| == |digits| + 1 && u[..exponent + 1] == digits[..exponent + 1] && u[exponent + 1] == '.'
         && u[exponent + 2..] == digits[exponent + 1..]
  }

  lemma WholeIs(m: string, e: int)
    requires m != "" && |m| <= e + 1
    ensures Positional(m + Zeros(e + 1 - |m|), m, e)
  {}

  lemma PointIs(m: string, e: int)
    requires 0 <= e && e + 1 < |m|
    ensures Positional(m[..e + 1] + ("." + m[e + 1..]), m, e)
  {
    var u := m[..e + 1] + ("." + m[e + 1..]);
    assert u[e + 2..] == m[e + 1..] && u[..e + 1] == m[..e + 1];
  }

  lemma SmallIs(m: string, e: int)
    requires m != "" && e < 0
    ensures Positional("0." + (Zeros(-e - 1) + m), m, e)
  {
    var u := "0." + (Zeros(-e - 1) + m);
    assert u[..2] == "0." && u[1 - e..] == m;
  }

  lemma LoneDigitIs(m: string, e: int, part: string)
    requires |m| == 1 && part == (if e >= 0 then "+" + Itoa(e) else "-" + Itoa(-e))
    ensures Scientific(m + ("e" + part), m, e)
  {
    hide Itoa;
    var u := m + ("e" + part);
    assert u[3..] == part[1..];
  }

  lemma MoreDigitsAre(m: string, e: int, part: string)
    requires |m| > 1 && part == (if e >= 0 then "+" + Itoa(e) else "-" + Itoa(-e))
    ensures Scientific(m[..1] + ("." + m[1..] + ("e" + part)), m, e)
  {
    hide Itoa;
    var u := m[..1] + ("." + m[1..] + ("e" + part));
    assert u[2..|m| + 1] == m[1..];
    assert u[|m| + 3..] == part[1..];
  }

  lemma SignedIs(negative: bool, u: string, t: string)
    requires t == SignText(negative) + u && u != "" && u[0] != '-'
    ensures t != "" && (negative <==> t[0] == '-') && u == if negative then t[1..] else t
  {}

  /** The layout of a magnitude. */
  predicate Lays(u: string, m: string, e: int) { if -6 <= e <= 20 then Positional(u, m, e) else Scientific(u, m, e) }

  lemma InFull(f: Number)
    requires f.Finite? && -6 <= f.exponent <= 20
    ensures exists u :: FormatJSNumber(f) == SignText(f.negative) + u && u != "" && u[0] != '-' && Lays(u, f.digits, f.exponent)
  {
    hide Positional, Scientific, SignText;
    var m, e := f.digits, f.exponent;
    if e < 0 {
      SmallIs(m, e);
      assert Lays("0." + (Zeros(-e - 1) + m), m, e);
    } else if |m| <= e + 1 {
      WholeIs(m, e);
      assert Lays(m + Zeros(e + 1 - |m|), m, e);
    } else {
      PointIs(m, e);
      assert Lays(m[..e + 1] + ("." + m[e + 1..]), m, e);
    }
  }

  lemma WithExponent(f: Number)
    requires f.Finite? && !(-6 <= f.exponent <= 20)
    ensures exists u :: FormatJSNumber(f) == SignText(f.negative) + u && u != "" && u[0] != '-' && Lays(u, f.digits, f.exponent)
  {
    hide Positional, Scientific, SignText, Itoa;
    var m, e := f.digits, f.exponent;
    var part := if e >= 0 then "+" + Itoa(e) else "-" + Itoa(-e);
    if |m| == 1 {
      LoneDigitIs(m, e, part);
      assert Lays(m + ("e" + part), m, e);
    } else {
      MoreDigitsAre(m, e, part);
      assert Lays(m[..1] + ("." + m[1..] + ("e" + part)), m, e);
    }
  }

  /** Numbers from a millionth up to and without 10 to the 21st are written in full, all others
      with an exponent; a minus sign comes first. */
  lemma LayoutIs(f: Number)
    requires f.Finite?
    ensures var t := FormatJSNumber(f);
            && t != "" && (f.negative <==> t[0] == '-')
            && var u := if f.negative then t[1..] else t;
               if -6 <= f.exponent <= 20 then Positional(u, f.digits, f.exponent) else Scientific(u, f.digits, f.exponent)
  {
    hide FormatJSNumber, Positional, Scientific, SignText;
    if -6 <= f.exponent <= 20 { InFull(f); } else { WithExponent(f); }
    var u :| FormatJSNumber(f) == SignText(f.negative) + u && u != "" && u[0] != '-' && Lays(u, f.digits, f.exponent);
    SignedIs(f.negative, u, FormatJSNumber(f));
  }

  // ---- What literals and numbers denote ----

  /** n times 10 to the e. */
  function Scale(n: nat, e: int): real
    decreases if e >= 0 then e else -e
  {
    if e == 0 then n as real
    else if e > 0 then Scale(10 * n, e - 1)
    else Scale(n, e + 1) / 10.0
  }

  function Signed(negative: bool, x: real): real { if negative then -x else x }

  /** The rational a literal spells. */
  function LiteralValue(lit: Literal): real {
    Signed(lit.negative, Scale(ToNat(lit.whole + lit.frac), lit.Scale10()))
  }

  /** The rational a finite number is. */
  function NumberValue(f: Number): real
    requires !f.NonFinite?
  {
    match f
    case Zero(_) => 0.0
    case Finite(negative, m, e) => Signed(negative, Scale(ToNat(m), e - (|m| - 1)))
  }

  lemma {:induction false} ToNatLeading(z: nat, t: string)
    requires AllDigits(t)
    ensures AllDigits(Zeros(z) + t) && ToNat(Zeros(z) + t) == ToNat(t)
  {
    var ds := Zeros(z) + t;
    if t != "" {
      assert ds[..|ds| - 1] == Zeros(z) + t[..|t| - 1];
      ToNatLeading(z, t[..|t| - 1]);
    } else if z > 0 {
      assert ds[..|ds| - 1] == Zeros(z - 1) + t;
      ToNatLeading(z - 1, t);
    } else {
      assert ds == t;
    }
  }

  lemma {:induction false} ToNatTrailing(t: string, z: nat, e: int)
    requires AllDigits(t)
    ensures AllDigits(t + Zeros(z)) && Scale(ToNat(t + Zeros(z)), e) == Scale(ToNat(t), e + z)
  {
    if z > 0 {
      TrailingZero(t, z);
      ToNatTrailing(t, z - 1, e + 1);
      MoveTen(ToNat(t + Zeros(z - 1)), e);
    } else {
      assert t + Zeros(0) == t;
    }
  }

  lemma TrailingZero(t: string, z: nat)
    requires AllDigits(t) && z > 0
    ensures AllDigits(t + Zeros(z - 1)) && AllDigits(t + Zeros(z))
    ensures ToNat(t + Zeros(z)) == 10 * ToNat(t + Zeros(z - 1))
  {
    var ds := t + Zeros(z);
    assert ds[..|ds| - 1] == t + Zeros(z - 1);
    assert ds[|ds| - 1] == '0';
  }

  lemma {:induction false} MoveTen(n: nat, e: int)
    ensures Scale(10 * n, e) == Scale(n, e + 1)
    decreases if e >= 0 then e else -e
  {
    if e < -1 { MoveTen(n, e + 1); }
  }

  /** Stripping zeros keeps the rational. */
  lemma ExactDenotes(lit: Literal)
    requires WellFormed(lit)
    ensures NumberValue(Exact(lit)) == LiteralValue(lit)
  {
    var all := lit.whole + lit.frac;
    StripLeadingDenotes(all);
    FromDigitsDenotes(lit.negative, StripLeading(all), lit.Scale10());
  }

  lemma FromDigitsDenotes(negative: bool, ds: string, e: int)
    requires AllDigits(ds) && (ds != "" ==> ds[0] != '0')
    ensures NumberValue(FromDigits(negative, ds, e)) == Signed(negative, Scale(ToNat(ds), e))
  {
    if ds == "" {
      ScaleZero(e);
    } else {
      StripTrailingDenotes(ds, e);
      FiniteValue(FromDigits(negative, ds, e), e + |ds| - |StripTrailing(ds)|);
    }
  }

  lemma FiniteValue(f: Number, e: int)
    requires f.Finite? && e == f.exponent - (|f.digits| - 1)
    ensures NumberValue(f) == Signed(f.negative, Scale(ToNat(f.digits), e))
  {}

  lemma StripLeadingDenotes(all: string)
    requires AllDigits(all)
    ensures var ds := StripLeading(all);
            AllDigits(ds) && ToNat(all) == ToNat(ds)
  {
    var ds := StripLeading(all);
    ToNatLeading(|all| - |ds|, ds);
  }

  lemma {:induction false} ScaleZero(e: int)
    ensures Scale(0, e) == 0.0
    decreases if e >= 0 then e else -e
  {
    if e > 0 { ScaleZero(e - 1); }
    if e < 0 { ScaleZero(e + 1); }
  }

  lemma StripTrailingDenotes(ds: string, e: int)
    requires AllDigits(ds)
    ensures var m := StripTrailing(ds);
            AllDigits(m) && Scale(ToNat(ds), e) == Scale(ToNat(m), e + |ds| - |m|)
  {
    var m := StripTrailing(ds);
    ToNatTrailing(m, |ds| - |m|, e);
  }

  /** The text of a number denotes that number's rational, in all four layouts. */
  lemma FormatDenotes(f: Number, w: string)
    requires !f.NonFinite? && w == FormatJSNumber(f)
    ensures ScanNumber(w, 0) == Some((LayoutOf(f), |w|))
    ensures LiteralValue(LayoutOf(f)) == NumberValue(f)
  {
    assert w == LiteralText(LayoutOf(f)) by { LayoutSpells(f); }
    LayoutIsJson(f);
    ScanWholeText(w, LayoutOf(f));
    LayoutDenotes(f);
  }

  lemma NothingFollows(w: string)
    ensures Delimited(w, |w|)
  {}

  lemma ScanWholeText(w: string, lit: Literal)
    requires IsJson(lit) && w == LiteralText(lit)
    ensures ScanNumber(w, 0) == Some((lit, |w|))
  {
    hide *;
    AtSelf(w);
    NothingFollows(w);
    ScanLiteral(w, 0, lit, w);
  }

  lemma LayoutDenotes(f: Number)
    requires !f.NonFinite?
    ensures LiteralValue(LayoutOf(f)) == NumberValue(f)
  {
    ExactDenotes(LayoutOf(f));
    LayoutExact(f);
  }
}
