/** The texts that spell a JSON value (RFC 8259), said without the parser: blanks between tokens,
    escapes by name or by code in either case, exponents in either case and with any sign. The
    parser reads each of them as the value it spells. */
module JsonSpelling {
  import opened Text
  import opened Utf16
  import opened JsNumber
  import opened JsonTree
  import opened JsonParser
  import JsonRoundTrip

  // ---- Strings ----

  type Nibble = n: nat | n < 16

  datatype Digit = Digit(value: Nibble, upper: bool)

  const LOWER: string := "0123456789abcdef"
  const UPPER: string := "0123456789ABCDEF"

  function DigitText(d: Digit): string { [if d.upper then UPPER[d.value] else LOWER[d.value]] }

  /** The characters that escapes name, and their names. */
  const NAMED: string := "\"\\/\U{0008}\U{000C}\n\r\t"
  const NAMES: string := "\"\\/bfnrt"

  type Name = k: nat | k < 8

  /** A character as it is, by name, or by the four digits of a code unit. */
  datatype Piece = Raw(c: char) | Named(k: Name) | Coded(d1: Digit, d2: Digit, d3: Digit, d4: Digit)

  predicate ValidPiece(p: Piece) { p.Raw? ==> p.c >= ' ' && p.c != '"' && p.c != '\\' }

  function PieceText(p: Piece): string {
    match p
    case Raw(c) => [c]
    case Named(k) => "\\" + [NAMES[k]]
    case Coded(a, b, c, d) => "\\u" + (DigitText(a) + (DigitText(b) + (DigitText(c) + DigitText(d))))
  }

  function PieceUnits(p: Piece): seq<CodeUnit> {
    match p
    case Raw(c) => EncodeChar(c)
    case Named(k) => [NAMED[k] as int]
    case Coded(a, b, c, d) => [4096 * a.value + 256 * b.value + 16 * c.value + d.value]
  }

  predicate ValidPieces(ps: seq<Piece>) { forall i | 0 <= i < |ps| :: ValidPiece(ps[i]) }

  function PiecesText(ps: seq<Piece>): string { if ps == [] then "" else PieceText(ps[0]) + PiecesText(ps[1..]) }

  function Units(ps: seq<Piece>): seq<CodeUnit> { if ps == [] then [] else PieceUnits(ps[0]) + Units(ps[1..]) }

  function StringText(ps: seq<Piece>): string { "\"" + (PiecesText(ps) + "\"") }

  function StringOf(ps: seq<Piece>): string { Decode(Units(ps)) }

  // ---- Numbers ----

  datatype Power = Power(mark: char, sign: string, digits: string)

  datatype Numeral = Numeral(negative: bool, whole: string, frac: string, power: Option<Power>)

  predicate ValidPower(p: Power) {
    (p.mark == 'e' || p.mark == 'E') && (p.sign == "" || p.sign == "+" || p.sign == "-") && p.digits != "" && AllDigits(p.digits)
  }

  predicate ValidNumeral(n: Numeral) {
    && n.whole != "" && AllDigits(n.whole) && (n.whole[0] == '0' ==> n.whole == "0") && AllDigits(n.frac)
    && (n.power.Some? ==> ValidPower(n.power.value))
  }

  function PowerText(p: Option<Power>): string { if p.None? then "" else [p.value.mark] + (p.value.sign + p.value.digits) }

  function UnsignedOf(n: Numeral): string { n.whole + (FracText(n.frac) + PowerText(n.power)) }

  function NumeralText(n: Numeral): string { SignText(n.negative) + UnsignedOf(n) }

  function PowerOf(p: Option<Power>): Option<int> {
    if p.None? then None
    else Some(if p.value.sign == "-" then -(ToNat(p.value.digits) as int) else ToNat(p.value.digits))
  }

  function LiteralOf(n: Numeral): Literal { Literal(n.negative, n.whole, n.frac, PowerOf(n.power)) }

  // ---- Values ----

  predicate Blank(w: string) { forall i | 0 <= i < |w| :: w[i] in " \t\n\r" }

  datatype Spelled =
    | SNull
    | SBool(b: bool)
    | SStr(ps: seq<Piece>)
    | SNum(n: Numeral)
    | SArr(items: seq<Item>, inside: string)             // `inside` stands in an empty one
    | SObj(members: seq<Entry>, inside: string)

  datatype Item = Item(before: string, value: Spelled, after: string)

  datatype Entry = Entry(before: string, key: seq<Piece>, mid: string, gap: string, value: Spelled, after: string)

  predicate Valid(sp: Spelled) {
    match sp
    case SNull => true
    case SBool(_) => true
    case SStr(ps) => ValidPieces(ps)
    case SNum(n) => ValidNumeral(n)
    case SArr(items, inside) =>
      Blank(inside) && forall i | 0 <= i < |items| :: Blank(items[i].before) && Blank(items[i].after) && Valid(items[i].value)
    case SObj(members, inside) =>
      Blank(inside) && forall i | 0 <= i < |members| ::
                         && Blank(members[i].before) && ValidPieces(members[i].key) && Blank(members[i].mid)
                         && Blank(members[i].gap) && Valid(members[i].value) && Blank(members[i].after)
  }

  function TextOf(sp: Spelled): string
    decreases sp
  {
    match sp
    case SNull => "null"
    case SBool(b) => if b then "true" else "false"
    case SStr(ps) => StringText(ps)
    case SNum(n) => NumeralText(n)
    case SArr(items, inside) => if items == [] then "[" + (inside + "]") else "[" + (items[0].before + ItemsText(items))
    case SObj(members, inside) => if members == [] then "{" + (inside + "}") else "{" + (members[0].before + EntriesText(members))
  }

  /** From the first value to the closing bracket. */
  function ItemsText(items: seq<Item>): string
    requires items != []
    decreases items, 1
  {
    TextOf(items[0].value) + (items[0].after + ItemsTail(items))
  }

  function ItemsTail(items: seq<Item>): string
    requires items != []
    decreases items, 0
  {
    if |items| == 1 then "]" else "," + (items[1].before + ItemsText(items[1..]))
  }

  function EntriesText(ms: seq<Entry>): string
    requires ms != []
    decreases ms, 1
  {
    StringText(ms[0].key) + (ms[0].mid + (":" + (ms[0].gap + (TextOf(ms[0].value) + (ms[0].after + EntriesTail(ms))))))
  }

  function EntriesTail(ms: seq<Entry>): string
    requires ms != []
    decreases ms, 0
  {
    if |ms| == 1 then "}" else "," + (ms[1].before + EntriesText(ms[1..]))
  }

  /** The tree it stands for, each number rounded. */
  predicate Means(sp: Spelled, t: Tree, round: Number -> Option<Number>)
    decreases sp
  {
    match sp
    case SNull => t.TNull?
    case SBool(b) => t == TBool(b)
    case SStr(ps) => t == TStr(StringOf(ps))
    case SNum(n) => ValidNumeral(n) && t.TNum? && round(Exact(LiteralOf(n))) == Some(t.n)
    case SArr(items, _) => t.TArr? && |t.items| == |items| && forall i | 0 <= i < |items| :: Means(items[i].value, t.items[i], round)
    case SObj(ms, _) =>
      t.TObj? && |t.members| == |ms|
      && forall i | 0 <= i < |ms| :: t.members[i].key == StringOf(ms[i].key) && Means(ms[i].value, t.members[i].value, round)
  }

  /** No object repeats a key. */
  predicate Keyed(t: Tree)
    decreases t
  {
    match t
    case TArr(items) => forall i | 0 <= i < |items| :: Keyed(items[i])
    case TObj(members) => DistinctKeys(members) && forall i | 0 <= i < |members| :: Keyed(members[i].value)
    case _ => true
  }

  // ---- Reading strings ----

  /** Each digit has its value, in either case. */
  lemma DigitReads(d: Digit)
    ensures IsHex(DigitText(d)[0]) && HexValue(DigitText(d)[0]) == d.value
  {}

  lemma CodedReads(s: string, i: nat, p: Piece)
    requires p.Coded? && At(s, i, PieceText(p))
    ensures i + 6 <= |s| && s[i] == '\\' && s[i + 1] == 'u' && Hex4(s, i + 2) && [Hex4Value(s, i + 2)] == PieceUnits(p)
  {
    var w := PieceText(p);
    DigitReads(p.d1);
    DigitReads(p.d2);
    DigitReads(p.d3);
    DigitReads(p.d4);
    hide DigitText, HexValue, IsHex;
    AtSlice(s, i, w);
    assert w[0] == '\\' && w[1] == 'u' && w[2] == DigitText(p.d1)[0] && w[3] == DigitText(p.d2)[0] && w[4] == DigitText(p.d3)[0] && w[5] == DigitText(p.d4)[0];
    var t := s[i..i + 6];
    assert t[0] == s[i] && t[1] == s[i + 1] && t[2] == s[i + 2] && t[3] == s[i + 3] && t[4] == s[i + 4] && t[5] == s[i + 5];
  }

  lemma NamedReads(k: Name)
    ensures NAMES[k] != 'u' && SimpleEscape(NAMES[k]) == Some(NAMED[k]) && EncodeChar(NAMED[k]) == [NAMED[k] as int]
  {}

  lemma PieceScans(s: string, i: nat, p: Piece)
    requires ValidPiece(p) && At(s, i, PieceText(p))
    ensures i + |PieceText(p)| <= |s| && ScanUnits(s, i) == Prepend(PieceUnits(p), ScanUnits(s, i + |PieceText(p)|))
  {
    AtBounds(s, i, PieceText(p));
    match p
    case Raw(c) => assert s[i] == c;
    case Named(k) =>
      NamedReads(k);
      TwoAt(s, i, PieceText(p));
      hide SimpleEscape, EncodeChar;
    case Coded(_, _, _, _) =>
      CodedReads(s, i, p);
      hide Hex4, Hex4Value;
  }

  lemma {:induction false} BodySpelled(s: string, i: nat, ps: seq<Piece>)
    requires ValidPieces(ps) && At(s, i, PiecesText(ps) + "\"")
    ensures i + |PiecesText(ps)| + 1 <= |s| && ScanUnits(s, i) == Some((Units(ps), i + |PiecesText(ps)| + 1))
    decreases |ps|
  {
    hide ScanUnits, PieceText, PieceUnits;
    AtBounds(s, i, PiecesText(ps) + "\"");
    if ps == [] {
      JsonRoundTrip.QuoteEnds(s, i);
      assert PiecesText(ps) + "\"" == "\"";
    } else {
      var w, rest := PieceText(ps[0]), PiecesText(ps[1..]);
      assert PiecesText(ps) + "\"" == w + (rest + "\"");
      AtSplit(s, i, w, rest + "\"");
      PieceScans(s, i, ps[0]);
      BodySpelled(s, i + |w|, ps[1..]);
    }
  }

  lemma StringSpelled(s: string, i: nat, ps: seq<Piece>, w: string)
    requires ValidPieces(ps) && w == StringText(ps) && At(s, i, w)
    ensures i + |w| <= |s| && |w| >= 2 && s[i] == '"' && ReadString(s, i + 1) == Some((StringOf(ps), i + |w|))
  {
    hide ScanUnits, ReadString, Decode, Units, PiecesText;
    assert w[0] == '"' && w[1..] == PiecesText(ps) + "\"";
    BodySpelled(s, i + 1, ps);
    JsonRoundTrip.BodyReads(s, i + 1, Units(ps), i + |w|);
  }

  // ---- Reading numbers ----

  lemma SignAt(s: string, i: nat, sign: string, digits: string)
    requires sign == "" || sign == "+" || sign == "-"
    requires At(s, i, sign) && At(s, i + |sign|, digits) && digits != "" && AllDigits(digits)
    ensures CharAt(s, i, '+') || CharAt(s, i, '-') <==> sign != ""
    ensures CharAt(s, i, '-') <==> sign == "-"
    ensures DigitAt(s, i + |sign|)
  {
    FirstAt(s, i + |sign|, digits);
    if sign != "" { assert s[i] == sign[0]; }
  }

  lemma PowerReads(s: string, i: nat, p: Power, end: nat)
    requires ValidPower(p) && At(s, i, [p.mark]) && At(s, i + 1, p.sign) && At(s, i + 1 + |p.sign|, p.digits)
    requires end == i + 1 + |p.sign| + |p.digits| && !DigitAt(s, end)
    ensures ScanExponent(s, i) == Some(end) && ExponentValue(s, i, end) == PowerOf(Some(p))
  {
    var at := i + 1 + |p.sign|;
    assert s[i] == p.mark;
    SignAt(s, i + 1, p.sign, p.digits);
    DigitRunAt(s, at, p.digits);
    AtSlice(s, at, p.digits);
    hide At, DigitRun, ToNat, AllDigits;
    assert ExponentDigits(s, i) == at;
  }

  lemma OptPowerReads(s: string, i: nat, p: Option<Power>, w: string)
    requires (p.Some? ==> ValidPower(p.value)) && w == PowerText(p) && At(s, i, w) && Delimited(s, i + |w|)
    ensures ScanExponent(s, i) == Some(i + |w|) && ExponentValue(s, i, i + |w|) == PowerOf(p)
    ensures !DigitAt(s, i) && !CharAt(s, i, '.')
  {
    if p.Some? {
      var m := [p.value.mark];
      AtSplit(s, i, m, p.value.sign + p.value.digits);
      AtSplit(s, i + 1, p.value.sign, p.value.digits);
      AtFirst(s, i, w);
      hide At, ToNat;
      PowerReads(s, i, p.value, i + |w|);
    } else {
      hide ToNat;
    }
  }

  lemma NumeralParts(s: string, a: nat, b: nat, c: nat, e: nat, n: Numeral)
    requires ValidNumeral(n) && At(s, a, n.whole) && b == a + |n.whole| && At(s, b, FracText(n.frac)) && c == b + |FracText(n.frac)|
    requires At(s, c, PowerText(n.power)) && e == c + |PowerText(n.power)| && Delimited(s, e)
    ensures ScanUnsigned(s, a, n.negative) == Some((LiteralOf(n), e))
  {
    hide At, AllDigits, FracText, PowerText, PowerOf, ValidPower, ScanUnsigned, ScanWhole, ScanFraction, ScanExponent, ExponentValue;
    OptPowerReads(s, c, n.power, PowerText(n.power));
    FractionStart(s, b, c, n.frac);
    ScanFractionAt(s, b, n.frac);
    ScanWholeAt(s, a, n.whole);
    AtSlice(s, a, n.whole);
    Assemble(s, a, n.negative, b, c, e);
  }

  lemma NumeralScans(s: string, i: nat, n: Numeral, w: string)
    requires ValidNumeral(n) && w == NumeralText(n) && At(s, i, w) && Delimited(s, i + |w|)
    ensures i + |w| <= |s| && ScanNumber(s, i) == Some((LiteralOf(n), i + |w|))
  {
    var sign, frac, power := SignText(n.negative), FracText(n.frac), PowerText(n.power);
    AtBounds(s, i, w);
    hide At, SignText, FracText, PowerText, ScanNumber, LiteralOf;
    var a := i + |sign|;
    AtSplit(s, i, sign, n.whole + (frac + power));
    AtSplit(s, a, n.whole, frac + power);
    AtSplit(s, a + |n.whole|, frac, power);
    FirstAt(s, a, n.whole);
    ScanSign(s, i, n.negative);
    NumeralParts(s, a, a + |n.whole|, a + |n.whole| + |frac|, i + |w|, n);
  }

  lemma NumeralReads(s: string, i: nat, n: Numeral, w: string)
    requires ValidNumeral(n) && w == NumeralText(n) && At(s, i, w) && Delimited(s, i + |w|)
    ensures i + |w| <= |s| && WellFormed(LiteralOf(n)) && ReadNumber(s, i) == Some((Exact(LiteralOf(n)), i + |w|))
  {
    NumeralScans(s, i, n, w);
    hide NumeralText, ScanNumber, Exact, At, Delimited;
  }

  // ---- Reading values ----

  lemma {:induction false} SkipsBlank(s: string, i: nat, b: string)
    requires Blank(b) && At(s, i, b) && i + |b| <= |s| && (i + |b| < |s| ==> !IsWs(s[i + |b|]))
    ensures SkipWs(s, i) == i + |b|
    decreases |b|
  {
    if b != "" {
      assert s[i] == b[0] && IsWs(b[0]);
      SkipsBlank(s, i + 1, b[1..]);
    }
  }

  lemma SkipsNothing(s: string, i: nat)
    requires i < |s| && !IsWs(s[i])
    ensures SkipWs(s, i) == i
  {}

  lemma SeparatorHere(s: string, i: nat)
    requires CharAt(s, i, ',') || CharAt(s, i, ']') || CharAt(s, i, '}')
    ensures i < |s| && !IsWs(s[i])
  {}

  /** What a spelling starts with. */
  predicate Starts(sp: Spelled, c: char) {
    match sp
    case SNull => c == 'n'
    case SBool(b) => c == if b then 't' else 'f'
    case SStr(_) => c == '"'
    case SNum(_) => c == '-' || IsDigit(c)
    case SArr(_, _) => c == '['
    case SObj(_, _) => c == '{'
  }

  lemma StartsWith(sp: Spelled)
    requires Valid(sp)
    ensures TextOf(sp) != "" && Starts(sp, TextOf(sp)[0])
  {
    if sp.SNum? {
      var n := sp.n;
      assert NumeralText(n)[0] == if n.negative then '-' else n.whole[0];
    }
  }

  lemma NotBlank(sp: Spelled, c: char)
    requires Starts(sp, c)
    ensures !IsWs(c) && c != ']' && c != '}'
  {}

  /** Blanks before a value are skipped. */
  lemma AfterBlank(s: string, i: nat, b: string, nodes: nat, depth: nat, lim: Limits)
    requires Blank(b) && At(s, i, b) && i + |b| < |s| && !IsWs(s[i + |b|])
    ensures ParseValue(s, i, nodes, depth, lim) == ParseValue(s, i + |b|, nodes, depth, lim)
  {
    hide ParseObject, ParseArray, ParseString, ParseNumber, ParseWord, At, Blank, SkipWs;
    SkipsBlank(s, i, b);
    SkipsNothing(s, i + |b|);
  }

  /** The value fits where it stands. */
  predicate Fits(t: Tree, nodes: nat, depth: nat, lim: Limits) {
    Keyed(t) && WithinDepth(t, depth, lim.maxDepth) && nodes + Count(t) <= lim.maxNodes
  }

  predicate ItemsFit(ts: seq<Tree>, nodes: nat, depth: nat, lim: Limits) {
    nodes + CountItems(ts) <= lim.maxNodes && forall i | 0 <= i < |ts| :: Keyed(ts[i]) && WithinDepth(ts[i], depth, lim.maxDepth)
  }

  predicate MembersFit(ms: seq<Member>, nodes: nat, depth: nat, lim: Limits) {
    && nodes + CountMembers(ms) <= lim.maxNodes
    && forall i | 0 <= i < |ms| :: Keyed(ms[i].value) && WithinDepth(ms[i].value, depth, lim.maxDepth)
  }

  predicate ItemsMean(items: seq<Item>, ts: seq<Tree>, round: Number -> Option<Number>) {
    |ts| == |items| && forall i | 0 <= i < |items| :: Means(items[i].value, ts[i], round)
  }

  predicate EntriesMean(es: seq<Entry>, ms: seq<Member>, round: Number -> Option<Number>) {
    |ms| == |es| && forall i | 0 <= i < |es| :: ms[i].key == StringOf(es[i].key) && Means(es[i].value, ms[i].value, round)
  }

  predicate ItemsValid(items: seq<Item>) {
    forall i | 0 <= i < |items| :: Blank(items[i].before) && Blank(items[i].after) && Valid(items[i].value)
  }

  predicate EntryValid(e: Entry) {
    Blank(e.before) && ValidPieces(e.key) && Blank(e.mid) && Blank(e.gap) && Valid(e.value) && Blank(e.after)
  }

  predicate EntriesValid(es: seq<Entry>) { forall i | 0 <= i < |es| :: EntryValid(es[i]) }

  lemma FirstItem(items: seq<Item>, ts: seq<Tree>, nodes: nat, depth: nat, lim: Limits)
    requires items != [] && ItemsValid(items) && ItemsMean(items, ts, lim.round) && ItemsFit(ts, nodes, depth, lim)
    ensures Blank(items[0].before) && Blank(items[0].after) && Valid(items[0].value) && Means(items[0].value, ts[0], lim.round)
    ensures Fits(ts[0], nodes, depth, lim)
    ensures ItemsValid(items[1..]) && ItemsMean(items[1..], ts[1..], lim.round) && ItemsFit(ts[1..], nodes + Count(ts[0]), depth, lim)
    ensures CountItems(ts) == Count(ts[0]) + CountItems(ts[1..])
    ensures |items| > 1 ==> Blank(items[1].before)
  {
    hide Valid, Means, Keyed, WithinDepth, Blank, Count;
  }

  lemma FirstEntry(es: seq<Entry>, ms: seq<Member>, nodes: nat, depth: nat, lim: Limits)
    requires es != [] && EntriesValid(es) && EntriesMean(es, ms, lim.round) && MembersFit(ms, nodes, depth, lim)
    ensures EntryValid(es[0]) && ms[0].key == StringOf(es[0].key) && Means(es[0].value, ms[0].value, lim.round)
    ensures Fits(ms[0].value, nodes, depth, lim)
    ensures EntriesValid(es[1..]) && EntriesMean(es[1..], ms[1..], lim.round) && MembersFit(ms[1..], nodes + Count(ms[0].value), depth, lim)
    ensures CountMembers(ms) == Count(ms[0].value) + CountMembers(ms[1..])
    ensures |es| > 1 ==> EntryValid(es[1])
  {
    hide EntryValid, Means, Keyed, WithinDepth, StringOf, Count;
  }

  lemma DispatchOn(sp: Spelled, s: string, i: nat, nodes: nat, depth: nat, lim: Limits)
    requires i < |s| && Starts(sp, s[i]) && depth <= lim.maxDepth && nodes + 1 <= lim.maxNodes
    ensures ParseValue(s, i, nodes, depth, lim) ==
            match sp {
              case SObj(_, _) => ParseObject(s, i, nodes + 1, depth, lim)
              case SArr(_, _) => ParseArray(s, i, nodes + 1, depth, lim)
              case SStr(_) => ParseString(s, i + 1, nodes + 1)
              case SNum(_) => ParseNumber(s, i, nodes + 1, lim)
              case _ => ParseWord(s, i, nodes + 1)
            }
  {
    hide ParseObject, ParseArray, ParseString, ParseNumber, ParseWord, SkipWs;
    NotBlank(sp, s[i]);
    SkipsNothing(s, i);
  }

  lemma NumberSpelled(n: Numeral, t: Tree, s: string, i: nat, nodes: nat, lim: Limits, w: string)
    requires ValidNumeral(n) && Means(SNum(n), t, lim.round) && w == NumeralText(n) && At(s, i, w) && Delimited(s, i + |w|)
    ensures i + |w| <= |s| && ParseNumber(s, i, nodes, lim) == Ok(t, i + |w|, nodes)
  {
    hide NumeralText, ReadNumber, Exact, LiteralOf, At, Delimited, ValidNumeral;
    NumeralReads(s, i, n, w);
  }

  lemma TextSpelled(ps: seq<Piece>, s: string, i: nat, nodes: nat, w: string)
    requires ValidPieces(ps) && w == StringText(ps) && At(s, i, w)
    ensures i + |w| <= |s| && i < |s| && ParseString(s, i + 1, nodes) == Ok(TStr(StringOf(ps)), i + |w|, nodes)
  {
    StringSpelled(s, i, ps, w);
    hide StringText, ReadString, StringOf, At;
  }

  lemma WordSpelled(sp: Spelled, t: Tree, s: string, i: nat, nodes: nat, round: Number -> Option<Number>, w: string)
    requires (sp.SNull? || sp.SBool?) && Means(sp, t, round) && w == TextOf(sp) && At(s, i, w)
    ensures i + |w| <= |s| && ParseWord(s, i, nodes) == Ok(t, i + |w|, nodes)
  {
    JsonRoundTrip.WordParses(t, s, i, nodes, w);
  }

  lemma {:induction false} ValueSpelled(sp: Spelled, t: Tree, s: string, i: nat, nodes: nat, depth: nat, lim: Limits, w: string)
    requires Valid(sp) && Means(sp, t, lim.round) && Fits(t, nodes, depth, lim) && w == TextOf(sp)
    requires At(s, i, w) && Delimited(s, i + |w|)
    ensures i + |w| <= |s| && ParseValue(s, i, nodes, depth, lim) == Ok(t, i + |w|, nodes + Count(t))
    decreases sp, 1
  {
    StartsWith(sp);
    FitsHere(t, nodes, depth, lim);
    AtBounds(s, i, w);
    AtFirst(s, i, w);
    LeafCount(sp, t, lim.round);
    hide ParseValue, ParseString, ParseNumber, ParseWord, ParseArray, ParseObject, Starts, Count, Delimited, At;
    DispatchOn(sp, s, i, nodes, depth, lim);
    match sp
    case SNum(n) => NumberSpelled(n, t, s, i, nodes + 1, lim, w);
    case SStr(ps) => TextSpelled(ps, s, i, nodes + 1, w);
    case SArr(_, _) => ArraySpelled(sp, t, s, i, nodes, depth, lim, w);
    case SObj(_, _) => ObjectSpelled(sp, t, s, i, nodes, depth, lim, w);
    case _ => WordSpelled(sp, t, s, i, nodes + 1, lim.round, w);
  }

  lemma FitsHere(t: Tree, nodes: nat, depth: nat, lim: Limits)
    requires Fits(t, nodes, depth, lim)
    ensures depth <= lim.maxDepth && nodes + 1 <= lim.maxNodes
  {}

  lemma LeafCount(sp: Spelled, t: Tree, round: Number -> Option<Number>)
    requires Means(sp, t, round)
    ensures !sp.SArr? && !sp.SObj? ==> Count(t) == 1
    ensures sp.SArr? ==> t.TArr? && Count(t) == 1 + CountItems(t.items) && ItemsMean(sp.items, t.items, round)
    ensures sp.SObj? ==> t.TObj? && Count(t) == 1 + CountMembers(t.members) && EntriesMean(sp.members, t.members, round)
  {
    hide StringOf, LiteralOf, Exact;
  }

  // ---- Arrays ----

  lemma EmptySpelled(s: string, i: nat, nodes: nat, depth: nat, lim: Limits, inside: string)
    requires Blank(inside)
    ensures At(s, i, "[" + (inside + "]")) ==> i + |inside| + 2 <= |s| && ParseArray(s, i, nodes, depth, lim) == Ok(TArr([]), i + |inside| + 2, nodes)
    ensures At(s, i, "{" + (inside + "}")) ==> i + |inside| + 2 <= |s| && ParseObject(s, i, nodes, depth, lim) == Ok(TObj([]), i + |inside| + 2, nodes)
  {
    if At(s, i, "[" + (inside + "]")) { OpenBlank(s, i, "[", inside, "]"); }
    if At(s, i, "{" + (inside + "}")) { OpenBlank(s, i, "{", inside, "}"); }
    hide ParseItems, ParseMembers;
  }

  /** Past an opening bracket and blanks. */
  lemma OpenBlank(s: string, i: nat, open: string, b: string, rest: string)
    requires Blank(b) && |open| == 1 && rest != "" && !IsWs(rest[0]) && At(s, i, open + (b + rest))
    ensures i + 1 + |b| < |s| && SkipWs(s, i + 1) == i + 1 + |b| && s[i + 1 + |b|] == rest[0] && At(s, i + 1 + |b|, rest)
  {
    AtSplit(s, i, open, b + rest);
    AtSplit(s, i + 1, b, rest);
    AtFirst(s, i + 1 + |b|, rest);
    SkipsBlank(s, i + 1, b);
  }

  lemma OpensItems(s: string, i: nat, j: nat, nodes: nat, depth: nat, lim: Limits)
    requires i < |s| && SkipWs(s, i + 1) == j < |s| && s[j] != ']'
    ensures ParseArray(s, i, nodes, depth, lim) == ParseItems(s, j, nodes, depth, [], lim)
  {
    hide ParseItems;
  }

  lemma OpensMembers(s: string, i: nat, j: nat, nodes: nat, depth: nat, lim: Limits)
    requires i < |s| && SkipWs(s, i + 1) == j < |s| && s[j] != '}'
    ensures ParseObject(s, i, nodes, depth, lim) == ParseMembers(s, j, nodes, depth, [], lim)
  {
    hide ParseMembers;
  }

  lemma ArrayParts(sp: Spelled, t: Tree, nodes: nat, depth: nat, lim: Limits)
    requires sp.SArr? && Valid(sp) && t.TArr? && Fits(t, nodes, depth, lim)
    ensures Blank(sp.inside) && ItemsValid(sp.items) && ItemsFit(t.items, nodes + 1, depth + 1, lim)
  {
    hide Blank, Count;
    assert Count(t) == 1 + CountItems(t.items) by { CountIs(t); }
  }

  lemma CountIs(t: Tree)
    ensures t.TArr? ==> Count(t) == 1 + CountItems(t.items)
    ensures t.TObj? ==> Count(t) == 1 + CountMembers(t.members)
  {}

  lemma ItemsStart(items: seq<Item>)
    requires items != [] && ItemsValid(items)
    ensures ItemsText(items) != "" && !IsWs(ItemsText(items)[0]) && ItemsText(items)[0] != ']'
  {
    hide TextOf;
    StartsWith(items[0].value);
    NotBlank(items[0].value, TextOf(items[0].value)[0]);
  }

  lemma {:induction false} ArraySpelled(sp: Spelled, t: Tree, s: string, i: nat, nodes: nat, depth: nat, lim: Limits, w: string)
    requires sp.SArr? && Valid(sp) && Means(sp, t, lim.round) && Fits(t, nodes, depth, lim) && w == TextOf(sp) && At(s, i, w)
    ensures i + |w| <= |s| && ParseArray(s, i, nodes + 1, depth, lim) == Ok(t, i + |w|, nodes + Count(t))
    decreases sp, 0
  {
    hide *;
    LeafCount(sp, t, lim.round);
    ArrayParts(sp, t, nodes, depth, lim);
    AtBounds(s, i, w);
    ArrayText(sp);
    if sp.items == [] {
      NoItems(sp.items, t.items, lim.round);
      EmptySpelled(s, i, nodes + 1, depth, lim, sp.inside);
    } else {
      var b, rest := sp.items[0].before, ItemsText(sp.items);
      ItemsStart(sp.items);
      FirstItem(sp.items, t.items, nodes + 1, depth + 1, lim);
      OpenBlank(s, i, "[", b, rest);
      OpensItems(s, i, i + 1 + |b|, nodes + 1, depth, lim);
      assert "" + rest == rest && [] + t.items == t.items;
      NoBlank();
      ItemsSpelled(sp.items, t.items, s, i + 1 + |b|, nodes + 1, depth, [], lim, "", rest);
    }
  }

  lemma ArrayText(sp: Spelled)
    ensures sp.SArr? ==> TextOf(sp) == if sp.items == [] then "[" + (sp.inside + "]") else "[" + (sp.items[0].before + ItemsText(sp.items))
    ensures sp.SObj? ==> TextOf(sp) == if sp.members == [] then "{" + (sp.inside + "}") else "{" + (sp.members[0].before + EntriesText(sp.members))
  {
    hide ItemsText, EntriesText;
  }

  lemma NoBlank()
    ensures Blank("")
  {}

  lemma NoItems(items: seq<Item>, ts: seq<Tree>, round: Number -> Option<Number>)
    requires ItemsMean(items, ts, round) && items == []
    ensures ts == [] && CountItems(ts) == 0
  {}

  /** A value with what follows it up to the next comma or bracket. */
  lemma ItemReads(sp: Spelled, t: Tree, s: string, i: nat, nodes: nat, depth: nat, acc: seq<Tree>, lim: Limits, w: string, after: string, n: nat)
    requires i + |w| <= |s| && ParseValue(s, i, nodes, depth + 1, lim) == Ok(t, i + |w|, nodes + Count(t))
    requires Blank(after) && At(s, i + |w|, after) && n == i + |w| + |after| && (CharAt(s, n, ',') || CharAt(s, n, ']'))
    ensures ParseItems(s, i, nodes, depth, acc, lim)
            == if s[n] == ',' then ParseItems(s, n + 1, nodes + Count(t), depth, acc + [t], lim) else Ok(TArr(acc + [t]), n + 1, nodes + Count(t))
  {
    hide ParseValue, Count, At, Blank, SkipWs;
    SeparatorHere(s, n);
    SkipsBlank(s, i + |w|, after);
  }

  /** Blanks or a closing token end a number. */
  lemma EndsThere(s: string, i: nat, after: string, tail: string)
    requires Blank(after) && At(s, i, after) && At(s, i + |after|, tail) && tail != "" && tail[0] in ",]}"
    ensures Delimited(s, i) && CharAt(s, i + |after|, tail[0]) && !IsWs(tail[0])
  {
    AtFirst(s, i + |after|, tail);
    if after != "" { AtFirst(s, i, after); }
  }

  lemma {:induction false} ItemsSpelled(items: seq<Item>, ts: seq<Tree>, s: string, i: nat, nodes: nat, depth: nat, acc: seq<Tree>, lim: Limits, b: string, p: string)
    requires items != [] && ItemsValid(items) && ItemsMean(items, ts, lim.round) && ItemsFit(ts, nodes, depth + 1, lim)
    requires Blank(b) && p == ItemsText(items) && At(s, i, b + p)
    ensures i + |b| + |p| <= |s|
    ensures ParseItems(s, i, nodes, depth, acc, lim) == Ok(TArr(acc + ts), i + |b| + |p|, nodes + CountItems(ts))
    decreases items, 0
  {
    hide *;
    SameLength(items, ts, lim.round);
    var item, t := items[0], ts[0];
    var w, tail := TextOf(item.value), ItemsTail(items);
    ItemsTextIs(items);
    FirstItem(items, ts, nodes, depth + 1, lim);
    ItemSplit(s, i, b, w, item.after, tail);
    var at := i + |b|;
    var n := at + |w| + |item.after|;
    EndsThere(s, at + |w|, item.after, tail);
    ItemFirst(item, s, at, w);
    ValueSpelled(item.value, t, s, at, nodes, depth + 1, lim, w);
    AfterItem(s, i, b, nodes, depth, acc, lim);
    CharThere(s, n, tail[0]);
    ItemReads(item.value, t, s, at, nodes, depth, acc, lim, w, item.after, n);
    if |items| == 1 {
      AllItems(acc, ts);
    } else {
      var b', q := items[1].before, ItemsText(items[1..]);
      JsonRoundTrip.AtAfter(s, n, tail, b' + q);
      ItemsSpelled(items[1..], ts[1..], s, n + 1, nodes + Count(t), depth, acc + [t], lim, b', q);
      AllItems(acc, ts);
    }
  }

  lemma AllItems(acc: seq<Tree>, ts: seq<Tree>)
    requires ts != []
    ensures acc + [ts[0]] + ts[1..] == acc + ts && CountItems(ts) == Count(ts[0]) + CountItems(ts[1..])
    ensures |ts| == 1 ==> acc + [ts[0]] == acc + ts && CountItems(ts) == Count(ts[0])
  {
    hide Count;
    Shift(acc, ts);
    if |ts| == 1 {
      JsonRoundTrip.NoMembers();
      assert ts[1..] == [];
    }
  }

  lemma Shift<T>(acc: seq<T>, ts: seq<T>)
    requires ts != []
    ensures acc + [ts[0]] + ts[1..] == acc + ts
    ensures |ts| == 1 ==> acc + [ts[0]] == acc + ts
  {
    assert ts == [ts[0]] + ts[1..];
  }

  /** Where the parts of an item stand. */
  lemma ItemSplit(s: string, i: nat, b: string, w: string, after: string, tail: string)
    requires At(s, i, b + (w + (after + tail)))
    ensures var x := i + |b|;
            && At(s, i, b) && At(s, x, w) && At(s, x + |w|, after) && At(s, x + |w| + |after|, tail)
            && x + |w| + |after| + |tail| <= |s|
  {
    hide At;
    AtSplit(s, i, b, w + (after + tail));
    AtSplit(s, i + |b|, w, after + tail);
    AtSplit(s, i + |b| + |w|, after, tail);
    AtBounds(s, i + |b| + |w| + |after|, tail);
  }

  lemma ItemsTextIs(items: seq<Item>)
    requires items != []
    ensures ItemsText(items) == TextOf(items[0].value) + (items[0].after + ItemsTail(items))
    ensures ItemsTail(items) == if |items| == 1 then "]" else "," + (items[1].before + ItemsText(items[1..]))
    ensures ItemsTail(items) != "" && ItemsTail(items)[0] in ",]" && (ItemsTail(items)[0] == ',' <==> |items| > 1)
  {
    hide TextOf;
  }

  lemma EntriesTextIs(es: seq<Entry>)
    requires es != []
    ensures EntriesText(es) == StringText(es[0].key) + (es[0].mid + (":" + (es[0].gap + (TextOf(es[0].value) + (es[0].after + EntriesTail(es))))))
    ensures EntriesTail(es) == if |es| == 1 then "}" else "," + (es[1].before + EntriesText(es[1..]))
    ensures EntriesTail(es) != "" && EntriesTail(es)[0] in ",}" && (EntriesTail(es)[0] == ',' <==> |es| > 1)
  {
    hide TextOf, StringText;
  }

  lemma CharThere(s: string, n: nat, c: char)
    requires CharAt(s, n, c)
    ensures n < |s| && s[n] == c
  {}

  lemma SameLength(items: seq<Item>, ts: seq<Tree>, round: Number -> Option<Number>)
    requires ItemsMean(items, ts, round)
    ensures |ts| == |items|
  {}

  lemma ItemFirst(item: Item, s: string, at: nat, w: string)
    requires Valid(item.value) && w == TextOf(item.value) && At(s, at, w)
    ensures at < |s| && !IsWs(s[at])
  {
    StartsWith(item.value);
    NotBlank(item.value, w[0]);
    AtFirst(s, at, w);
  }

  lemma AfterItem(s: string, i: nat, b: string, nodes: nat, depth: nat, acc: seq<Tree>, lim: Limits)
    requires Blank(b) && At(s, i, b) && i + |b| < |s| && !IsWs(s[i + |b|])
    ensures ParseItems(s, i, nodes, depth, acc, lim) == ParseItems(s, i + |b|, nodes, depth, acc, lim)
  {
    hide ParseValue, At, Blank;
    AfterBlank(s, i, b, nodes, depth + 1, lim);
  }

  // ---- Objects ----

  lemma ObjectParts(sp: Spelled, t: Tree, nodes: nat, depth: nat, lim: Limits)
    requires sp.SObj? && Valid(sp) && t.TObj? && Fits(t, nodes, depth, lim)
    ensures Blank(sp.inside) && EntriesValid(sp.members) && MembersFit(t.members, nodes + 1, depth + 1, lim) && DistinctKeys(t.members)
  {
    hide Blank, Count, ValidPieces;
    CountIs(t);
  }

  lemma NoEntries(es: seq<Entry>, ms: seq<Member>, round: Number -> Option<Number>)
    requires EntriesMean(es, ms, round) && es == []
    ensures ms == [] && CountMembers(ms) == 0
  {}

  lemma EntriesStart(es: seq<Entry>)
    requires es != []
    ensures EntriesText(es) != "" && EntriesText(es)[0] == '"' && !IsWs(EntriesText(es)[0])
  {
    hide TextOf, PiecesText;
  }

  lemma {:induction false} ObjectSpelled(sp: Spelled, t: Tree, s: string, i: nat, nodes: nat, depth: nat, lim: Limits, w: string)
    requires sp.SObj? && Valid(sp) && Means(sp, t, lim.round) && Fits(t, nodes, depth, lim) && w == TextOf(sp) && At(s, i, w)
    ensures i + |w| <= |s| && ParseObject(s, i, nodes + 1, depth, lim) == Ok(t, i + |w|, nodes + Count(t))
    decreases sp, 0
  {
    hide *;
    LeafCount(sp, t, lim.round);
    ObjectParts(sp, t, nodes, depth, lim);
    AtBounds(s, i, w);
    ArrayText(sp);
    if sp.members == [] {
      NoEntries(sp.members, t.members, lim.round);
      EmptySpelled(s, i, nodes + 1, depth, lim, sp.inside);
    } else {
      var b, rest := sp.members[0].before, EntriesText(sp.members);
      EntriesStart(sp.members);
      FirstEntry(sp.members, t.members, nodes + 1, depth + 1, lim);
      EntryParts(sp.members[0]);
      OpenBlank(s, i, "{", b, rest);
      OpensMembers(s, i, i + 1 + |b|, nodes + 1, depth, lim);
      assert "" + rest == rest && [] + t.members == t.members;
      NoBlank();
      EntriesSpelled(sp.members, t.members, s, i + 1 + |b|, nodes + 1, depth, [], lim, "", rest);
    }
  }

  lemma EntryParts(e: Entry)
    requires EntryValid(e)
    ensures Blank(e.before) && ValidPieces(e.key) && Blank(e.mid) && Blank(e.gap) && Valid(e.value) && Blank(e.after)
  {}

  /** Key, colon and value, the value being read. */
  lemma EntryReads(s: string, i: nat, b: string, nodes: nat, depth: nat, acc: seq<Member>, lim: Limits, key: seq<Piece>, k: string, mid: string, at: nat, t: Tree, n: nat, nodes': nat)
    requires Blank(b) && At(s, i, b) && ValidPieces(key) && k == StringText(key) && At(s, i + |b|, k) && !HasKey(acc, StringOf(key))
    requires Blank(mid) && At(s, i + |b| + |k|, mid) && at == i + |b| + |k| + |mid| && CharAt(s, at, ':')
    requires ParseValue(s, at + 1, nodes, depth + 1, lim) == Ok(t, n, nodes')
    ensures i <= |s| && ParseEntry(s, i, nodes, depth, acc, lim) == Ok(Member(StringOf(key), t), n, nodes')
  {
    hide ParseValue, ReadString, HasKey, StringText, StringOf, At, Blank, SkipWs;
    StringSpelled(s, i + |b|, key, k);
    QuoteHere(s, i + |b|);
    ColonHere(s, at);
    SkipsBlank(s, i, b);
    SkipsBlank(s, i + |b| + |k|, mid);
  }

  lemma QuoteHere(s: string, i: nat)
    requires i < |s| && s[i] == '"'
    ensures CharAt(s, i, '"') && !IsWs(s[i])
  {}

  lemma ColonHere(s: string, i: nat)
    requires CharAt(s, i, ':')
    ensures i < |s| && !IsWs(s[i])
  {}

  lemma EntryThen(s: string, i: nat, nodes: nat, depth: nat, acc: seq<Member>, lim: Limits, m: Member, n: nat, nodes': nat, after: string, e: nat)
    requires i <= |s| && ParseEntry(s, i, nodes, depth, acc, lim) == Ok(m, n, nodes')
    requires n <= |s| && Blank(after) && At(s, n, after) && e == n + |after| && (CharAt(s, e, ',') || CharAt(s, e, '}'))
    ensures ParseMembers(s, i, nodes, depth, acc, lim)
            == if s[e] == ',' then ParseMembers(s, e + 1, nodes', depth, acc + [m], lim) else Ok(TObj(acc + [m]), e + 1, nodes')
  {
    hide ParseEntry, At, Blank, SkipWs, HasKey;
    SeparatorHere(s, e);
    SkipsBlank(s, n, after);
  }

  /** Where the parts of an entry stand. */
  lemma EntrySplit(s: string, i: nat, b: string, k: string, mid: string, gap: string, w: string, after: string, tail: string)
    requires At(s, i, b + (k + (mid + (":" + (gap + (w + (after + tail)))))))
    ensures var x := i + |b|; var y := x + |k| + |mid|; var z := y + 1 + |gap|;
            && At(s, i, b) && At(s, x, k) && At(s, x + |k|, mid) && At(s, y, ":") && At(s, y + 1, gap)
            && At(s, z, w) && At(s, z + |w|, after) && At(s, z + |w| + |after|, tail) && z + |w| + |after| + |tail| <= |s|
  {
    var x := i + |b|;
    var y := x + |k| + |mid|;
    hide At;
    AtSplit(s, i, b, k + (mid + (":" + (gap + (w + (after + tail))))));
    AtSplit(s, x, k, mid + (":" + (gap + (w + (after + tail)))));
    AtSplit(s, x + |k|, mid, ":" + (gap + (w + (after + tail))));
    AtSplit(s, y, ":", gap + (w + (after + tail)));
    AtSplit(s, y + 1, gap, w + (after + tail));
    AtSplit(s, y + 1 + |gap|, w, after + tail);
    AtSplit(s, y + 1 + |gap| + |w|, after, tail);
    AtBounds(s, y + 1 + |gap| + |w| + |after|, tail);
  }

  lemma SameEntries(es: seq<Entry>, ms: seq<Member>, round: Number -> Option<Number>)
    requires EntriesMean(es, ms, round)
    ensures |ms| == |es|
  {}

  lemma {:induction false} EntriesSpelled(es: seq<Entry>, ms: seq<Member>, s: string, i: nat, nodes: nat, depth: nat, acc: seq<Member>, lim: Limits, b: string, p: string)
    requires es != [] && EntriesValid(es) && EntriesMean(es, ms, lim.round) && MembersFit(ms, nodes, depth + 1, lim) && DistinctKeys(acc + ms)
    requires Blank(b) && p == EntriesText(es) && At(s, i, b + p)
    ensures i + |b| + |p| <= |s|
    ensures ParseMembers(s, i, nodes, depth, acc, lim) == Ok(TObj(acc + ms), i + |b| + |p|, nodes + CountMembers(ms))
    decreases es, 0
  {
    hide *;
    SameEntries(es, ms, lim.round);
    var e, m := es[0], ms[0];
    var k, w, tail := StringText(e.key), TextOf(e.value), EntriesTail(es);
    EntriesTextIs(es);
    FirstEntry(es, ms, nodes, depth + 1, lim);
    EntryParts(e);
    EntrySplit(s, i, b, k, e.mid, e.gap, w, e.after, tail);
    var y := i + |b| + |k| + |e.mid|;
    var z := y + 1 + |e.gap|;
    var n := z + |w| + |e.after|;
    EndsThere(s, z + |w|, e.after, tail);
    ItemFirst(Item("", e.value, ""), s, z, w);
    ValueSpelled(e.value, m.value, s, z, nodes, depth + 1, lim, w);
    AfterBlank(s, y + 1, e.gap, nodes, depth + 1, lim);
    JsonRoundTrip.FreshKey(acc, ms);
    ColonAt(s, y);
    EntryReads(s, i, b, nodes, depth, acc, lim, e.key, k, e.mid, y, m.value, z + |w|, nodes + Count(m.value));
    assert Member(m.key, m.value) == m;
    CharThere(s, n, tail[0]);
    EntryThen(s, i, nodes, depth, acc, lim, m, z + |w|, nodes + Count(m.value), e.after, n);
    if |es| == 1 {
      assert ms == [m] && ms[1..] == [];
      JsonRoundTrip.NoMembers();
    } else {
      var b', q := es[1].before, EntriesText(es[1..]);
      JsonRoundTrip.AtAfter(s, n, tail, b' + q);
      assert acc + [m] + ms[1..] == acc + ms;
      EntryParts(es[1]);
      EntriesSpelled(es[1..], ms[1..], s, n + 1, nodes + Count(m.value), depth, acc + [m], lim, b', q);
    }
  }

  lemma ColonAt(s: string, y: nat)
    requires At(s, y, ":")
    ensures CharAt(s, y, ':')
  {}

  // ---- Whole texts ----

  /** Every text that spells a value within the limits, with blanks around it, is read as exactly
      that value, and exactly its nodes are counted. */
  lemma SpellingsParse(sp: Spelled, t: Tree, before: string, after: string, text: string, lim: Limits)
    requires Valid(sp) && Blank(before) && Blank(after) && Means(sp, t, lim.round) && text == before + (TextOf(sp) + after)
    requires Fits(t, 0, 0, lim) && ByteLength(text) <= lim.maxBytes
    ensures ParseText(text, lim) == Ok(t, |text|, Count(t))
  {
    hide *;
    var w := TextOf(sp);
    AtSelf(text);
    AtSplit(text, 0, before, w + after);
    AtSplit(text, |before|, w, after);
    ItemFirst(Item("", sp, ""), text, |before|, w);
    BlankEnds(text, |before| + |w|, after);
    SkipsBlank(text, 0, before);
    SkipsBlank(text, |before| + |w|, after);
    ValueSpelled(sp, t, text, |before|, 0, 0, lim, w);
    Whole(text, t, |before| + |w|, Count(t), lim);
  }

  lemma BlankEnds(s: string, i: nat, after: string)
    requires Blank(after) && At(s, i, after) && i + |after| == |s|
    ensures Delimited(s, i)
  {
    if after != "" { AtFirst(s, i, after); }
  }

  lemma Whole(text: string, t: Tree, n: nat, nodes: nat, lim: Limits)
    requires ByteLength(text) <= lim.maxBytes && ParseValue(text, SkipWs(text, 0), 0, 0, lim) == Ok(t, n, nodes) && n <= |text|
    requires SkipWs(text, n) == |text|
    ensures ParseText(text, lim) == Ok(t, |text|, nodes)
  {
    hide ParseValue;
  }
}
