/** Every text the parser accepts spells the value it gives: with `JsonSpelling` the accepted texts
    and their values are exactly those of RFC 8259 within the limits. */
module JsonAccepted {
  import opened Text
  import opened Utf16
  import opened JsNumber
  import opened JsonTree
  import opened JsonParser
  import opened JsonSpelling

  lemma {:induction false} SkippedBlank(s: string, i: nat)
    requires i <= |s|
    ensures Blank(s[i..SkipWs(s, i)])
    decreases |s| - i
  {
    if i < |s| && IsWs(s[i]) {
      SkippedBlank(s, i + 1);
      assert s[i..SkipWs(s, i)] == [s[i]] + s[i + 1..SkipWs(s, i)];
    }
  }

  lemma Glue(s: string, i: nat, j: nat, k: nat)
    requires i <= j <= k <= |s|
    ensures s[i..k] == s[i..j] + s[j..k]
  {}

  lemma BlankBoth(a: string, b: string)
    requires Blank(a) && Blank(b)
    ensures Blank(a + b)
  {}

  // ---- Strings ----

  lemma DigitFor(c: char) returns (d: Digit)
    requires IsHex(c)
    ensures DigitText(d) == [c] && d.value == HexValue(c)
  {
    d := Digit(HexValue(c), 'A' <= c <= 'F');
    DigitReads(d);
    HexTable(c);
  }

  lemma HexTable(c: char)
    requires IsHex(c)
    ensures (if 'A' <= c <= 'F' then UPPER else LOWER)[HexValue(c)] == c
  {}

  lemma NameFor(c: char) returns (k: Name)
    requires SimpleEscape(c).Some?
    ensures NAMES[k] == c && [NAMED[k] as int] == EncodeChar(SimpleEscape(c).value)
  {
    k := if c == '"' then 0 else if c == '\\' then 1 else if c == '/' then 2 else if c == 'b' then 3
    else if c == 'f' then 4 else if c == 'n' then 5 else if c == 'r' then 6 else 7;
  }

  lemma CodedBack(s: string, i: nat) returns (p: Piece)
    requires i + 6 <= |s| && s[i] == '\\' && s[i + 1] == 'u' && Hex4(s, i + 2)
    ensures p.Coded? && PieceText(p) == s[i..i + 6] && PieceUnits(p) == [Hex4Value(s, i + 2)]
  {
    var a := DigitFor(s[i + 2]);
    var b := DigitFor(s[i + 3]);
    var c := DigitFor(s[i + 4]);
    var d := DigitFor(s[i + 5]);
    hide DigitText, HexValue;
    p := Coded(a, b, c, d);
    assert s[i..i + 6] == ['\\', 'u', s[i + 2], s[i + 3], s[i + 4], s[i + 5]];
  }

  /** The piece at `i`, which is no quote, and where it ends. */
  lemma PieceBack(s: string, i: nat) returns (p: Piece, n: nat)
    requires i < |s| && s[i] != '"' && ScanUnits(s, i).Some?
    ensures ValidPiece(p) && i < n <= |s| && s[i..n] == PieceText(p) && ScanUnits(s, i) == Prepend(PieceUnits(p), ScanUnits(s, n))
  {
    if s[i] != '\\' {
      p, n := Raw(s[i]), i + 1;
    } else if s[i + 1] == 'u' {
      p := CodedBack(s, i);
      n := i + 6;
      hide PieceText, PieceUnits, Hex4, Hex4Value;
    } else {
      var k := NameFor(s[i + 1]);
      p, n := Named(k), i + 2;
      hide SimpleEscape, EncodeChar;
    }
  }

  lemma {:induction false} PiecesBack(s: string, i: nat) returns (ps: seq<Piece>)
    requires i <= |s| && ScanUnits(s, i).Some?
    ensures var (us, end) := ScanUnits(s, i).value; ValidPieces(ps) && Units(ps) == us && s[i..end] == PiecesText(ps) + "\""
    decreases |s| - i
  {
    if s[i] == '"' {
      ps := [];
    } else {
      var p, n := PieceBack(s, i);
      hide ScanUnits, PieceText, PieceUnits, ValidPiece;
      var rest := PiecesBack(s, n);
      ps := [p] + rest;
      assert ps[1..] == rest;
      Glue(s, i, n, ScanUnits(s, i).value.1);
    }
  }

  lemma StringBack(s: string, i: nat) returns (ps: seq<Piece>)
    requires i < |s| && s[i] == '"' && ReadString(s, i + 1).Some?
    ensures var (str, end) := ReadString(s, i + 1).value; ValidPieces(ps) && StringOf(ps) == str && s[i..end] == StringText(ps)
  {
    ps := PiecesBack(s, i + 1);
    hide ScanUnits, Units, PiecesText, Decode;
    Glue(s, i, i + 1, ReadString(s, i + 1).value.1);
    assert s[i..i + 1] == "\"";
  }

  // ---- Numbers ----

  lemma SliceDigits(s: string, i: nat)
    requires i <= |s|
    ensures AllDigits(s[i..DigitRun(s, i)]) && (DigitAt(s, i) ==> s[i..DigitRun(s, i)] != "")
  {
    DigitRunDigits(s, i);
  }

  lemma WholeBack(s: string, a: nat)
    requires a <= |s| && ScanWhole(s, a).Some?
    ensures var w := s[a..ScanWhole(s, a).value]; w != "" && AllDigits(w) && (w[0] == '0' ==> w == "0")
  {
    SliceDigits(s, a);
  }

  lemma FractionBack(s: string, b: nat)
    requires b <= |s| && ScanFraction(s, b).Some?
    ensures var c := ScanFraction(s, b).value; var f := if c == b then "" else s[b + 1..c]; AllDigits(f) && s[b..c] == FracText(f)
  {
    if CharAt(s, b, '.') {
      SliceDigits(s, b + 1);
      var c := ScanFraction(s, b).value;
      hide DigitRun;
      Glue(s, b, b + 1, c);
      assert s[b..b + 1] == ".";
    }
  }

  lemma PowerBack(s: string, c: nat) returns (p: Option<Power>)
    requires c <= |s| && ScanExponent(s, c).Some?
    ensures var e := ScanExponent(s, c).value;
            (p.Some? ==> ValidPower(p.value)) && PowerText(p) == s[c..e] && ExponentValue(s, c, e) == PowerOf(p)
  {
    var e := ScanExponent(s, c).value;
    if e == c {
      p := None;
    } else {
      var at := ExponentDigits(s, c);
      SliceDigits(s, at);
      hide DigitRun, ToNat, AllDigits;
      var sign := s[c + 1..at];
      p := Some(Power(s[c], sign, s[at..e]));
      Glue(s, c, c + 1, e);
      Glue(s, c + 1, at, e);
      assert s[c..c + 1] == [s[c]];
      assert at == c + 1 ==> sign == "";
      assert at == c + 2 ==> sign == [s[c + 1]];
    }
  }

  lemma UnsignedBack(s: string, a: nat, negative: bool) returns (n: Numeral)
    requires a <= |s| && ScanUnsigned(s, a, negative).Some?
    ensures var (lit, e) := ScanUnsigned(s, a, negative).value;
            ValidNumeral(n) && n.negative == negative && LiteralOf(n) == lit && UnsignedOf(n) == s[a..e]
  {
    var b := ScanWhole(s, a).value;
    var c := ScanFraction(s, b).value;
    var e := ScanExponent(s, c).value;
    WholeBack(s, a);
    FractionBack(s, b);
    var p := PowerBack(s, c);
    hide ScanWhole, ScanFraction, ScanExponent, ExponentValue, AllDigits, FracText, PowerText, PowerOf, ValidPower;
    var frac := if c == b then "" else s[b + 1..c];
    n := Numeral(negative, s[a..b], frac, p);
    Glue(s, b, c, e);
    Glue(s, a, b, e);
  }

  lemma NumeralBack(s: string, i: nat) returns (n: Numeral)
    requires i <= |s| && ReadNumber(s, i).Some?
    ensures var (x, e) := ReadNumber(s, i).value;
            ValidNumeral(n) && WellFormed(LiteralOf(n)) && Exact(LiteralOf(n)) == x && NumeralText(n) == s[i..e]
  {
    hide ScanUnsigned, UnsignedOf, LiteralOf, Exact, ValidNumeral;
    ScanWellFormed(s, i);
    if CharAt(s, i, '-') {
      n := UnsignedBack(s, i + 1, true);
      Glue(s, i, i + 1, ReadNumber(s, i).value.1);
      assert s[i..i + 1] == "-";
    } else {
      n := UnsignedBack(s, i, false);
    }
  }

  // ---- Values ----

  /** What a value read at `i` is: a blank, a spelling, and its tree. */
  ghost predicate SpeltAt(s: string, i: nat, n: nat, b: string, sp: Spelled, t: Tree, nodes: nat, nodes': nat, depth: nat, lim: Limits) {
    && i <= n <= |s| && Blank(b) && Valid(sp) && s[i..n] == b + TextOf(sp) && Means(sp, t, lim.round)
    && Keyed(t) && WithinDepth(t, depth, lim.maxDepth) && nodes' == nodes + Count(t) && nodes' <= lim.maxNodes
  }

  lemma WordBack(s: string, j: nat, nodes: nat) returns (sp: Spelled)
    requires j <= |s| && ParseWord(s, j, nodes).Ok?
    ensures var r := ParseWord(s, j, nodes);
            && (sp.SNull? || sp.SBool?) && s[j..r.next] == TextOf(sp) && r.nodes == nodes
            && r.value == if sp.SNull? then TNull else TBool(sp.b)
  {
    AtSlice(s, j, "true");
    AtSlice(s, j, "false");
    AtSlice(s, j, "null");
    sp := if At(s, j, "true") then SBool(true) else if At(s, j, "false") then SBool(false) else SNull;
  }

  /** A leaf spelt at `j`. */
  lemma LeafSpelt(s: string, i: nat, j: nat, n: nat, sp: Spelled, t: Tree, nodes: nat, depth: nat, lim: Limits)
    requires i <= j <= n <= |s| && Blank(s[i..j]) && s[j..n] == TextOf(sp) && Valid(sp) && Means(sp, t, lim.round)
    requires !sp.SArr? && !sp.SObj? && depth <= lim.maxDepth && nodes + 1 <= lim.maxNodes
    ensures SpeltAt(s, i, n, s[i..j], sp, t, nodes, nodes + 1, depth, lim)
  {
    Glue(s, i, j, n);
    hide Blank, TextOf, Valid;
  }

  lemma {:induction false} ValueBack(s: string, i: nat, nodes: nat, depth: nat, lim: Limits) returns (b: string, sp: Spelled)
    requires i <= |s| && ParseValue(s, i, nodes, depth, lim).Ok?
    ensures var r := ParseValue(s, i, nodes, depth, lim); SpeltAt(s, i, r.next, b, sp, r.value, nodes, r.nodes, depth, lim)
    decreases |s| - i, 3
  {
    var j, r := SkipWs(s, i), ParseValue(s, i, nodes, depth, lim);
    SkippedBlank(s, i);
    hide SkipWs, ReadString, ReadNumber, ParseWord, ParseArray, ParseObject, SpeltAt, Blank, TextOf, StringText, NumeralText;
    b := s[i..j];
    if s[j] == '{' {
      sp := ObjectBack(s, j, nodes + 1, depth, lim);
      WithBlank(s, i, j, r.next, sp, r.value, nodes, r.nodes, depth, lim);
    } else if s[j] == '[' {
      sp := ArrayBack(s, j, nodes + 1, depth, lim);
      WithBlank(s, i, j, r.next, sp, r.value, nodes, r.nodes, depth, lim);
    } else if s[j] == '"' {
      var ps := StringBack(s, j);
      sp := SStr(ps);
      SpeltString(ps, r.value, lim.round);
      LeafSpelt(s, i, j, r.next, sp, r.value, nodes, depth, lim);
    } else if s[j] == '-' || IsDigit(s[j]) {
      var n := NumeralBack(s, j);
      sp := SNum(n);
      SpeltNumber(n, r.value, lim.round);
      LeafSpelt(s, i, j, r.next, sp, r.value, nodes, depth, lim);
    } else {
      sp := WordBack(s, j, nodes + 1);
      SpeltWord(sp, r.value, lim.round);
      LeafSpelt(s, i, j, r.next, sp, r.value, nodes, depth, lim);
    }
  }

  lemma SpeltString(ps: seq<Piece>, t: Tree, round: Number -> Option<Number>)
    requires ValidPieces(ps) && t == TStr(StringOf(ps))
    ensures Valid(SStr(ps)) && Means(SStr(ps), t, round) && TextOf(SStr(ps)) == StringText(ps)
  {}

  lemma SpeltNumber(n: Numeral, t: Tree, round: Number -> Option<Number>)
    requires ValidNumeral(n) && WellFormed(LiteralOf(n)) && t.TNum? && round(Exact(LiteralOf(n))) == Some(t.n)
    ensures Valid(SNum(n)) && Means(SNum(n), t, round) && TextOf(SNum(n)) == NumeralText(n)
  {}

  lemma SpeltWord(sp: Spelled, t: Tree, round: Number -> Option<Number>)
    requires (sp.SNull? || sp.SBool?) && t == if sp.SNull? then TNull else TBool(sp.b)
    ensures Valid(sp) && Means(sp, t, round)
  {}

  /** An array or object spelt at `j`, one node less counted before it. */
  lemma WithBlank(s: string, i: nat, j: nat, n: nat, sp: Spelled, t: Tree, nodes: nat, nodes': nat, depth: nat, lim: Limits)
    requires i <= j && j <= n && n <= |s| && Blank(s[i..j]) && SpeltAt(s, j, n, "", sp, t, nodes, nodes', depth, lim)
    ensures SpeltAt(s, i, n, s[i..j], sp, t, nodes, nodes', depth, lim)
  {
    hide Blank, TextOf, Valid, Means, Keyed, WithinDepth, Count;
    Glue(s, i, j, n);
  }

  // ---- Arrays ----

  lemma {:induction false} ArrayBack(s: string, i: nat, nodes: nat, depth: nat, lim: Limits) returns (sp: Spelled)
    requires i < |s| && s[i] == '[' && ParseArray(s, i, nodes, depth, lim).Ok? && 1 <= nodes <= lim.maxNodes && depth <= lim.maxDepth
    ensures var r := ParseArray(s, i, nodes, depth, lim); SpeltAt(s, i, r.next, "", sp, r.value, nodes - 1, r.nodes, depth, lim)
    decreases |s| - i, 2
  {
    var j, r := SkipWs(s, i + 1), ParseArray(s, i, nodes, depth, lim);
    SkippedBlank(s, i + 1);
    hide SkipWs, ParseItems, SpeltAt, Blank;
    Glue(s, i, i + 1, r.next);
    assert s[i..i + 1] == "[";
    Glue(s, i + 1, j, r.next);
    if CharAt(s, j, ']') {
      sp := SArr([], s[i + 1..j]);
      EmptyArray(s, i, j, nodes, depth, lim);
    } else {
      var b, items, ts := ItemsBack(s, j, nodes, depth, [], lim, s[i + 1..j]);
      sp := SArr(items, "");
      assert [] + ts == ts;
      ArrayIs(s, i, j, r.next, b, items, ts, nodes, r.nodes, depth, lim);
    }
  }

  lemma EmptyArray(s: string, i: nat, j: nat, nodes: nat, depth: nat, lim: Limits)
    requires i + 1 <= j < |s| && s[i] == '[' && s[j] == ']' && Blank(s[i + 1..j]) && 1 <= nodes <= lim.maxNodes && depth <= lim.maxDepth
    ensures SpeltAt(s, i, j + 1, "", SArr([], s[i + 1..j]), TArr([]), nodes - 1, nodes, depth, lim)
  {
    hide Blank;
    assert s[i..j + 1] == "[" + (s[i + 1..j] + "]");
    NoneAt();
  }

  lemma NoneAt()
    ensures Blank("") && CountItems([]) == 0 && CountMembers([]) == 0
  {}

  /** The items read from `i`: `b` before the first value, then their text. */
  ghost predicate ItemsAt(s: string, i: nat, n: nat, pre: string, b: string, items: seq<Item>, ts: seq<Tree>, nodes: nat, nodes': nat, depth: nat, lim: Limits) {
    && i <= n <= |s| && items != [] && Blank(b) && items[0].before == pre + b && ItemsValid(items)
    && s[i..n] == b + ItemsText(items) && ItemsMean(items, ts, lim.round) && ItemsFit(ts, nodes, depth, lim) && nodes' == nodes + CountItems(ts)
  }

  lemma ArrayIs(s: string, i: nat, j: nat, n: nat, b: string, items: seq<Item>, ts: seq<Tree>, nodes: nat, nodes': nat, depth: nat, lim: Limits)
    requires i + 1 <= j <= n <= |s| && s[i] == '[' && 1 <= nodes <= lim.maxNodes && depth <= lim.maxDepth
    requires ItemsAt(s, j, n, s[i + 1..j], b, items, ts, nodes, nodes', depth + 1, lim)
    ensures SpeltAt(s, i, n, "", SArr(items, ""), TArr(ts), nodes - 1, nodes', depth, lim)
  {
    hide Blank, ItemsText, Valid, Means, Keyed, WithinDepth, Count, CountItems;
    var pre := s[i + 1..j];
    assert s[i..n] == "[" + (pre + s[j..n]);
    assert pre + (b + ItemsText(items)) == (pre + b) + ItemsText(items);
    ArraySpelt(items, ts, depth, lim);
  }

  lemma ArraySpelt(items: seq<Item>, ts: seq<Tree>, depth: nat, lim: Limits)
    requires items != [] && ItemsValid(items) && ItemsMean(items, ts, lim.round) && depth <= lim.maxDepth
    requires forall i | 0 <= i < |ts| :: Keyed(ts[i]) && WithinDepth(ts[i], depth + 1, lim.maxDepth)
    ensures Blank("") && Valid(SArr(items, "")) && Means(SArr(items, ""), TArr(ts), lim.round)
    ensures Keyed(TArr(ts)) && WithinDepth(TArr(ts), depth, lim.maxDepth) && Count(TArr(ts)) == 1 + CountItems(ts)
    ensures TextOf(SArr(items, "")) == "[" + (items[0].before + ItemsText(items))
  {
    hide ItemsText, CountItems;
  }

  /** How the items go on after the first. */
  lemma ItemsUnfold(s: string, i: nat, nodes: nat, depth: nat, acc: seq<Tree>, lim: Limits)
    requires i <= |s| && ParseItems(s, i, nodes, depth, acc, lim).Ok?
    ensures ParseValue(s, i, nodes, depth + 1, lim).Ok?
    ensures var v, r := ParseValue(s, i, nodes, depth + 1, lim), ParseItems(s, i, nodes, depth, acc, lim);
            var m := SkipWs(s, v.next);
            && m < |s|
            && if s[m] == ',' then r == ParseItems(s, m + 1, v.nodes, depth, acc + [v.value], lim)
               else s[m] == ']' && r == Ok(TArr(acc + [v.value]), m + 1, v.nodes)
  {
    hide ParseValue, SkipWs;
  }

  lemma {:induction false} ItemsBack(s: string, i: nat, nodes: nat, depth: nat, acc: seq<Tree>, lim: Limits, pre: string)
    returns (b: string, items: seq<Item>, ts: seq<Tree>)
    requires i <= |s| && ParseItems(s, i, nodes, depth, acc, lim).Ok? && Blank(pre)
    ensures var r := ParseItems(s, i, nodes, depth, acc, lim);
            r.value == TArr(acc + ts) && ItemsAt(s, i, r.next, pre, b, items, ts, nodes, r.nodes, depth + 1, lim)
    decreases |s| - i, 4
  {
    hide *;
    ItemsUnfold(s, i, nodes, depth, acc, lim);
    var v, r := ParseValue(s, i, nodes, depth + 1, lim), ParseItems(s, i, nodes, depth, acc, lim);
    var sp;
    b, sp := ValueBack(s, i, nodes, depth + 1, lim);
    var m := SkipWs(s, v.next);
    SkippedBlank(s, v.next);
    var item := Item(pre + b, sp, s[v.next..m]);
    if s[m] == ',' {
      NoBlank();
      var b', rest, us := ItemsBack(s, m + 1, v.nodes, depth, acc + [v.value], lim, "");
      items, ts := [item] + rest, [v.value] + us;
      assert acc + [v.value] + us == acc + ts;
      MoreItems(s, i, v.next, m, r.next, pre, b, item, v.value, b', rest, us, nodes, v.nodes, r.nodes, depth + 1, lim);
    } else {
      items, ts := [item], [v.value];
      OneItem(s, i, v.next, m, pre, b, item, v.value, nodes, v.nodes, depth + 1, lim);
    }
  }

  lemma SpeltParts(s: string, i: nat, n: nat, b: string, sp: Spelled, t: Tree, nodes: nat, nodes': nat, depth: nat, lim: Limits)
    requires SpeltAt(s, i, n, b, sp, t, nodes, nodes', depth, lim)
    ensures i <= n <= |s| && Blank(b) && Valid(sp) && s[i..n] == b + TextOf(sp) && Means(sp, t, lim.round)
    ensures Keyed(t) && WithinDepth(t, depth, lim.maxDepth) && nodes' == nodes + Count(t) && nodes' <= lim.maxNodes
  {}

  lemma ItemsParts(s: string, i: nat, n: nat, pre: string, b: string, items: seq<Item>, ts: seq<Tree>, nodes: nat, nodes': nat, depth: nat, lim: Limits)
    requires ItemsAt(s, i, n, pre, b, items, ts, nodes, nodes', depth, lim)
    ensures i <= n <= |s| && items != [] && items[0].before == pre + b && ItemsValid(items) && s[i..n] == b + ItemsText(items)
    ensures ItemsMean(items, ts, lim.round) && ItemsFit(ts, nodes, depth, lim) && nodes' == nodes + CountItems(ts)
  {}

  /** A value, blanks, a separator and the rest. */
  lemma GlueTail(s: string, i: nat, n: nat, m: nat, e: nat, b: string, w: string)
    requires i <= n <= m < e <= |s| && s[i..n] == b + w
    ensures s[i..e] == b + (w + (s[n..m] + ([s[m]] + s[m + 1..e])))
  {
    assert s[i..e] == s[i..n] + (s[n..m] + ([s[m]] + s[m + 1..e]));
    Three(b, w, s[n..m] + ([s[m]] + s[m + 1..e]));
  }

  lemma Three(a: string, b: string, c: string)
    ensures (a + b) + c == a + (b + c)
  {}

  lemma ConsItems(item: Item, t: Tree, rest: seq<Item>, us: seq<Tree>, nodes: nat, nodes': nat, depth: nat, lim: Limits)
    requires Blank(item.before) && Blank(item.after) && Valid(item.value) && Means(item.value, t, lim.round)
    requires Keyed(t) && WithinDepth(t, depth, lim.maxDepth) && nodes' == nodes + Count(t) && nodes' <= lim.maxNodes
    requires ItemsValid(rest) && ItemsMean(rest, us, lim.round) && ItemsFit(us, nodes', depth, lim)
    ensures var items, ts := [item] + rest, [t] + us;
            && ItemsValid(items) && ItemsMean(items, ts, lim.round) && ItemsFit(ts, nodes, depth, lim)
            && nodes + CountItems(ts) == nodes' + CountItems(us)
  {
    hide Blank, Valid, Means, Keyed, WithinDepth, Count;
    assert ([t] + us)[1..] == us;
  }

  lemma NoMoreItems(nodes: nat, depth: nat, lim: Limits)
    requires nodes <= lim.maxNodes
    ensures ItemsValid([]) && ItemsMean([], [], lim.round) && ItemsFit([], nodes, depth, lim) && CountItems([]) == 0
  {}

  lemma ItemsMake(s: string, i: nat, n: nat, pre: string, b: string, items: seq<Item>, ts: seq<Tree>, nodes: nat, nodes': nat, depth: nat, lim: Limits)
    requires i <= n <= |s| && items != [] && Blank(b) && items[0].before == pre + b && ItemsValid(items) && s[i..n] == b + ItemsText(items)
    requires ItemsMean(items, ts, lim.round) && ItemsFit(ts, nodes, depth, lim) && nodes' == nodes + CountItems(ts)
    ensures ItemsAt(s, i, n, pre, b, items, ts, nodes, nodes', depth, lim)
  {}

  lemma OneItem(s: string, i: nat, n: nat, m: nat, pre: string, b: string, item: Item, t: Tree, nodes: nat, nodes': nat, depth: nat, lim: Limits)
    requires SpeltAt(s, i, n, b, item.value, t, nodes, nodes', depth, lim) && Blank(pre) && item.before == pre + b
    requires n <= m < |s| && item.after == s[n..m] && Blank(item.after) && s[m] == ']'
    ensures ItemsAt(s, i, m + 1, pre, b, [item], [t], nodes, nodes', depth, lim)
  {
    hide *;
    SpeltParts(s, i, n, b, item.value, t, nodes, nodes', depth, lim);
    BlankBoth(pre, b);
    NoMoreItems(nodes', depth, lim);
    ConsItems(item, t, [], [], nodes, nodes', depth, lim);
    assert [item] + [] == [item] && [t] + [] == [t];
    GlueTail(s, i, n, m, m + 1, b, TextOf(item.value));
    assert [s[m]] + s[m + 1..m + 1] == "]";
    ItemsTextIs([item]);
    ItemsMake(s, i, m + 1, pre, b, [item], [t], nodes, nodes', depth, lim);
  }

  lemma MoreItems(s: string, i: nat, n: nat, m: nat, e: nat, pre: string, b: string, item: Item, t: Tree, b': string, rest: seq<Item>, us: seq<Tree>, nodes: nat, nodes': nat, nodes'': nat, depth: nat, lim: Limits)
    requires SpeltAt(s, i, n, b, item.value, t, nodes, nodes', depth, lim) && Blank(pre) && item.before == pre + b
    requires n <= m < |s| && item.after == s[n..m] && Blank(item.after) && s[m] == ','
    requires ItemsAt(s, m + 1, e, "", b', rest, us, nodes', nodes'', depth, lim)
    ensures ItemsAt(s, i, e, pre, b, [item] + rest, [t] + us, nodes, nodes'', depth, lim)
  {
    hide *;
    SpeltParts(s, i, n, b, item.value, t, nodes, nodes', depth, lim);
    ItemsParts(s, m + 1, e, "", b', rest, us, nodes', nodes'', depth, lim);
    BlankBoth(pre, b);
    ConsItems(item, t, rest, us, nodes, nodes', depth, lim);
    var items := [item] + rest;
    assert items[0] == item && items[1..] == rest && items[1] == rest[0] && "" + b' == b';
    GlueTail(s, i, n, m, e, b, TextOf(item.value));
    assert [s[m]] == ",";
    ItemsTextIs(items);
    ItemsMake(s, i, e, pre, b, items, [t] + us, nodes, nodes'', depth, lim);
  }

  // ---- Objects ----

  lemma {:induction false} ObjectBack(s: string, i: nat, nodes: nat, depth: nat, lim: Limits) returns (sp: Spelled)
    requires i < |s| && s[i] == '{' && ParseObject(s, i, nodes, depth, lim).Ok? && 1 <= nodes <= lim.maxNodes && depth <= lim.maxDepth
    ensures var r := ParseObject(s, i, nodes, depth, lim); SpeltAt(s, i, r.next, "", sp, r.value, nodes - 1, r.nodes, depth, lim)
    decreases |s| - i, 2
  {
    var j, r := SkipWs(s, i + 1), ParseObject(s, i, nodes, depth, lim);
    SkippedBlank(s, i + 1);
    hide SkipWs, ParseMembers, SpeltAt, Blank;
    if CharAt(s, j, '}') {
      sp := SObj([], s[i + 1..j]);
      EmptyObject(s, i, j, nodes, depth, lim);
    } else {
      assert DistinctKeys([]);
      var b, es, ms := MembersBack(s, j, nodes, depth, [], lim, s[i + 1..j]);
      sp := SObj(es, "");
      assert [] + ms == ms;
      ObjectIs(s, i, j, r.next, b, es, ms, nodes, r.nodes, depth, lim);
    }
  }

  lemma EmptyObject(s: string, i: nat, j: nat, nodes: nat, depth: nat, lim: Limits)
    requires i + 1 <= j < |s| && s[i] == '{' && s[j] == '}' && Blank(s[i + 1..j]) && 1 <= nodes <= lim.maxNodes && depth <= lim.maxDepth
    ensures SpeltAt(s, i, j + 1, "", SObj([], s[i + 1..j]), TObj([]), nodes - 1, nodes, depth, lim)
  {
    hide Blank;
    assert s[i..j + 1] == "{" + (s[i + 1..j] + "}");
    NoneAt();
  }

  ghost predicate MembersAt(s: string, i: nat, n: nat, pre: string, b: string, es: seq<Entry>, ms: seq<Member>, nodes: nat, nodes': nat, depth: nat, lim: Limits) {
    && i <= n <= |s| && es != [] && Blank(b) && es[0].before == pre + b && EntriesValid(es)
    && s[i..n] == b + EntriesText(es) && EntriesMean(es, ms, lim.round) && MembersFit(ms, nodes, depth, lim) && nodes' == nodes + CountMembers(ms)
  }

  lemma CutOpen(s: string, i: nat, j: nat, n: nat)
    requires i + 1 <= j <= n <= |s| && s[i] == '{'
    ensures s[i..n] == "{" + (s[i + 1..j] + s[j..n])
  {}

  lemma CutClose(s: string, i: nat, q: nat, m: nat)
    requires i <= q <= m < |s|
    ensures s[i..m + 1] == s[i..q] + (s[q..m] + [s[m]])
  {}

  lemma ObjectIs(s: string, i: nat, j: nat, n: nat, b: string, es: seq<Entry>, ms: seq<Member>, nodes: nat, nodes': nat, depth: nat, lim: Limits)
    requires i + 1 <= j <= n <= |s| && s[i] == '{' && 1 <= nodes <= lim.maxNodes && depth <= lim.maxDepth && DistinctKeys(ms)
    requires MembersAt(s, j, n, s[i + 1..j], b, es, ms, nodes, nodes', depth + 1, lim)
    ensures SpeltAt(s, i, n, "", SObj(es, ""), TObj(ms), nodes - 1, nodes', depth, lim)
  {
    hide Blank, EntriesText, Valid, Means, Keyed, WithinDepth, Count, CountMembers, EntryValid, DistinctKeys;
    var pre := s[i + 1..j];
    CutOpen(s, i, j, n);
    assert pre + (b + EntriesText(es)) == (pre + b) + EntriesText(es);
    ObjectSpelt(es, ms, depth, lim);
  }

  lemma ObjectSpelt(es: seq<Entry>, ms: seq<Member>, depth: nat, lim: Limits)
    requires es != [] && EntriesValid(es) && EntriesMean(es, ms, lim.round) && depth <= lim.maxDepth && DistinctKeys(ms)
    requires forall i | 0 <= i < |ms| :: Keyed(ms[i].value) && WithinDepth(ms[i].value, depth + 1, lim.maxDepth)
    ensures Blank("") && Valid(SObj(es, "")) && Means(SObj(es, ""), TObj(ms), lim.round)
    ensures Keyed(TObj(ms)) && WithinDepth(TObj(ms), depth, lim.maxDepth) && Count(TObj(ms)) == 1 + CountMembers(ms)
    ensures TextOf(SObj(es, "")) == "{" + (es[0].before + EntriesText(es))
  {
    hide EntriesText, CountMembers, ValidPieces, StringOf;
  }

  /** The positions within one entry. */
  ghost predicate EntryAt(s: string, i: nat, q: nat, k: nat, c: nat, n: nat, acc: seq<Member>, e: Entry, pre: string, m: Member, nodes: nat, nodes': nat, depth: nat, lim: Limits) {
    && i <= q <= k <= c < n <= |s| && Blank(s[i..q]) && e.before == pre + s[i..q]
    && ValidPieces(e.key) && s[q..k] == StringText(e.key) && m.key == StringOf(e.key) && !HasKey(acc, m.key)
    && e.mid == s[k..c] && Blank(e.mid) && s[c] == ':' && SpeltAt(s, c + 1, n, e.gap, e.value, m.value, nodes, nodes', depth, lim)
  }

  /** Where the parts of an entry that was read stand. */
  lemma EntryParts(s: string, i: nat, nodes: nat, depth: nat, acc: seq<Member>, lim: Limits)
    returns (q: nat, k: nat, c: nat, key: string)
    requires i <= |s| && ParseEntry(s, i, nodes, depth, acc, lim).Ok?
    ensures i <= q < k <= c < |s| && q == SkipWs(s, i) && c == SkipWs(s, k) && s[q] == '"' && s[c] == ':'
    ensures ReadString(s, q + 1) == Some((key, k)) && !HasKey(acc, key)
    ensures var v := ParseValue(s, c + 1, nodes, depth + 1, lim);
            v.Ok? && ParseEntry(s, i, nodes, depth, acc, lim) == Ok(Member(key, v.value), v.next, v.nodes)
  {
    hide SkipWs, ReadString, HasKey, ParseValue;
    q := SkipWs(s, i);
    key, k := ReadString(s, q + 1).value.0, ReadString(s, q + 1).value.1;
    c := SkipWs(s, k);
  }

  lemma {:induction false} EntryBack(s: string, i: nat, nodes: nat, depth: nat, acc: seq<Member>, lim: Limits, pre: string)
    returns (q: nat, k: nat, c: nat, e: Entry)
    requires i <= |s| && ParseEntry(s, i, nodes, depth, acc, lim).Ok?
    ensures var r := ParseEntry(s, i, nodes, depth, acc, lim);
            EntryAt(s, i, q, k, c, r.next, acc, e, pre, r.value, nodes, r.nodes, depth + 1, lim) && e.after == ""
    decreases |s| - i, 1
  {
    hide ParseEntry, ParseValue, SkipWs, ReadString, SpeltAt, Blank, HasKey, StringText, StringOf, ValidPieces;
    var key;
    q, k, c, key := EntryParts(s, i, nodes, depth, acc, lim);
    SkippedBlank(s, i);
    var ps := StringBack(s, q);
    SkippedBlank(s, k);
    var gap, sp := ValueBack(s, c + 1, nodes, depth + 1, lim);
    e := Entry(pre + s[i..q], ps, s[k..c], gap, sp, "");
  }

  lemma KeysStay(acc: seq<Member>, m: Member)
    requires DistinctKeys(acc) && !HasKey(acc, m.key)
    ensures DistinctKeys(acc + [m])
  {}

  /** How the members go on after the first. */
  lemma MembersUnfold(s: string, i: nat, nodes: nat, depth: nat, acc: seq<Member>, lim: Limits)
    requires i <= |s| && ParseMembers(s, i, nodes, depth, acc, lim).Ok?
    ensures ParseEntry(s, i, nodes, depth, acc, lim).Ok?
    ensures var v, r := ParseEntry(s, i, nodes, depth, acc, lim), ParseMembers(s, i, nodes, depth, acc, lim);
            var m := SkipWs(s, v.next);
            && m < |s|
            && if s[m] == ',' then r == ParseMembers(s, m + 1, v.nodes, depth, acc + [v.value], lim)
               else s[m] == '}' && r == Ok(TObj(acc + [v.value]), m + 1, v.nodes)
  {
    hide ParseEntry, SkipWs;
  }

  lemma {:induction false} MembersBack(s: string, i: nat, nodes: nat, depth: nat, acc: seq<Member>, lim: Limits, pre: string)
    returns (b: string, es: seq<Entry>, ms: seq<Member>)
    requires i <= |s| && ParseMembers(s, i, nodes, depth, acc, lim).Ok? && Blank(pre) && DistinctKeys(acc)
    ensures var r := ParseMembers(s, i, nodes, depth, acc, lim);
            && r.value == TObj(acc + ms) && DistinctKeys(acc + ms)
            && MembersAt(s, i, r.next, pre, b, es, ms, nodes, r.nodes, depth + 1, lim)
    decreases |s| - i, 4
  {
    hide *;
    MembersUnfold(s, i, nodes, depth, acc, lim);
    var v, r := ParseEntry(s, i, nodes, depth, acc, lim), ParseMembers(s, i, nodes, depth, acc, lim);
    var q, k, c, e := EntryBack(s, i, nodes, depth, acc, lim, pre);
    var m := SkipWs(s, v.next);
    SkippedBlank(s, v.next);
    NewKey(s, i, q, k, c, v.next, acc, e, pre, v.value, nodes, v.nodes, depth + 1, lim);
    KeysStay(acc, v.value);
    b := s[i..q];
    var e' := e.(after := s[v.next..m]);
    if s[m] == ',' {
      NoBlank();
      var b', rest, more := MembersBack(s, m + 1, v.nodes, depth, acc + [v.value], lim, "");
      es, ms := [e'] + rest, [v.value] + more;
      assert acc + [v.value] + more == acc + ms;
      MoreEntries(s, i, q, k, c, v.next, m, r.next, acc, pre, e, e', v.value, b', rest, more, nodes, v.nodes, r.nodes, depth + 1, lim);
    } else {
      es, ms := [e'], [v.value];
      OneEntry(s, i, q, k, c, v.next, m, acc, pre, e, e', v.value, nodes, v.nodes, depth + 1, lim);
    }
  }

  lemma NewKey(s: string, i: nat, q: nat, k: nat, c: nat, n: nat, acc: seq<Member>, e: Entry, pre: string, m: Member, nodes: nat, nodes': nat, depth: nat, lim: Limits)
    requires EntryAt(s, i, q, k, c, n, acc, e, pre, m, nodes, nodes', depth, lim)
    ensures !HasKey(acc, m.key) && i <= q <= k <= c < n <= |s|
    ensures SpeltAt(s, c + 1, n, e.gap, e.value, m.value, nodes, nodes', depth, lim)
  {}

  lemma EntryOpen(s: string, i: nat, q: nat, k: nat, c: nat, n: nat, acc: seq<Member>, e: Entry, pre: string, m: Member, nodes: nat, nodes': nat, depth: nat, lim: Limits)
    requires EntryAt(s, i, q, k, c, n, acc, e, pre, m, nodes, nodes', depth, lim)
    ensures i <= q <= k <= c < n <= |s| && Blank(s[i..q]) && e.before == pre + s[i..q]
    ensures ValidPieces(e.key) && s[q..k] == StringText(e.key) && m.key == StringOf(e.key)
    ensures e.mid == s[k..c] && Blank(e.mid) && s[c] == ':'
  {}

  lemma GlueEntry(s: string, q: nat, k: nat, c: nat, n: nat, m: nat, gap: string, w: string)
    requires q <= k <= c < n <= m <= |s| && s[c] == ':' && s[c + 1..n] == gap + w
    ensures s[q..m] == s[q..k] + (s[k..c] + (":" + (gap + (w + s[n..m]))))
  {
    assert s[q..m] == s[q..k] + (s[k..c] + (":" + (s[c + 1..n] + s[n..m])));
    Three(gap, w, s[n..m]);
  }

  lemma EntryMake(e: Entry)
    requires Blank(e.before) && ValidPieces(e.key) && Blank(e.mid) && Blank(e.gap) && Valid(e.value) && Blank(e.after)
    ensures EntryValid(e)
  {}

  /** An entry with the blanks after it: its text, and that it is valid and means its member. */
  lemma EntryIs(s: string, i: nat, q: nat, k: nat, c: nat, n: nat, m: nat, acc: seq<Member>, pre: string, e: Entry, e': Entry, x: Member, nodes: nat, nodes': nat, depth: nat, lim: Limits)
    requires EntryAt(s, i, q, k, c, n, acc, e, pre, x, nodes, nodes', depth, lim) && Blank(pre)
    requires n <= m <= |s| && e' == e.(after := s[n..m]) && Blank(e'.after)
    ensures i <= q <= m && EntryValid(e') && Blank(s[i..q]) && e'.before == pre + s[i..q] && x.key == StringOf(e'.key) && Means(e'.value, x.value, lim.round)
    ensures Keyed(x.value) && WithinDepth(x.value, depth, lim.maxDepth) && nodes' == nodes + Count(x.value) && nodes' <= lim.maxNodes
    ensures s[q..m] == StringText(e'.key) + (e'.mid + (":" + (e'.gap + (TextOf(e'.value) + e'.after))))
  {
    hide *;
    EntryOpen(s, i, q, k, c, n, acc, e, pre, x, nodes, nodes', depth, lim);
    NewKey(s, i, q, k, c, n, acc, e, pre, x, nodes, nodes', depth, lim);
    SpeltParts(s, c + 1, n, e.gap, e.value, x.value, nodes, nodes', depth, lim);
    BlankBoth(pre, s[i..q]);
    EntryMake(e');
    GlueEntry(s, q, k, c, n, m, e.gap, TextOf(e.value));
  }

  lemma Six(k: string, mid: string, gap: string, w: string, after: string, tail: string)
    ensures (k + (mid + (":" + (gap + (w + after))))) + tail == k + (mid + (":" + (gap + (w + (after + tail)))))
  {}

  lemma ConsEntries(e: Entry, x: Member, rest: seq<Entry>, more: seq<Member>, nodes: nat, nodes': nat, depth: nat, lim: Limits)
    requires EntryValid(e) && x.key == StringOf(e.key) && Means(e.value, x.value, lim.round)
    requires Keyed(x.value) && WithinDepth(x.value, depth, lim.maxDepth) && nodes' == nodes + Count(x.value) && nodes' <= lim.maxNodes
    requires EntriesValid(rest) && EntriesMean(rest, more, lim.round) && MembersFit(more, nodes', depth, lim)
    ensures var es, ms := [e] + rest, [x] + more;
            && EntriesValid(es) && EntriesMean(es, ms, lim.round) && MembersFit(ms, nodes, depth, lim)
            && nodes + CountMembers(ms) == nodes' + CountMembers(more)
  {
    hide EntryValid, Means, Keyed, WithinDepth, Count, StringOf;
    assert ([x] + more)[1..] == more;
  }

  lemma NoMoreEntries(nodes: nat, depth: nat, lim: Limits)
    requires nodes <= lim.maxNodes
    ensures EntriesValid([]) && EntriesMean([], [], lim.round) && MembersFit([], nodes, depth, lim) && CountMembers([]) == 0
  {}

  lemma MembersMake(s: string, i: nat, n: nat, pre: string, b: string, es: seq<Entry>, ms: seq<Member>, nodes: nat, nodes': nat, depth: nat, lim: Limits)
    requires i <= n <= |s| && es != [] && Blank(b) && es[0].before == pre + b && EntriesValid(es) && s[i..n] == b + EntriesText(es)
    requires EntriesMean(es, ms, lim.round) && MembersFit(ms, nodes, depth, lim) && nodes' == nodes + CountMembers(ms)
    ensures MembersAt(s, i, n, pre, b, es, ms, nodes, nodes', depth, lim)
  {}

  lemma MembersParts(s: string, i: nat, n: nat, pre: string, b: string, es: seq<Entry>, ms: seq<Member>, nodes: nat, nodes': nat, depth: nat, lim: Limits)
    requires MembersAt(s, i, n, pre, b, es, ms, nodes, nodes', depth, lim)
    ensures i <= n <= |s| && es != [] && es[0].before == pre + b && EntriesValid(es) && s[i..n] == b + EntriesText(es)
    ensures EntriesMean(es, ms, lim.round) && MembersFit(ms, nodes, depth, lim) && nodes' == nodes + CountMembers(ms)
  {}

  lemma OneEntry(s: string, i: nat, q: nat, k: nat, c: nat, n: nat, m: nat, acc: seq<Member>, pre: string, e: Entry, e': Entry, x: Member, nodes: nat, nodes': nat, depth: nat, lim: Limits)
    requires EntryAt(s, i, q, k, c, n, acc, e, pre, x, nodes, nodes', depth, lim) && Blank(pre)
    requires n <= m < |s| && e' == e.(after := s[n..m]) && Blank(e'.after) && s[m] == '}'
    ensures q <= |s| && i <= q && MembersAt(s, i, m + 1, pre, s[i..q], [e'], [x], nodes, nodes', depth, lim)
  {
    hide *;
    EntryIs(s, i, q, k, c, n, m, acc, pre, e, e', x, nodes, nodes', depth, lim);
    NoMoreEntries(nodes', depth, lim);
    ConsEntries(e', x, [], [], nodes, nodes', depth, lim);
    assert [e'] + [] == [e'] && [x] + [] == [x];
    CutClose(s, i, q, m);
    EntriesTextIs([e']);
    Six(StringText(e'.key), e'.mid, e'.gap, TextOf(e'.value), e'.after, "}");
    MembersMake(s, i, m + 1, pre, s[i..q], [e'], [x], nodes, nodes', depth, lim);
  }

  lemma MoreEntries(s: string, i: nat, q: nat, k: nat, c: nat, n: nat, m: nat, z: nat, acc: seq<Member>, pre: string, e: Entry, e': Entry, x: Member, b': string, rest: seq<Entry>, more: seq<Member>, nodes: nat, nodes': nat, nodes'': nat, depth: nat, lim: Limits)
    requires EntryAt(s, i, q, k, c, n, acc, e, pre, x, nodes, nodes', depth, lim) && Blank(pre)
    requires n <= m < |s| && e' == e.(after := s[n..m]) && Blank(e'.after) && s[m] == ','
    requires MembersAt(s, m + 1, z, "", b', rest, more, nodes', nodes'', depth, lim)
    ensures q <= |s| && i <= q && MembersAt(s, i, z, pre, s[i..q], [e'] + rest, [x] + more, nodes, nodes'', depth, lim)
  {
    hide *;
    EntryIs(s, i, q, k, c, n, m, acc, pre, e, e', x, nodes, nodes', depth, lim);
    MembersParts(s, m + 1, z, "", b', rest, more, nodes', nodes'', depth, lim);
    ConsEntries(e', x, rest, more, nodes, nodes', depth, lim);
    var es := [e'] + rest;
    assert es[0] == e' && es[1..] == rest && es[1] == rest[0] && "" + b' == b';
    assert s[i..z] == s[i..q] + (s[q..m] + ("," + s[m + 1..z]));
    EntriesTextIs(es);
    Six(StringText(e'.key), e'.mid, e'.gap, TextOf(e'.value), e'.after, "," + (b' + EntriesText(rest)));
    MembersMake(s, i, z, pre, s[i..q], es, [x] + more, nodes, nodes'', depth, lim);
  }

  // ---- Whole texts ----

  /** What the parser accepts is a text that spells the value given, blanks aside, within limits. */
  lemma AcceptedSpells(text: string, lim: Limits) returns (before: string, sp: Spelled, after: string)
    requires ParseText(text, lim).Ok?
    ensures var r := ParseText(text, lim);
            && Valid(sp) && Blank(before) && Blank(after) && text == before + (TextOf(sp) + after)
            && Means(sp, r.value, lim.round) && Fits(r.value, 0, 0, lim) && r.nodes == Count(r.value) && ByteLength(text) <= lim.maxBytes
  {
    hide *;
    TextUnfold(text, lim);
    var i := SkipWs(text, 0);
    var v := ParseValue(text, i, 0, 0, lim);
    var b;
    b, sp := ValueBack(text, i, 0, 0, lim);
    SpeltParts(text, i, v.next, b, sp, v.value, 0, v.nodes, 0, lim);
    SkippedBlank(text, 0);
    SkippedBlank(text, v.next);
    BlankBoth(text[0..i], b);
    before, after := text[0..i] + b, text[v.next..|text|];
    assert text == text[0..i] + (text[i..v.next] + text[v.next..|text|]);
    FitsFrom(v.value, lim);
  }

  lemma TextUnfold(text: string, lim: Limits)
    requires ParseText(text, lim).Ok?
    ensures ByteLength(text) <= lim.maxBytes && ParseValue(text, SkipWs(text, 0), 0, 0, lim).Ok?
    ensures var v := ParseValue(text, SkipWs(text, 0), 0, 0, lim);
            SkipWs(text, v.next) == |text| && ParseText(text, lim) == Ok(v.value, |text|, v.nodes)
  {
    hide ParseValue, SkipWs;
  }

  lemma FitsFrom(t: Tree, lim: Limits)
    requires Keyed(t) && WithinDepth(t, 0, lim.maxDepth) && Count(t) <= lim.maxNodes
    ensures Fits(t, 0, 0, lim)
  {}

  /** The text spells the tree, with blanks around it. */
  ghost predicate Spells(text: string, t: Tree, round: Number -> Option<Number>) {
    exists before, sp, after ::
      Valid(sp) && Blank(before) && Blank(after) && text == before + (TextOf(sp) + after) && Means(sp, t, round)
  }

  /** A text is read as a tree exactly if it spells that tree and keeps to the limits of bytes,
      depth and nodes, and no object of it repeats a key. */
  lemma ReadExactly(text: string, t: Tree, lim: Limits)
    ensures (exists nodes :: ParseText(text, lim) == Ok(t, |text|, nodes))
            <==> Spells(text, t, lim.round) && Fits(t, 0, 0, lim) && ByteLength(text) <= lim.maxBytes
  {
    hide ParseText, Valid, Blank, TextOf, Means, Fits, ByteLength;
    if nodes: nat :| ParseText(text, lim) == Ok(t, |text|, nodes) {
      var before, sp, after := AcceptedSpells(text, lim);
    }
    if Spells(text, t, lim.round) && Fits(t, 0, 0, lim) && ByteLength(text) <= lim.maxBytes {
      var before, sp, after :| Valid(sp) && Blank(before) && Blank(after) && text == before + (TextOf(sp) + after) && Means(sp, t, lim.round);
      SpellingsParse(sp, t, before, after, text, lim);
    }
  }

  // ---- The spelling the writer chooses ----

  /** A name if the character has one other than the slash, else its code in lower-case digits if
      it is a control character, else the character itself. */
  lemma WrittenAs(c: char) returns (p: Piece)
    ensures ValidPiece(p) && EscapeChar(c) == PieceText(p) && PieceUnits(p) == EncodeChar(c)
    ensures p.Named? <==> c in "\"\\\U{0008}\U{000C}\n\r\t"
    ensures p.Coded? <==> c < ' ' && c !in "\U{0008}\U{000C}\n\r\t"
    ensures p.Coded? ==> !p.d1.upper && !p.d2.upper && !p.d3.upper && !p.d4.upper
  {
    if c in "\"\\\U{0008}\U{000C}\n\r\t" {
      var k: Name := if c == '"' then 0 else if c == '\\' then 1 else if c == '\U{0008}' then 3 else if c == '\U{000C}' then 4
                     else if c == '\n' then 5 else if c == '\r' then 6 else 7;
      p := Named(k);
    } else if c < ' ' {
      var zero, hi, lo := Digit(0, false), Digit(c as int / 16, false), Digit(c as int % 16, false);
      p := Coded(zero, zero, hi, lo);
      LowerDigit(hi.value);
      LowerDigit(lo.value);
      assert DigitText(zero) == "0";
    } else {
      p := Raw(c);
    }
  }

  lemma LowerDigit(n: Nibble)
    ensures [HexDigit(n)] == DigitText(Digit(n, false))
  {}
}
