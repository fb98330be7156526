/** Parsing the printed text of a tree gives the tree back (RFC 8259). */
module JsonRoundTrip {
  import opened Text
  import opened Utf16
  import opened JsNumber
  import opened JsonTree
  import opened JsonParser

  // ---- Strings ----

  lemma HexRoundTrip(n: nat)
    requires n < 16
    ensures IsHex(HexDigit(n)) && HexValue(HexDigit(n)) == n
  {}

  lemma ControlScans(s: string, i: nat, c: char)
    requires c < ' ' && At(s, i, ['\\', 'u', '0', '0', HexDigit(c as int / 16), HexDigit(c as int % 16)])
    ensures i + 6 <= |s| && s[i] == '\\' && s[i + 1] == 'u'
    ensures Hex4(s, i + 2) && Hex4Value(s, i + 2) == c as int
  {
    var w := ['\\', 'u', '0', '0', HexDigit(c as int / 16), HexDigit(c as int % 16)];
    AtBounds(s, i, w);
    assert At(s, i + 1, w[1..]) && At(s, i + 2, w[2..]) && At(s, i + 3, w[3..]) && At(s, i + 4, w[4..]) && At(s, i + 5, w[5..]);
    HexRoundTrip(c as int / 16);
    HexRoundTrip(c as int % 16);
  }

  /** Every character scans back from its escape. */
  lemma CharScans(s: string, i: nat, c: char)
    requires At(s, i, EscapeChar(c))
    ensures i + |EscapeChar(c)| <= |s|
    ensures ScanUnits(s, i) == Prepend(EncodeChar(c), ScanUnits(s, i + |EscapeChar(c)|))
  {
    var w := EscapeChar(c);
    AtBounds(s, i, w);
    if |w| == 6 {
      ControlScans(s, i, c);
    } else if |w| == 2 {
      assert s[i] == w[0] && At(s, i + 1, w[1..]) && w[1..][0] == w[1];
    }
  }

  lemma QuoteEnds(s: string, i: nat)
    requires CharAt(s, i, '"')
    ensures ScanUnits(s, i) == Some(([], i + 1))
  {}

  lemma {:induction false} BodyScans(s: string, i: nat, str: string)
    requires At(s, i, Escape(str) + "\"")
    ensures i + |Escape(str)| + 1 <= |s|
    ensures ScanUnits(s, i) == Some((Encode(str), i + |Escape(str)| + 1))
    decreases |str|
  {
    hide ScanUnits, EscapeChar, EncodeChar;
    AtBounds(s, i, Escape(str) + "\"");
    if str == "" {
      QuoteEnds(s, i);
      assert Escape(str) + "\"" == "\"";
    } else {
      var w, rest := EscapeChar(str[0]), Escape(str[1..]);
      assert Escape(str) + "\"" == w + (rest + "\"");
      AtSplit(s, i, w, rest + "\"");
      CharScans(s, i, str[0]);
      BodyScans(s, i + |w|, str[1..]);
    }
  }

  /** A quoted string reads back as itself. */
  lemma QuoteReads(s: string, i: nat, str: string, w: string)
    requires w == Quote(str) && At(s, i, w)
    ensures i + |w| <= |s| && s[i] == '"' && |w| >= 2
    ensures ReadString(s, i + 1) == Some((str, i + |w|))
  {
    hide ScanUnits, ReadString, Decode, Encode, Escape;
    QuoteShape(str, w);
    BodyScans(s, i + 1, str);
    DecodeEncode(str);
    BodyReads(s, i + 1, Encode(str), i + |w|);
  }

  lemma QuoteShape(str: string, w: string)
    requires w == Quote(str)
    ensures |w| == |Escape(str)| + 2 && w[0] == '"' && w[1..] == Escape(str) + "\""
  {}

  lemma BodyReads(s: string, i: nat, us: seq<CodeUnit>, end: nat)
    requires i <= |s| && ScanUnits(s, i) == Some((us, end))
    ensures ReadString(s, i) == Some((Decode(us), end))
  {}

  // ---- Values ----

  /** The first character of a printed value tells the kind of value. */
  predicate HeadOf(t: Tree, c: char) {
    match t
    case TObj(_) => c == '{'
    case TArr(_) => c == '['
    case TStr(_) => c == '"'
    case TNum(_) => c == '-' || IsDigit(c)
    case TBool(b) => c == if b then 't' else 'f'
    case TNull => c == 'n'
  }

  lemma PrintHead(t: Tree, w: string)
    requires Plain(t) && w == Print(t)
    ensures w != "" && HeadOf(t, w[0])
  {
    if t.TNum? { FormatHead(t.n); }
  }

  predicate Representable(t: Tree, round: Number -> Option<Number>)
    decreases t
  {
    match t
    case TNum(n) => round(n) == Some(n)
    case TArr(items) => forall i | 0 <= i < |items| :: Representable(items[i], round)
    case TObj(members) => forall i | 0 <= i < |members| :: Representable(members[i].value, round)
    case _ => true
  }

  /** The tree stands within the parser's limits when it starts at this depth and node count. */
  predicate Fits(t: Tree, nodes: nat, depth: nat, lim: Limits) {
    Plain(t) && Representable(t, lim.round) && WithinDepth(t, depth, lim.maxDepth) && nodes + Count(t) <= lim.maxNodes
  }

  predicate ItemsFit(items: seq<Tree>, nodes: nat, depth: nat, lim: Limits) {
    && nodes + CountItems(items) <= lim.maxNodes
    && forall i | 0 <= i < |items| ::
         Plain(items[i]) && Representable(items[i], lim.round) && WithinDepth(items[i], depth, lim.maxDepth)
  }

  predicate MembersFit(members: seq<Member>, nodes: nat, depth: nat, lim: Limits) {
    && nodes + CountMembers(members) <= lim.maxNodes
    && forall i | 0 <= i < |members| ::
         Plain(members[i].value) && Representable(members[i].value, lim.round)
         && WithinDepth(members[i].value, depth, lim.maxDepth)
  }

  lemma ItemsFitSplit(items: seq<Tree>, nodes: nat, depth: nat, lim: Limits)
    requires items != [] && ItemsFit(items, nodes, depth, lim)
    ensures Fits(items[0], nodes, depth, lim)
    ensures ItemsFit(items[1..], nodes + Count(items[0]), depth, lim)
    ensures CountItems(items) == Count(items[0]) + CountItems(items[1..])
  {}

  lemma MembersFitSplit(members: seq<Member>, nodes: nat, depth: nat, lim: Limits)
    requires members != [] && MembersFit(members, nodes, depth, lim)
    ensures Fits(members[0].value, nodes, depth, lim)
    ensures MembersFit(members[1..], nodes + Count(members[0].value), depth, lim)
    ensures CountMembers(members) == Count(members[0].value) + CountMembers(members[1..])
  {}

  lemma WordParses(t: Tree, s: string, i: nat, nodes: nat, w: string)
    requires (t.TNull? || t.TBool?) && w == Print(t) && At(s, i, w)
    ensures i + |w| <= |s| && ParseWord(s, i, nodes) == Ok(t, i + |w|, nodes)
  {
    AtBounds(s, i, w);
  }

  lemma NumberParses(n: Number, s: string, i: nat, nodes: nat, lim: Limits, w: string)
    requires !n.NonFinite? && Printed(n) == n && lim.round(n) == Some(n)
    requires w == FormatJSNumber(n) && At(s, i, w) && Delimited(s, i + |w|)
    ensures i + |w| <= |s| && ParseNumber(s, i, nodes, lim) == Ok(TNum(n), i + |w|, nodes)
  {
    AtBounds(s, i, w);
    FormatReadsBack(s, i, n, w);
  }

  /** The dispatch of `parseValue` on the first character of a value's text. */
  lemma Dispatch(t: Tree, s: string, i: nat, nodes: nat, depth: nat, lim: Limits)
    requires i < |s| && HeadOf(t, s[i])
    requires depth <= lim.maxDepth && nodes + 1 <= lim.maxNodes
    ensures SkipWs(s, i) == i
    ensures ParseValue(s, i, nodes, depth, lim) ==
            match t {
              case TObj(_) => ParseObject(s, i, nodes + 1, depth, lim)
              case TArr(_) => ParseArray(s, i, nodes + 1, depth, lim)
              case TStr(_) => ParseString(s, i + 1, nodes + 1)
              case TNum(_) => ParseNumber(s, i, nodes + 1, lim)
              case _ => ParseWord(s, i, nodes + 1)
            }
  {}

  lemma StringParses(s: string, i: nat, nodes: nat, str: string, w: string)
    requires w == Quote(str) && At(s, i, w)
    ensures i + |w| <= |s| && i < |s| && ParseString(s, i + 1, nodes) == Ok(TStr(str), i + |w|, nodes)
  {
    QuoteReads(s, i, str, w);
  }

  lemma {:induction false} ParsePrinted(t: Tree, s: string, i: nat, nodes: nat, depth: nat, lim: Limits, w: string)
    requires Fits(t, nodes, depth, lim) && w == Print(t)
    requires At(s, i, w) && Delimited(s, i + |w|)
    ensures i + |w| <= |s| && ParseValue(s, i, nodes, depth, lim) == Ok(t, i + |w|, nodes + Count(t))
    decreases t, 1
  {
    hide ParseValue, ParseString, ParseNumber, ParseWord, ParseArray, ParseObject, FormatJSNumber, PrintItems, PrintMembers;
    AtBounds(s, i, w);
    PrintHead(t, w);
    Dispatch(t, s, i, nodes, depth, lim);
    match t
    case TNum(n) => NumberParses(n, s, i, nodes + 1, lim, w);
    case TStr(str) => StringParses(s, i, nodes + 1, str, w);
    case TArr(items) => ArrayPrinted(t, s, i, nodes, depth, lim, w);
    case TObj(members) => ObjectPrinted(t, s, i, nodes, depth, lim, w);
    case _ => WordParses(t, s, i, nodes + 1, w);
  }

  // ---- Arrays ----

  lemma EmptyArray(s: string, i: nat, nodes: nat, depth: nat, lim: Limits)
    requires At(s, i, "[]")
    ensures i + 2 <= |s| && ParseArray(s, i, nodes, depth, lim) == Ok(TArr([]), i + 2, nodes)
  {}

  lemma OpenArray(s: string, i: nat, nodes: nat, depth: nat, lim: Limits)
    requires i + 1 < |s| && !IsWs(s[i + 1]) && s[i + 1] != ']'
    ensures ParseArray(s, i, nodes, depth, lim) == ParseItems(s, i + 1, nodes, depth, [], lim)
  {}

  lemma ItemsStep(s: string, i: nat, nodes: nat, depth: nat, acc: seq<Tree>, lim: Limits, t: Tree, n: nat, nodes': nat)
    requires i <= |s| && ParseValue(s, i, nodes, depth + 1, lim) == Ok(t, n, nodes')
    requires CharAt(s, n, ',') || CharAt(s, n, ']')
    ensures ParseItems(s, i, nodes, depth, acc, lim) ==
            if s[n] == ',' then ParseItems(s, n + 1, nodes', depth, acc + [t], lim) else Ok(TArr(acc + [t]), n + 1, nodes')
  {
    hide ParseValue;
    assert SkipWs(s, n) == n;
  }

  lemma {:induction false} ArrayPrinted(t: Tree, s: string, i: nat, nodes: nat, depth: nat, lim: Limits, w: string)
    requires t.TArr? && Fits(t, nodes, depth, lim) && w == Print(t) && At(s, i, w)
    ensures i + |w| <= |s| && ParseArray(s, i, nodes + 1, depth, lim) == Ok(t, i + |w|, nodes + Count(t))
    decreases t, 0
  {
    hide ParseArray, ParseItems, ParseValue, PrintItems;
    if t.items == [] {
      EmptyArray(s, i, nodes + 1, depth, lim);
    } else {
      var p := PrintItems(t.items);
      AtBounds(s, i, w);
      assert w[1..] == p;
      ItemsHead(t.items, p);
      OpenArray(s, i, nodes + 1, depth, lim);
      ItemsPrinted(t.items, s, i + 1, nodes + 1, depth, [], lim, p);
      assert [] + t.items == t.items;
    }
  }

  lemma ItemsHead(items: seq<Tree>, p: string)
    requires items != [] && Plain(items[0]) && p == PrintItems(items)
    ensures p != "" && HeadOf(items[0], p[0])
  {
    PrintHead(items[0], Print(items[0]));
  }

  lemma ItemSplit(items: seq<Tree>, s: string, i: nat, p: string) returns (w: string, tail: string)
    requires items != [] && p == PrintItems(items) && At(s, i, p)
    ensures w == Print(items[0]) && tail == if |items| == 1 then "]" else "," + PrintItems(items[1..])
    ensures |p| == |w| + |tail| && i + |p| <= |s|
    ensures At(s, i, w) && At(s, i + |w|, tail) && s[i + |w|] == tail[0]
  {
    hide Print;
    w := Print(items[0]);
    tail := if |items| == 1 then "]" else "," + PrintItems(items[1..]);
    AtBounds(s, i, p);
    AtSplit(s, i, w, tail);
  }

  lemma {:induction false} ItemsPrinted(items: seq<Tree>, s: string, i: nat, nodes: nat, depth: nat, acc: seq<Tree>, lim: Limits, p: string)
    requires items != [] && ItemsFit(items, nodes, depth + 1, lim) && p == PrintItems(items) && At(s, i, p)
    ensures i + |p| <= |s|
    ensures ParseItems(s, i, nodes, depth, acc, lim) == Ok(TArr(acc + items), i + |p|, nodes + CountItems(items))
    decreases items, 0
  {
    hide *;
    ItemsFitSplit(items, nodes, depth + 1, lim);
    var w, tail := ItemSplit(items, s, i, p);
    var n, nodes' := i + |w|, nodes + Count(items[0]);
    CharIs(s, n, tail);
    ParsePrinted(items[0], s, i, nodes, depth + 1, lim, w);
    ItemsStep(s, i, nodes, depth, acc, lim, items[0], n, nodes');
    if |items| == 1 {
      assert items == [items[0]] && items[1..] == [];
      NoMembers();
    } else {
      var q := PrintItems(items[1..]);
      AtAfter(s, n, tail, q);
      ItemsPrinted(items[1..], s, n + 1, nodes', depth, acc + [items[0]], lim, q);
      assert acc + [items[0]] + items[1..] == acc + items;
    }
  }

  // ---- Objects ----

  lemma EmptyObject(s: string, i: nat, nodes: nat, depth: nat, lim: Limits)
    requires At(s, i, "{}")
    ensures i + 2 <= |s| && ParseObject(s, i, nodes, depth, lim) == Ok(TObj([]), i + 2, nodes)
  {}

  lemma OpenObject(s: string, i: nat, nodes: nat, depth: nat, lim: Limits)
    requires CharAt(s, i + 1, '"')
    ensures ParseObject(s, i, nodes, depth, lim) == ParseMembers(s, i + 1, nodes, depth, [], lim)
  {}

  lemma EntryParses(s: string, i: nat, nodes: nat, depth: nat, acc: seq<Member>, lim: Limits, key: string, k: nat, t: Tree, n: nat, nodes': nat)
    requires CharAt(s, i, '"') && ReadString(s, i + 1) == Some((key, k)) && !HasKey(acc, key)
    requires CharAt(s, k, ':') && ParseValue(s, k + 1, nodes, depth + 1, lim) == Ok(t, n, nodes')
    ensures ParseEntry(s, i, nodes, depth, acc, lim) == Ok(Member(key, t), n, nodes')
  {
    hide ParseValue, ReadString, HasKey;
    assert SkipWs(s, i) == i && SkipWs(s, k) == k;
  }

  lemma MembersStep(s: string, i: nat, nodes: nat, depth: nat, acc: seq<Member>, lim: Limits, m: Member, n: nat, nodes': nat)
    requires i <= |s| && ParseEntry(s, i, nodes, depth, acc, lim) == Ok(m, n, nodes')
    requires CharAt(s, n, ',') || CharAt(s, n, '}')
    ensures ParseMembers(s, i, nodes, depth, acc, lim) ==
            if s[n] == ',' then ParseMembers(s, n + 1, nodes', depth, acc + [m], lim)
            else Ok(TObj(acc + [m]), n + 1, nodes')
  {
    hide ParseEntry;
    assert SkipWs(s, n) == n;
  }

  lemma {:induction false} ObjectPrinted(t: Tree, s: string, i: nat, nodes: nat, depth: nat, lim: Limits, w: string)
    requires t.TObj? && Fits(t, nodes, depth, lim) && w == Print(t) && At(s, i, w)
    ensures i + |w| <= |s| && ParseObject(s, i, nodes + 1, depth, lim) == Ok(t, i + |w|, nodes + Count(t))
    decreases t, 0
  {
    hide ParseObject, ParseMembers, ParseValue, HasKey, Escape;
    if t.members == [] {
      EmptyObject(s, i, nodes + 1, depth, lim);
    } else {
      var p := PrintMembers(t.members);
      AtBounds(s, i, w);
      assert w[1..] == p && p[0] == '"';
      OpenObject(s, i, nodes + 1, depth, lim);
      ObjectFits(t, nodes, depth, lim);
      hide Fits, MembersFit, Plain, Representable, WithinDepth, Print, PrintMembers, Count, CountMembers;
      assert [] + t.members == t.members;
      MembersPrinted(t.members, s, i + 1, nodes + 1, depth, [], lim, p);
    }
  }

  lemma ObjectFits(t: Tree, nodes: nat, depth: nat, lim: Limits)
    requires t.TObj? && Fits(t, nodes, depth, lim)
    ensures MembersFit(t.members, nodes + 1, depth + 1, lim) && DistinctKeys(t.members)
    ensures Count(t) == 1 + CountMembers(t.members)
  {}

  /** Where the parts of one printed member stand. */
  lemma MemberSplit(members: seq<Member>, s: string, i: nat, p: string) returns (k: string, w: string, tail: string)
    requires members != [] && p == PrintMembers(members) && At(s, i, p)
    ensures k == Quote(members[0].key) && w == Print(members[0].value)
    ensures tail == if |members| == 1 then "}" else "," + PrintMembers(members[1..])
    ensures |p| == |k| + 1 + |w| + |tail| && i + |p| <= |s|
    ensures At(s, i, k) && CharAt(s, i + |k|, ':') && At(s, i + |k| + 1, w)
    ensures At(s, i + |k| + 1 + |w|, tail) && s[i + |k| + 1 + |w|] == tail[0]
  {
    hide Print, Quote;
    k, w := Quote(members[0].key), Print(members[0].value);
    tail := if |members| == 1 then "}" else "," + PrintMembers(members[1..]);
    SplitAtColon(s, i, p, k, w, tail);
  }

  lemma SplitAtColon(s: string, i: nat, p: string, k: string, w: string, tail: string)
    requires p == k + (":" + (w + tail)) && tail != "" && At(s, i, p)
    ensures |p| == |k| + 1 + |w| + |tail| && i + |p| <= |s|
    ensures At(s, i, k) && CharAt(s, i + |k|, ':') && At(s, i + |k| + 1, w)
    ensures At(s, i + |k| + 1 + |w|, tail) && s[i + |k| + 1 + |w|] == tail[0]
  {
    AtBounds(s, i, p);
    AtSplit(s, i, k, ":" + (w + tail));
    AtSplit(s, i + |k|, ":", w + tail);
    AtSplit(s, i + |k| + 1, w, tail);
  }

  /** The first member is read, given its value. */
  lemma MemberReads(members: seq<Member>, s: string, i: nat, nodes: nat, depth: nat, acc: seq<Member>, lim: Limits, k: string, n: nat, nodes': nat)
    requires members != [] && DistinctKeys(acc + members) && k == Quote(members[0].key) && At(s, i, k) && CharAt(s, i + |k|, ':')
    requires ParseValue(s, i + |k| + 1, nodes, depth + 1, lim) == Ok(members[0].value, n, nodes')
    requires CharAt(s, n, ',') || CharAt(s, n, '}')
    ensures i <= |s|
    ensures ParseMembers(s, i, nodes, depth, acc, lim) ==
            if s[n] == ',' then ParseMembers(s, n + 1, nodes', depth, acc + [members[0]], lim)
            else Ok(TObj(acc + [members[0]]), n + 1, nodes')
  {
    hide ReadString, ParseValue, ParseEntry, ParseMembers, Quote, HasKey, DistinctKeys;
    var m := members[0];
    AtBounds(s, i, k);
    QuoteReads(s, i, m.key, k);
    FreshKey(acc, members);
    EntryParses(s, i, nodes, depth, acc, lim, m.key, i + |k|, m.value, n, nodes');
    assert Member(m.key, m.value) == m;
    MembersStep(s, i, nodes, depth, acc, lim, m, n, nodes');
  }

  lemma AtAfter(s: string, n: nat, tail: string, q: string)
    requires At(s, n, tail) && tail == "," + q
    ensures At(s, n + 1, q) && CharAt(s, n, ',')
  {
    assert tail[1..] == q;
  }

  lemma {:induction false} MembersPrinted(members: seq<Member>, s: string, i: nat, nodes: nat, depth: nat, acc: seq<Member>, lim: Limits, p: string)
    requires members != [] && MembersFit(members, nodes, depth + 1, lim) && p == PrintMembers(members) && At(s, i, p)
    requires DistinctKeys(acc + members)
    ensures i + |p| <= |s|
    ensures ParseMembers(s, i, nodes, depth, acc, lim) == Ok(TObj(acc + members), i + |p|, nodes + CountMembers(members))
    decreases members, 0
  {
    hide *;
    MembersFitSplit(members, nodes, depth + 1, lim);
    var k, w, tail := MemberSplit(members, s, i, p);
    var m := members[0];
    var n, nodes' := i + |k| + 1 + |w|, nodes + Count(m.value);
    CharIs(s, n, tail);
    ParsePrinted(m.value, s, i + |k| + 1, nodes, depth + 1, lim, w);
    if |members| == 1 {
      MemberReads(members, s, i, nodes, depth, acc, lim, k, n, nodes');
      assert members == [m] && members[1..] == [];
      NoMembers();
    } else {
      var q := PrintMembers(members[1..]);
      AtAfter(s, n, tail, q);
      MemberReads(members, s, i, nodes, depth, acc, lim, k, n, nodes');
      assert acc + [m] + members[1..] == acc + members;
      MembersPrinted(members[1..], s, n + 1, nodes', depth, acc + [m], lim, q);
    }
  }

  lemma CharIs(s: string, n: nat, tail: string)
    requires At(s, n, tail) && tail != ""
    ensures CharAt(s, n, tail[0]) && s[n] == tail[0]
    ensures tail[0] == ',' || tail[0] == ']' || tail[0] == '}' ==> Delimited(s, n)
  {}

  lemma NoMembers()
    ensures CountMembers([]) == 0 && CountItems([]) == 0
  {}

  lemma FreshKey(acc: seq<Member>, members: seq<Member>)
    requires members != [] && DistinctKeys(acc + members)
    ensures !HasKey(acc, members[0].key)
  {
    forall i | 0 <= i < |acc| ensures acc[i].key != members[0].key {
      assert (acc + members)[i] == acc[i] && (acc + members)[|acc|] == members[0];
    }
  }

  /** Whole texts: printing then parsing is the identity on every tree within the limits. */
  lemma RoundTrip(t: Tree, lim: Limits, w: string)
    requires Fits(t, 0, 0, lim) && w == Print(t) && ByteLength(w) <= lim.maxBytes
    ensures ParseText(w, lim) == Ok(t, |w|, Count(t))
  {
    hide ParseValue, Print;
    AtSelf(w);
    PrintHead(t, w);
    ParsePrinted(t, w, 0, 0, 0, lim, w);
  }
}
