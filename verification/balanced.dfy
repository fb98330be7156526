/** The brace scanner that cuts a JSON object out of a page agrees with the parser on
    where the object ends. */
module Balanced {
  import opened Text
  import opened Utf16
  import opened JsNumber
  import opened JsonTree
  import opened JsonParser

  /** `maxPageBytes`. */
  const MAX_PAGE_BYTES: nat := 2 * 1024 * 1024

  datatype State = State(depth: int, inString: bool, escaped: bool)

  /** The scanner's state after one character. */
  function Step(st: State, c: char): State {
    if st.inString then
      if st.escaped then st.(escaped := false)
      else if c == '\\' then st.(escaped := true)
      else if c == '"' then st.(inString := false)
      else st
    else if c == '"' then st.(inString := true)
    else if c == '{' then st.(depth := st.depth + 1)
    else if c == '}' then st.(depth := st.depth - 1)
    else st
  }

  /** The brace that brings the depth back to zero. */
  predicate Closes(st: State, c: char) { !st.inString && c == '}' && st.depth == 1 }

  /** Position after the closing brace, looking from `j`, `used` bytes into the page. */
  function Close(s: string, j: nat, used: nat, st: State): Option<nat>
    requires j <= |s|
    decreases |s| - j
  {
    if j == |s| || used >= MAX_PAGE_BYTES then None
    else if Closes(st, s[j]) then Some(j + 1)
    else Close(s, j + 1, used + CharBytes(s[j]), Step(st, s[j]))
  }

  /** `balancedJSON`: the slice from `start` to its matching brace, and the position after it. */
  method BalancedJson(s: string, start: nat) returns (slice: string, next: nat)
    ensures !CharAt(s, start, '{') ==> slice == "" && next == start
    ensures CharAt(s, start, '{') ==>
              match Close(s, start, 0, State(0, false, false))
              case None => slice == "" && next == start
              case Some(end) => start <= end <= |s| && slice == s[start..end] && next == end
  {
    if !CharAt(s, start, '{') { return "", start; }
    var depth, inString, escaped := 0, false, false;
    var j, used: nat := start, 0;
    while j < |s| && used < MAX_PAGE_BYTES
      invariant start <= j <= |s|
      invariant Close(s, j, used, State(depth, inString, escaped)) == Close(s, start, 0, State(0, false, false))
    {
      var c := s[j];
      if inString {
        if escaped {
          escaped := false;
        } else if c == '\\' {
          escaped := true;
        } else if c == '"' {
          inString := false;
        }
      } else if c == '"' {
        inString := true;
      } else if c == '{' {
        depth := depth + 1;
      } else if c == '}' {
        depth := depth - 1;
        if depth == 0 { return s[start..j + 1], j + 1; }
      }
      used := used + CharBytes(c);
      j := j + 1;
    }
    return "", start;
  }

  // ---- Running over a stretch of text ----

  /** The state at `n` when the stretch from `i` does not close the object. */
  function After(s: string, i: nat, n: nat, st: State): Option<State>
    requires i <= n <= |s|
    decreases n - i
  {
    if i == n then Some(st)
    else if Closes(st, s[i]) then None
    else After(s, i + 1, n, Step(st, s[i]))
  }

  lemma {:induction false} AfterTrans(s: string, i: nat, m: nat, n: nat, st: State, st1: State)
    requires i <= m <= n <= |s| && After(s, i, m, st) == Some(st1)
    ensures After(s, i, n, st) == After(s, m, n, st1)
    decreases m - i
  {
    if i < m { AfterTrans(s, i + 1, m, n, Step(st, s[i]), st1); }
  }

  /** The stretch leaves the scanner outside strings at the same depth. */
  ghost predicate Neutral(s: string, i: nat, n: nat, d: int) {
    i <= n <= |s| && After(s, i, n, State(d, false, false)) == Some(State(d, false, false))
  }

  lemma NeutralTrans(s: string, i: nat, m: nat, n: nat, d: int)
    requires Neutral(s, i, m, d) && Neutral(s, m, n, d)
    ensures Neutral(s, i, n, d)
  {
    AfterTrans(s, i, m, n, State(d, false, false), State(d, false, false));
  }

  predicate Quiet(c: char) { c != '"' && c != '{' && c != '}' }

  lemma {:induction false} QuietNeutral(s: string, i: nat, n: nat, d: int)
    requires i <= n <= |s| && forall k | i <= k < n :: Quiet(s[k])
    ensures Neutral(s, i, n, d)
    decreases n - i
  {
    if i < n { QuietNeutral(s, i + 1, n, d); }
  }

  lemma {:induction false} SpaceNeutral(s: string, i: nat, d: int)
    requires i <= |s|
    ensures Neutral(s, i, SkipWs(s, i), d)
    decreases |s| - i
  {
    if i < |s| && IsWs(s[i]) { SpaceNeutral(s, i + 1, d); }
  }

  // ---- Strings, numbers and words ----

  lemma {:induction false} StringBodyNeutral(s: string, i: nat, d: int)
    requires i <= |s| && ScanUnits(s, i).Some?
    ensures After(s, i, ScanUnits(s, i).value.1, State(d, true, false)) == Some(State(d, false, false))
    decreases |s| - i
  {
    hide Prepend, EncodeChar, Hex4Value;
    var n := ScanUnits(s, i).value.1;
    if s[i] != '"' {
      var next := if s[i] != '\\' then i + 1 else if s[i + 1] == 'u' then i + 6 else i + 2;
      BodyStep(s, i, next, d);
      StringBodyNeutral(s, next, d);
      AfterTrans(s, i, next, n, State(d, true, false), State(d, true, false));
    }
  }

  /** One character or escape of a string body keeps the scanner inside the string. */
  lemma BodyStep(s: string, i: nat, next: nat, d: int)
    requires i < |s| && ScanUnits(s, i).Some? && s[i] != '"'
    requires next == if s[i] != '\\' then i + 1 else if i + 1 < |s| && s[i + 1] == 'u' then i + 6 else i + 2
    ensures next <= |s| && ScanUnits(s, next).Some? && ScanUnits(s, next).value.1 == ScanUnits(s, i).value.1
    ensures After(s, i, next, State(d, true, false)) == Some(State(d, true, false))
  {
    hide EncodeChar, Hex4Value;
    if s[i] == '\\' {
      EscapeNeutral(s, i, d);
    }
    if s[i] == '\\' && s[i + 1] == 'u' {
      HexNeutral(s, i + 2, d);
      AfterTrans(s, i, i + 2, i + 6, State(d, true, false), State(d, true, false));
    }
  }

  lemma EscapeNeutral(s: string, i: nat, d: int)
    requires i + 1 < |s| && s[i] == '\\'
    ensures After(s, i, i + 2, State(d, true, false)) == Some(State(d, true, false))
  {
    assert After(s, i + 1, i + 2, State(d, true, true)) == Some(State(d, true, false));
  }

  lemma HexNeutral(s: string, i: nat, d: int)
    requires Hex4(s, i)
    ensures After(s, i, i + 4, State(d, true, false)) == Some(State(d, true, false))
  {
    var st := State(d, true, false);
    assert After(s, i + 3, i + 4, st) == Some(st);
    assert After(s, i + 2, i + 4, st) == Some(st);
  }

  /** A whole string, from its opening quote. */
  lemma StringNeutral(s: string, i: nat, d: int)
    requires CharAt(s, i, '"') && ReadString(s, i + 1).Some?
    ensures Neutral(s, i, ReadString(s, i + 1).value.1, d)
  {
    hide ScanUnits, Decode;
    StringBodyNeutral(s, i + 1, d);
  }

  lemma {:induction false} RunQuiet(s: string, i: nat)
    requires i <= |s|
    ensures forall k | i <= k < DigitRun(s, i) :: Quiet(s[k])
    decreases |s| - i
  {
    if DigitAt(s, i) { RunQuiet(s, i + 1); }
  }

  lemma PartsQuiet(s: string, i: nat)
    requires i <= |s|
    ensures ScanWhole(s, i).Some? ==> forall k | i <= k < ScanWhole(s, i).value :: Quiet(s[k])
    ensures ScanFraction(s, i).Some? ==> forall k | i <= k < ScanFraction(s, i).value :: Quiet(s[k])
    ensures ScanExponent(s, i).Some? ==> forall k | i <= k < ScanExponent(s, i).value :: Quiet(s[k])
  {
    RunQuiet(s, i);
    if i < |s| {
      RunQuiet(s, i + 1);
      if ScanExponent(s, i).Some? && ScanExponent(s, i).value != i { RunQuiet(s, ExponentDigits(s, i)); }
    }
  }

  lemma UnsignedQuiet(s: string, a: nat, negative: bool)
    requires a <= |s| && ScanUnsigned(s, a, negative).Some?
    ensures forall k | a <= k < ScanUnsigned(s, a, negative).value.1 :: Quiet(s[k])
  {
    hide ScanWhole, ScanFraction, ScanExponent, ExponentValue;
    PartsQuiet(s, a);
    var b := ScanWhole(s, a).value;
    PartsQuiet(s, b);
    PartsQuiet(s, ScanFraction(s, b).value);
  }

  lemma NumberNeutral(s: string, i: nat, d: int)
    requires i <= |s| && ReadNumber(s, i).Some?
    ensures Neutral(s, i, ReadNumber(s, i).value.1, d)
  {
    hide ScanUnsigned, Exact;
    var a := if CharAt(s, i, '-') then i + 1 else i;
    UnsignedQuiet(s, a, CharAt(s, i, '-'));
    QuietNeutral(s, i, ReadNumber(s, i).value.1, d);
  }

  lemma WordNeutral(s: string, i: nat, nodes: nat, d: int)
    requires i <= |s| && ParseWord(s, i, nodes).Ok?
    ensures Neutral(s, i, ParseWord(s, i, nodes).next, d)
  {
    var w := if At(s, i, "true") then "true" else if At(s, i, "false") then "false" else "null";
    AtSlice(s, i, w);
    forall k | i <= k < i + |w| ensures Quiet(s[k]) { assert s[k] == s[i..i + |w|][k - i]; }
    QuietNeutral(s, i, i + |w|, d);
  }

  // ---- Values ----

  lemma {:induction false} ValueNeutral(s: string, i: nat, nodes: nat, depth: nat, lim: Limits, d: int)
    requires i <= |s| && d >= 1 && ParseValue(s, i, nodes, depth, lim).Ok?
    ensures Neutral(s, i, ParseValue(s, i, nodes, depth, lim).next, d)
    decreases |s| - i, 3
  {
    hide ParseObject, ParseArray, ReadString, ReadNumber, ParseWord, Neutral;
    var j := SkipWs(s, i);
    var n := ParseValue(s, i, nodes, depth, lim).next;
    SpaceNeutral(s, i, d);
    if s[j] == '{' { ObjectNeutral(s, j, nodes + 1, depth, lim, d); }
    else if s[j] == '[' { ArrayNeutral(s, j, nodes + 1, depth, lim, d); }
    else if s[j] == '"' { StringNeutral(s, j, d); }
    else if s[j] == '-' || IsDigit(s[j]) { NumberNeutral(s, j, d); }
    else { WordNeutral(s, j, nodes + 1, d); }
    NeutralTrans(s, i, j, n, d);
  }

  lemma {:induction false} ArrayNeutral(s: string, i: nat, nodes: nat, depth: nat, lim: Limits, d: int)
    requires i < |s| && s[i] == '[' && d >= 1 && ParseArray(s, i, nodes, depth, lim).Ok?
    ensures Neutral(s, i, ParseArray(s, i, nodes, depth, lim).next, d)
    decreases |s| - i, 2
  {
    hide ParseItems, Neutral;
    var j := SkipWs(s, i + 1);
    var n := ParseArray(s, i, nodes, depth, lim).next;
    QuietNeutral(s, i, i + 1, d);
    SpaceNeutral(s, i + 1, d);
    NeutralTrans(s, i, i + 1, j, d);
    if CharAt(s, j, ']') {
      QuietNeutral(s, j, n, d);
    } else {
      ItemsNeutral(s, j, nodes, depth, [], lim, d);
    }
    NeutralTrans(s, i, j, n, d);
  }

  lemma {:induction false} ItemsNeutral(s: string, i: nat, nodes: nat, depth: nat, acc: seq<Tree>, lim: Limits, d: int)
    requires i <= |s| && d >= 1 && ParseItems(s, i, nodes, depth, acc, lim).Ok?
    ensures Neutral(s, i, ParseItems(s, i, nodes, depth, acc, lim).next, d)
    decreases |s| - i, 4
  {
    hide ParseValue, Neutral;
    var n := ParseItems(s, i, nodes, depth, acc, lim).next;
    ValueNeutral(s, i, nodes, depth + 1, lim, d);
    var v := ParseValue(s, i, nodes, depth + 1, lim);
    var m := SkipWs(s, v.next);
    SpaceNeutral(s, v.next, d);
    NeutralTrans(s, i, v.next, m, d);
    QuietNeutral(s, m, m + 1, d);
    NeutralTrans(s, i, m, m + 1, d);
    if CharAt(s, m, ',') {
      ItemsNeutral(s, m + 1, v.nodes, depth, acc + [v.value], lim, d);
      NeutralTrans(s, i, m + 1, n, d);
    }
  }

  lemma {:induction false} EntryNeutral(s: string, i: nat, nodes: nat, depth: nat, acc: seq<Member>, lim: Limits, d: int)
    requires i <= |s| && d >= 1 && ParseEntry(s, i, nodes, depth, acc, lim).Ok?
    ensures Neutral(s, i, ParseEntry(s, i, nodes, depth, acc, lim).next, d)
    decreases |s| - i, 1
  {
    hide ParseValue, ReadString, HasKey, Neutral;
    var q := SkipWs(s, i);
    SpaceNeutral(s, i, d);
    StringNeutral(s, q, d);
    var k := ReadString(s, q + 1).value.1;
    NeutralTrans(s, i, q, k, d);
    SpaceNeutral(s, k, d);
    var c := SkipWs(s, k);
    NeutralTrans(s, i, k, c, d);
    QuietNeutral(s, c, c + 1, d);
    NeutralTrans(s, i, c, c + 1, d);
    ValueNeutral(s, c + 1, nodes, depth + 1, lim, d);
    NeutralTrans(s, i, c + 1, ParseValue(s, c + 1, nodes, depth + 1, lim).next, d);
  }

  /** The members, up to but not including the closing brace. */
  lemma {:induction false} MembersNeutral(s: string, i: nat, nodes: nat, depth: nat, acc: seq<Member>, lim: Limits, d: int)
    requires i <= |s| && d >= 1 && ParseMembers(s, i, nodes, depth, acc, lim).Ok?
    ensures var n := ParseMembers(s, i, nodes, depth, acc, lim).next;
            s[n - 1] == '}' && Neutral(s, i, n - 1, d)
    decreases |s| - i, 4
  {
    hide ParseEntry, Neutral;
    var n := ParseMembers(s, i, nodes, depth, acc, lim).next;
    EntryNeutral(s, i, nodes, depth, acc, lim, d);
    var v := ParseEntry(s, i, nodes, depth, acc, lim);
    var m := SkipWs(s, v.next);
    SpaceNeutral(s, v.next, d);
    NeutralTrans(s, i, v.next, m, d);
    if CharAt(s, m, ',') {
      QuietNeutral(s, m, m + 1, d);
      NeutralTrans(s, i, m, m + 1, d);
      MembersNeutral(s, m + 1, v.nodes, depth, acc + [v.value], lim, d);
      NeutralTrans(s, i, m + 1, n - 1, d);
    }
  }

  /** Between its braces an object is neutral, one level down. */
  lemma {:induction false} InsideNeutral(s: string, i: nat, nodes: nat, depth: nat, lim: Limits, d: int)
    requires i < |s| && s[i] == '{' && d >= 1 && ParseObject(s, i, nodes, depth, lim).Ok?
    ensures var n := ParseObject(s, i, nodes, depth, lim).next;
            i + 1 < n && s[n - 1] == '}' && Neutral(s, i + 1, n - 1, d)
    decreases |s| - i, 1
  {
    hide ParseMembers, Neutral;
    var j := SkipWs(s, i + 1);
    var n := ParseObject(s, i, nodes, depth, lim).next;
    SpaceNeutral(s, i + 1, d);
    if !CharAt(s, j, '}') {
      MembersNeutral(s, j, nodes, depth, [], lim, d);
      NeutralTrans(s, i + 1, j, n - 1, d);
    }
  }

  lemma {:induction false} ObjectNeutral(s: string, i: nat, nodes: nat, depth: nat, lim: Limits, d: int)
    requires i < |s| && s[i] == '{' && d >= 1 && ParseObject(s, i, nodes, depth, lim).Ok?
    ensures Neutral(s, i, ParseObject(s, i, nodes, depth, lim).next, d)
    decreases |s| - i, 2
  {
    hide ParseObject;
    InsideNeutral(s, i, nodes, depth, lim, d + 1);
    Enclose(s, i, ParseObject(s, i, nodes, depth, lim).next, d);
  }

  lemma Enclose(s: string, i: nat, n: nat, d: int)
    requires i + 1 < n <= |s| && s[i] == '{' && s[n - 1] == '}' && d >= 1 && Neutral(s, i + 1, n - 1, d + 1)
    ensures Neutral(s, i, n, d)
  {
    AfterTrans(s, i + 1, n - 1, n, State(d + 1, false, false), State(d + 1, false, false));
    assert After(s, n - 1, n, State(d + 1, false, false)) == Some(State(d, false, false));
  }

  // ---- The scanner finds the parser's extent ----

  lemma {:induction false} CloseAfter(s: string, p: nat, j: nat, n: nat, st: State, st': State)
    requires p <= j <= n < |s| && After(s, j, n, st) == Some(st')
    requires ByteLength(s[p..n]) < MAX_PAGE_BYTES
    ensures Close(s, j, ByteLength(s[p..j]), st) == Close(s, n, ByteLength(s[p..n]), st')
    decreases n - j
  {
    if j < n {
      assert s[p..n][..j - p] == s[p..j];
      ByteLengthMonotone(s[p..n], j - p);
      ByteLengthStep(s, p, j);
      CloseAfter(s, p, j + 1, n, Step(st, s[j]), st');
    }
  }

  lemma ByteLengthStep(s: string, p: nat, j: nat)
    requires p <= j < |s|
    ensures ByteLength(s[p..j + 1]) == ByteLength(s[p..j]) + CharBytes(s[j])
  {
    var w := s[p..j + 1];
    assert w[..|w| - 1] == s[p..j];
  }

  /** Past the page limit nothing is found. */
  lemma {:induction false} CloseTooLong(s: string, p: nat, j: nat, n: nat, st: State)
    requires p <= j <= n < |s| && After(s, j, n, st).Some?
    requires ByteLength(s[p..n]) >= MAX_PAGE_BYTES
    ensures Close(s, j, ByteLength(s[p..j]), st).None?
    decreases n - j
  {
    if ByteLength(s[p..j]) < MAX_PAGE_BYTES {
      ByteLengthStep(s, p, j);
      CloseTooLong(s, p, j + 1, n, Step(st, s[j]));
    }
  }

  /** Whenever the parser reads an object from `p` to `q`, the scanner returns exactly that
      slice and `q` when it fits the page limit, and finds nothing when it does not. */
  lemma ScannerAgrees(s: string, p: nat, nodes: nat, depth: nat, lim: Limits)
    requires CharAt(s, p, '{') && ParseObject(s, p, nodes, depth, lim).Ok?
    ensures var q := ParseObject(s, p, nodes, depth, lim).next;
            Close(s, p, 0, State(0, false, false)) == if ByteLength(s[p..q]) <= MAX_PAGE_BYTES then Some(q) else None
  {
    hide ParseObject, ByteLength, CharBytes;
    var n := ParseObject(s, p, nodes, depth, lim).next;
    InsideNeutral(s, p, nodes, depth, lim, 1);
    assert After(s, p, n - 1, State(0, false, false)) == After(s, p + 1, n - 1, State(1, false, false));
    ByteLengthStep(s, p, n - 1);
    BraceBytes();
    assert s[p..p] == "";
    if ByteLength(s[p..n]) <= MAX_PAGE_BYTES {
      CloseAfter(s, p, p, n - 1, State(0, false, false), State(1, false, false));
    } else {
      CloseTooLong(s, p, p, n - 1, State(0, false, false));
    }
  }

  lemma BraceBytes()
    ensures ByteLength("") == 0 && CharBytes('}') == 1
  {}
}
