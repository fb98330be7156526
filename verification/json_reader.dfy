/** The bounded JSON parser as it runs: a cursor, a node counter and one-pass string
    decoding, proved to compute what `JsonParser` specifies. */
module JsonReader {
  import opened Text
  import opened Utf16
  import opened JsNumber
  import opened JsonTree
  import opened JsonParser

  datatype Result<+T> = Success(value: T) | Failure(error: Error)

  // ---- One-pass decoding of surrogates ----

  /** A high surrogate waiting for its pair, or nothing (-1). */
  type Pending = p: int | p == -1 || 0xD800 <= p < 0xDC00 witness -1

  function Waiting(p: Pending): seq<CodeUnit> { if p == -1 then [] else [p] }

  /** The result the reference gives when `b` is written and `p` waits before position `i`. */
  function Rest(s: string, i: nat, b: string, p: Pending): Option<(string, nat)>
    requires i <= |s|
  {
    match ScanUnits(s, i)
    case None => None
    case Some((us, end)) => Some((b + Decode(Waiting(p) + us), end))
  }

  function Flush(b: string, p: Pending): string { if p == -1 then b else b + [REPLACEMENT] }

  /** The text written so far and the surrogate waiting. */
  datatype Decoder = Decoder(text: string, waiting: Pending)

  /** What a `\u` unit does. */
  function AfterUnit(b: string, p: Pending, u: CodeUnit): Decoder {
    if p != -1 && IsLow(u) then Decoder(b + [Combine(p, u)], -1)
    else
      var f := Flush(b, p);
      if IsHigh(u) then Decoder(f, u)
      else if IsLow(u) then Decoder(f + [REPLACEMENT], -1)
      else Decoder(f + [u as char], -1)
  }

  lemma CharStep(b: string, p: Pending, c: char, us: seq<CodeUnit>)
    ensures b + Decode(Waiting(p) + (EncodeChar(c) + us)) == Flush(b, p) + [c] + Decode(Waiting(-1) + us)
  {
    hide Decode, EncodeChar;
    assert Waiting(-1) + us == us;
    if p == -1 {
      assert Waiting(p) + (EncodeChar(c) + us) == EncodeChar(c) + us;
      DecodeCharFirst(c, us);
    } else {
      assert Waiting(p) + (EncodeChar(c) + us) == [p] + EncodeChar(c) + us;
      DecodeLoneThenChar(p, c, us);
    }
  }

  lemma UnitStep(b: string, p: Pending, u: CodeUnit, us: seq<CodeUnit>)
    ensures var d := AfterUnit(b, p, u);
            b + Decode(Waiting(p) + ([u] + us)) == d.text + Decode(Waiting(d.waiting) + us)
  {
    if p == -1 {
      assert Waiting(p) + ([u] + us) == [u] + us;
      FreshUnit(b, u, us);
    } else {
      var all := [p] + ([u] + us);
      assert all[0] == p && all[1] == u && all[1..] == [u] + us && all[2..] == us;
      if IsLow(u) {
        assert Waiting(-1) + us == us;
        assert Decode(all) == [Combine(p, u)] + Decode(us);
      } else {
        assert Decode(all) == [REPLACEMENT] + Decode([u] + us);
        assert b + ([REPLACEMENT] + Decode([u] + us)) == Flush(b, p) + Decode([u] + us);
        FreshUnit(Flush(b, p), u, us);
      }
    }
  }

  /** A unit with nothing waiting before it. */
  lemma FreshUnit(b: string, u: CodeUnit, us: seq<CodeUnit>)
    ensures var d := AfterUnit(b, -1, u);
            b + Decode([u] + us) == d.text + Decode(Waiting(d.waiting) + us)
  {
    var all := [u] + us;
    assert all[1..] == us && Waiting(-1) + us == us;
    if !IsHigh(u) {
      var c := if IsLow(u) then REPLACEMENT else u as char;
      assert b + ([c] + Decode(us)) == b + [c] + Decode(us);
    }
  }

  lemma RestChar(s: string, i: nat, b: string, p: Pending, c: char, next: nat)
    requires i <= next <= |s| && ScanUnits(s, i) == Prepend(EncodeChar(c), ScanUnits(s, next))
    ensures Rest(s, i, b, p) == Rest(s, next, Flush(b, p) + [c], -1)
  {
    hide ScanUnits, Decode, EncodeChar;
    if ScanUnits(s, next).Some? { CharStep(b, p, c, ScanUnits(s, next).value.0); }
  }

  lemma RestUnit(s: string, i: nat, b: string, p: Pending, u: CodeUnit, next: nat)
    requires i <= next <= |s| && ScanUnits(s, i) == Prepend([u], ScanUnits(s, next))
    ensures Rest(s, i, b, p) == Rest(s, next, AfterUnit(b, p, u).text, AfterUnit(b, p, u).waiting)
  {
    hide ScanUnits, Decode;
    if ScanUnits(s, next).Some? { UnitStep(b, p, u, ScanUnits(s, next).value.0); }
  }

  lemma RestEnd(s: string, i: nat, b: string, p: Pending)
    requires CharAt(s, i, '"')
    ensures Rest(s, i, b, p) == Some((Flush(b, p), i + 1))
  {
    DecodeWaiting(p);
    assert Waiting(p) + [] == Waiting(p);
    assert b + Decode(Waiting(p)) == Flush(b, p);
  }

  lemma DecodeWaiting(p: Pending)
    ensures Decode(Waiting(p)) == Flush("", p)
  {}

  lemma RestNone(s: string, i: nat, b: string, p: Pending)
    requires i <= |s|
    ensures ScanUnits(s, i).None? ==> Rest(s, i, b, p).None?
  {}

  lemma RestStart(s: string, i: nat)
    requires i <= |s|
    ensures Rest(s, i, "", -1) == ReadString(s, i)
  {
    hide ScanUnits, Decode;
    if ScanUnits(s, i).Some? {
      var us := ScanUnits(s, i).value.0;
      assert Waiting(-1) + us == us && "" + Decode(us) == Decode(us);
    }
  }

  /** One turn of the scanning loop: either an error, the end, a character or a unit. */
  lemma ScanStep(s: string, i: nat)
    requires i <= |s|
    ensures i == |s| ==> ScanUnits(s, i).None?
    ensures i < |s| && s[i] == '\\' && i + 1 == |s| ==> ScanUnits(s, i).None?
    ensures i + 1 < |s| && s[i] == '\\' && s[i + 1] == 'u' ==>
              ScanUnits(s, i) == if Hex4(s, i + 2) then Prepend([Hex4Value(s, i + 2)], ScanUnits(s, i + 6)) else None
    ensures i + 1 < |s| && s[i] == '\\' && s[i + 1] != 'u' ==>
              ScanUnits(s, i) == match SimpleEscape(s[i + 1])
                                 case None => None
                                 case Some(c) => Prepend(EncodeChar(c), ScanUnits(s, i + 2))
    ensures i < |s| && s[i] != '\\' && s[i] != '"' ==>
              ScanUnits(s, i) == if s[i] < ' ' then None else Prepend(EncodeChar(s[i]), ScanUnits(s, i + 1))
  {}

  class BoundedParser {
    const s: string
    const limits: Limits
    var i: nat
    var nodes: nat

    predicate Valid()
      reads this
    {
      i <= |s|
    }

    /** The run ended as the specification says: same value or error, same cursor, same count. */
    ghost predicate Agrees(spec: Parsed<Tree>, r: Result<Tree>)
      reads this
    {
      match spec
      case Fail(e) => r == Failure(e)
      case Ok(t, next, n) => r == Success(t) && i == next && nodes == n
    }

    constructor (text: string, limits: Limits)
      ensures Valid() && s == text && this.limits == limits && i == 0 && nodes == 0
    {
      s, this.limits, i, nodes := text, limits, 0, 0;
    }

    method SkipSpace()
      requires Valid()
      modifies this`i
      ensures Valid() && i == SkipWs(s, old(i))
    {
      while i < |s| && IsWs(s[i])
        invariant Valid() && SkipWs(s, i) == SkipWs(s, old(i))
      {
        i := i + 1;
      }
    }

    method SkipDigits()
      requires Valid()
      modifies this`i
      ensures Valid() && i == DigitRun(s, old(i))
    {
      while DigitAt(s, i)
        invariant Valid() && DigitRun(s, i) == DigitRun(s, old(i))
        decreases |s| - i
      {
        i := i + 1;
      }
    }

    /** `parseString`, with the cursor on the opening quote. */
    method ReadText() returns (r: Option<string>)
      requires i < |s|
      modifies this`i
      ensures Valid()
      ensures match ReadString(s, old(i) + 1)
              case None => r.None?
              case Some((text, end)) => r == Some(text) && i == end
    {
      hide ScanUnits, ReadString, Rest, Decode, EncodeChar, Hex4Value, Combine;
      i := i + 1;
      var b := "";
      var pendingHigh: Pending := -1;
      RestStart(s, i);
      while true
        invariant old(i) + 1 <= i <= |s|
        invariant Rest(s, i, b, pendingHigh) == ReadString(s, old(i) + 1)
        decreases |s| - i
      {
        ScanStep(s, i);
        RestNone(s, i, b, pendingHigh);
        if i == |s| { return None; }
        var c := s[i];
        if c == '"' {
          RestEnd(s, i, b, pendingHigh);
          i := i + 1;
          return Some(Flush(b, pendingHigh));
        } else if c == '\\' {
          if i + 1 == |s| { return None; }
          var e := s[i + 1];
          if e == 'u' {
            if !Hex4(s, i + 2) { return None; }
            var cu := Hex4Value(s, i + 2);
            RestUnit(s, i, b, pendingHigh, cu, i + 6);
            i := i + 6;
            if pendingHigh != -1 && IsLow(cu) {
              b, pendingHigh := b + [Combine(pendingHigh, cu)], -1;
            } else {
              b, pendingHigh := Flush(b, pendingHigh), -1;
              if IsSurrogate(cu) {
                if cu < 0xDC00 { pendingHigh := cu; } else { b := b + [REPLACEMENT]; }
              } else {
                b := b + [cu as char];
              }
            }
          } else {
            if SimpleEscape(e).None? { return None; }
            RestChar(s, i, b, pendingHigh, SimpleEscape(e).value, i + 2);
            b, pendingHigh := Flush(b, pendingHigh) + [SimpleEscape(e).value], -1;
            i := i + 2;
          }
        } else if c < ' ' {
          return None;
        } else {
          RestChar(s, i, b, pendingHigh, c, i + 1);
          b, pendingHigh := Flush(b, pendingHigh) + [c], -1;
          i := i + 1;
        }
      }
    }

    method SkipWhole() returns (ok: bool)
      requires Valid()
      modifies this`i
      ensures Valid() && ok == ScanWhole(s, old(i)).Some? && (ok ==> i == ScanWhole(s, old(i)).value)
    {
      ok := true;
      if CharAt(s, i, '0') {
        i := i + 1;
      } else if DigitAt(s, i) {
        SkipDigits();
      } else {
        ok := false;
      }
    }

    method SkipFraction() returns (ok: bool)
      requires Valid()
      modifies this`i
      ensures Valid() && ok == ScanFraction(s, old(i)).Some? && (ok ==> i == ScanFraction(s, old(i)).value)
    {
      ok := true;
      if CharAt(s, i, '.') {
        i := i + 1;
        if !DigitAt(s, i) { return false; }
        SkipDigits();
      }
    }

    method SkipExponent() returns (ok: bool)
      requires Valid()
      modifies this`i
      ensures Valid() && ok == ScanExponent(s, old(i)).Some? && (ok ==> i == ScanExponent(s, old(i)).value)
    {
      ok := true;
      if CharAt(s, i, 'e') || CharAt(s, i, 'E') {
        i := i + 1;
        if CharAt(s, i, '+') || CharAt(s, i, '-') { i := i + 1; }
        if !DigitAt(s, i) { return false; }
        SkipDigits();
      }
    }

    /** The literal after its sign. */
    method ReadUnsigned(negative: bool) returns (literal: Option<Literal>)
      requires Valid()
      modifies this`i
      ensures Valid()
      ensures match ScanUnsigned(s, old(i), negative)
              case None => literal.None?
              case Some((lit, end)) => literal == Some(lit) && i == end
    {
      hide ScanWhole, ScanFraction, ScanExponent, ExponentValue;
      var start := i;
      var ok := SkipWhole();
      if !ok { return None; }
      var whole := i;
      ok := SkipFraction();
      if !ok { return None; }
      var frac := i;
      ok := SkipExponent();
      if !ok { return None; }
      Assemble(s, start, negative, whole, frac, i);
      literal := Some(Literal(negative, s[start..whole], if frac == whole then "" else s[whole + 1..frac],
                              ExponentValue(s, frac, i)));
    }

    /** `parseNumber`: the literal, then its decimal rounded to a double. */
    method ReadNumeral() returns (r: Result<Tree>)
      requires i < |s|
      modifies this`i
      ensures Valid() && Agrees(ParseNumber(s, old(i), nodes, limits), r)
    {
      hide ScanUnsigned, Exact;
      ScanWellFormed(s, i);
      var negative := CharAt(s, i, '-');
      if negative { i := i + 1; }
      var literal := ReadUnsigned(negative);
      if literal.None? { return Failure(ParseError); }
      match limits.round(Exact(literal.value))
      case None => return Failure(ParseError);
      case Some(f) => return Success(TNum(f));
    }

    /** `parseValue`. */
    method ReadValue(depth: nat) returns (r: Result<Tree>)
      requires Valid()
      modifies this`i, this`nodes
      ensures Valid() && Agrees(ParseValue(s, old(i), old(nodes), depth, limits), r)
      decreases |s| - i, 2
    {
      hide ParseNumber, ParseString, ParseObject, ParseArray, ReadString;
      if depth > limits.maxDepth { return Failure(DepthExceeded); }
      nodes := nodes + 1;
      if nodes > limits.maxNodes { return Failure(TooLarge); }
      SkipSpace();
      if i == |s| { return Failure(ParseError); }
      var c := s[i];
      if c == '{' {
        r := ReadObject(depth);
      } else if c == '[' {
        r := ReadArray(depth);
      } else if c == '"' {
        r := ReadStringValue();
      } else if c == '-' || IsDigit(c) {
        r := ReadNumeral();
      } else {
        r := ReadWord();
      }
    }

    method ReadStringValue() returns (r: Result<Tree>)
      requires i < |s|
      modifies this`i
      ensures Valid() && Agrees(ParseString(s, old(i) + 1, nodes), r)
    {
      hide ReadString;
      var text := ReadText();
      r := match text case None => Failure(ParseError) case Some(str) => Success(TStr(str));
    }

    method ReadWord() returns (r: Result<Tree>)
      requires Valid()
      modifies this`i
      ensures Valid() && Agrees(ParseWord(s, old(i), nodes), r)
    {
      if At(s, i, "true") {
        AtBounds(s, i, "true");
        i := i + 4;
        return Success(TBool(true));
      } else if At(s, i, "false") {
        AtBounds(s, i, "false");
        i := i + 5;
        return Success(TBool(false));
      } else if At(s, i, "null") {
        AtBounds(s, i, "null");
        i := i + 4;
        return Success(TNull);
      } else {
        return Failure(ParseError);
      }
    }

    /** `parseObject`, with the cursor on the brace. */
    method ReadObject(depth: nat) returns (r: Result<Tree>)
      requires i < |s|
      modifies this`i, this`nodes
      ensures Valid() && Agrees(ParseObject(s, old(i), old(nodes), depth, limits), r)
      decreases |s| - i, 1
    {
      hide ParseEntry;
      ghost var spec := ParseObject(s, i, nodes, depth, limits);
      i := i + 1;
      SkipSpace();
      if CharAt(s, i, '}') {
        i := i + 1;
        return Success(TObj([]));
      }
      var out: seq<Member> := [];
      while true
        invariant old(i) < i <= |s| && spec == ParseMembers(s, i, nodes, depth, out, limits)
        decreases |s| - i
      {
        var entry := ReadEntry(depth, out);
        if entry.Failure? { return Failure(entry.error); }
        out := out + [entry.value];
        SkipSpace();
        if CharAt(s, i, ',') {
          i := i + 1;
        } else if CharAt(s, i, '}') {
          i := i + 1;
          return Success(TObj(out));
        } else {
          return Failure(ParseError);
        }
      }
    }

    /** A key not seen before, the colon and the value. */
    method ReadEntry(depth: nat, out: seq<Member>) returns (r: Result<Member>)
      requires Valid()
      modifies this`i, this`nodes
      ensures Valid()
      ensures match ParseEntry(s, old(i), old(nodes), depth, out, limits)
              case Fail(e) => r == Failure(e)
              case Ok(m, next, n) => r == Success(m) && i == next && nodes == n
      decreases |s| - i, 0
    {
      hide ParseValue, ReadString, HasKey;
      SkipSpace();
      if !CharAt(s, i, '"') { return Failure(ParseError); }
      var text := ReadText();
      if text.None? { return Failure(ParseError); }
      var key := text.value;
      if HasKey(out, key) { return Failure(ParseError); }
      SkipSpace();
      if !CharAt(s, i, ':') { return Failure(ParseError); }
      i := i + 1;
      var value := ReadValue(depth + 1);
      r := match value case Failure(e) => Failure(e) case Success(t) => Success(Member(key, t));
    }

    /** `parseArray`, with the cursor on the bracket. */
    method ReadArray(depth: nat) returns (r: Result<Tree>)
      requires i < |s|
      modifies this`i, this`nodes
      ensures Valid() && Agrees(ParseArray(s, old(i), old(nodes), depth, limits), r)
      decreases |s| - i, 1
    {
      hide ParseValue;
      ghost var spec := ParseArray(s, i, nodes, depth, limits);
      i := i + 1;
      SkipSpace();
      if CharAt(s, i, ']') {
        i := i + 1;
        return Success(TArr([]));
      }
      var out: seq<Tree> := [];
      while true
        invariant old(i) < i <= |s| && spec == ParseItems(s, i, nodes, depth, out, limits)
        decreases |s| - i
      {
        var value := ReadValue(depth + 1);
        if value.Failure? { return Failure(value.error); }
        out := out + [value.value];
        SkipSpace();
        if CharAt(s, i, ',') {
          i := i + 1;
        } else if CharAt(s, i, ']') {
          i := i + 1;
          return Success(TArr(out));
        } else {
          return Failure(ParseError);
        }
      }
    }
  }

  /** `parseJSONSafely`. */
  method ParseJsonSafely(text: string, limits: Limits) returns (r: Result<Tree>)
    ensures r == match ParseText(text, limits) case Ok(t, _, _) => Success(t) case Fail(e) => Failure(e)
  {
    hide ParseValue;
    if ByteLength(text) > limits.maxBytes { return Failure(TooLarge); }
    var p := new BoundedParser(text, limits);
    p.SkipSpace();
    var value := p.ReadValue(0);
    if value.Failure? { return value; }
    p.SkipSpace();
    r := if p.i == |text| then value else Failure(ParseError);
  }
}
