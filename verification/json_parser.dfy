/** What the bounded JSON parser accepts and returns, position by position. */
module JsonParser {
  import opened Text
  import opened Utf16
  import opened JsNumber
  import opened JsonTree

  /** `round` is how `strconv.ParseFloat` turns a decimal into a double: the decimal
      of that double, or nothing when it overflows. */
  datatype Limits = Limits(maxBytes: int, maxDepth: int, maxNodes: int, round: Number -> Option<Number>)

  datatype Error = ParseError | DepthExceeded | TooLarge

  datatype Parsed<+T> = Ok(value: T, next: nat, nodes: nat) | Fail(error: Error)

  predicate IsWs(c: char) { c == ' ' || c == '\t' || c == '\n' || c == '\r' }

  function SkipWs(s: string, i: nat): (j: nat)
    requires i <= |s|
    ensures i <= j <= |s|
    decreases |s| - i
  {
    if i < |s| && IsWs(s[i]) then SkipWs(s, i + 1) else i
  }

  predicate IsHex(c: char) { '0' <= c <= '9' || 'a' <= c <= 'f' || 'A' <= c <= 'F' }

  function HexValue(c: char): (n: nat)
    ensures n < 16
  {
    if '0' <= c <= '9' then c as int - '0' as int
    else if 'a' <= c <= 'f' then c as int - 'a' as int + 10
    else if 'A' <= c <= 'F' then c as int - 'A' as int + 10
    else 0
  }

  predicate Hex4(s: string, i: nat) {
    i + 4 <= |s| && IsHex(s[i]) && IsHex(s[i + 1]) && IsHex(s[i + 2]) && IsHex(s[i + 3])
  }

  function Hex4Value(s: string, i: nat): CodeUnit
    requires Hex4(s, i)
  {
    ((HexValue(s[i]) * 16 + HexValue(s[i + 1])) * 16 + HexValue(s[i + 2])) * 16 + HexValue(s[i + 3])
  }

  /** The character after a backslash, when it stands for one character. */
  function SimpleEscape(e: char): Option<char> {
    if e == '"' || e == '\\' || e == '/' then Some(e)
    else if e == 'b' then Some('\U{0008}')
    else if e == 'f' then Some('\U{000C}')
    else if e == 'n' then Some('\n')
    else if e == 'r' then Some('\r')
    else if e == 't' then Some('\t')
    else None
  }

  /** RFC 8259 section 7: the UTF-16 code units a string body spells, up to and past
      its closing quote.  `\u` gives a unit of its own, every other character its units. */
  function ScanUnits(s: string, i: nat): (r: Option<(seq<CodeUnit>, nat)>)
    requires i <= |s|
    ensures r.Some? ==> i < r.value.1 <= |s|
    decreases |s| - i
  {
    if i == |s| then None
    else if s[i] == '"' then Some(([], i + 1))
    else if s[i] == '\\' then
      if i + 1 == |s| then None
      else if s[i + 1] == 'u' then
        if !Hex4(s, i + 2) then None else Prepend([Hex4Value(s, i + 2)], ScanUnits(s, i + 6))
      else if SimpleEscape(s[i + 1]).Some? then
        Prepend(EncodeChar(SimpleEscape(s[i + 1]).value), ScanUnits(s, i + 2))
      else None
    else if s[i] < ' ' then None
    else Prepend(EncodeChar(s[i]), ScanUnits(s, i + 1))
  }

  function Prepend(us: seq<CodeUnit>, r: Option<(seq<CodeUnit>, nat)>): Option<(seq<CodeUnit>, nat)> {
    if r.None? then None else Some((us + r.value.0, r.value.1))
  }

  /** The string whose body starts at `i`: its code units decoded as UTF-16. */
  function ReadString(s: string, i: nat): (r: Option<(string, nat)>)
    requires i <= |s|
    ensures r.Some? ==> i < r.value.1 <= |s|
  {
    match ScanUnits(s, i)
    case None => None
    case Some((us, end)) => Some((Decode(us), end))
  }

  function ParseNumber(s: string, i: nat, nodes: nat, lim: Limits): Parsed<Tree>
    requires i <= |s|
  {
    match ReadNumber(s, i)
    case None => Fail(ParseError)
    case Some((n, end)) =>
      match lim.round(n)
      case None => Fail(ParseError)
      case Some(f) => Ok(TNum(f), end, nodes)
  }

  function ParseString(s: string, i: nat, nodes: nat): Parsed<Tree>
    requires i <= |s|
  {
    match ReadString(s, i)
    case None => Fail(ParseError)
    case Some((str, end)) => Ok(TStr(str), end, nodes)
  }

  function ParseValue(s: string, i: nat, nodes: nat, depth: nat, lim: Limits): (r: Parsed<Tree>)
    requires i <= |s|
    ensures r.Ok? ==> i < r.next <= |s|
    decreases |s| - i, 3
  {
    if depth > lim.maxDepth then Fail(DepthExceeded)
    else if nodes + 1 > lim.maxNodes then Fail(TooLarge)
    else
      var j := SkipWs(s, i);
      if j == |s| then Fail(ParseError)
      else if s[j] == '{' then ParseObject(s, j, nodes + 1, depth, lim)
      else if s[j] == '[' then ParseArray(s, j, nodes + 1, depth, lim)
      else if s[j] == '"' then ParseString(s, j + 1, nodes + 1)
      else if s[j] == '-' || IsDigit(s[j]) then ParseNumber(s, j, nodes + 1, lim)
      else ParseWord(s, j, nodes + 1)
  }

  function ParseWord(s: string, j: nat, nodes: nat): (r: Parsed<Tree>)
    requires j <= |s|
    ensures r.Ok? ==> j < r.next <= |s|
  {
    AtBounds(s, j, "true");
    AtBounds(s, j, "false");
    AtBounds(s, j, "null");
    if At(s, j, "true") then Ok(TBool(true), j + 4, nodes)
    else if At(s, j, "false") then Ok(TBool(false), j + 5, nodes)
    else if At(s, j, "null") then Ok(TNull, j + 4, nodes)
    else Fail(ParseError)
  }

  function ParseObject(s: string, i: nat, nodes: nat, depth: nat, lim: Limits): (r: Parsed<Tree>)
    requires i < |s|
    ensures r.Ok? ==> i < r.next <= |s|
    decreases |s| - i, 2
  {
    var j := SkipWs(s, i + 1);
    if CharAt(s, j, '}') then Ok(TObj([]), j + 1, nodes)
    else ParseMembers(s, j, nodes, depth, [], lim)
  }

  /** One key, colon and value; `acc` holds the members read so far. */
  function ParseEntry(s: string, i: nat, nodes: nat, depth: nat, acc: seq<Member>, lim: Limits): (r: Parsed<Member>)
    requires i <= |s|
    ensures r.Ok? ==> i < r.next <= |s|
    decreases |s| - i, 1
  {
    var q := SkipWs(s, i);
    if !CharAt(s, q, '"') then Fail(ParseError)
    else
      match ReadString(s, q + 1)
      case None => Fail(ParseError)
      case Some((key, k)) =>
        if HasKey(acc, key) then Fail(ParseError)
        else
          var c := SkipWs(s, k);
          if !CharAt(s, c, ':') then Fail(ParseError)
          else
            match ParseValue(s, c + 1, nodes, depth + 1, lim)
            case Fail(e) => Fail(e)
            case Ok(value, n, nodes') => Ok(Member(key, value), n, nodes')
  }

  /** The rest of an object. */
  function ParseMembers(s: string, i: nat, nodes: nat, depth: nat, acc: seq<Member>, lim: Limits): (r: Parsed<Tree>)
    requires i <= |s|
    ensures r.Ok? ==> i < r.next <= |s|
    decreases |s| - i, 4
  {
    match ParseEntry(s, i, nodes, depth, acc, lim)
    case Fail(e) => Fail(e)
    case Ok(member, n, nodes') =>
      var m := SkipWs(s, n);
      if CharAt(s, m, ',') then ParseMembers(s, m + 1, nodes', depth, acc + [member], lim)
      else if CharAt(s, m, '}') then Ok(TObj(acc + [member]), m + 1, nodes')
      else Fail(ParseError)
  }

  function ParseArray(s: string, i: nat, nodes: nat, depth: nat, lim: Limits): (r: Parsed<Tree>)
    requires i < |s|
    ensures r.Ok? ==> i < r.next <= |s|
    decreases |s| - i, 2
  {
    var j := SkipWs(s, i + 1);
    if CharAt(s, j, ']') then Ok(TArr([]), j + 1, nodes)
    else ParseItems(s, j, nodes, depth, [], lim)
  }

  function ParseItems(s: string, i: nat, nodes: nat, depth: nat, acc: seq<Tree>, lim: Limits): (r: Parsed<Tree>)
    requires i <= |s|
    ensures r.Ok? ==> i < r.next <= |s|
    decreases |s| - i, 4
  {
    match ParseValue(s, i, nodes, depth + 1, lim)
    case Fail(e) => Fail(e)
    case Ok(value, n, nodes') =>
      var m := SkipWs(s, n);
      if CharAt(s, m, ',') then ParseItems(s, m + 1, nodes', depth, acc + [value], lim)
      else if CharAt(s, m, ']') then Ok(TArr(acc + [value]), m + 1, nodes')
      else Fail(ParseError)
  }

  /** `parseJSONSafely`. */
  function ParseText(text: string, lim: Limits): Parsed<Tree> {
    if ByteLength(text) > lim.maxBytes then Fail(TooLarge)
    else
      match ParseValue(text, SkipWs(text, 0), 0, 0, lim)
      case Fail(e) => Fail(e)
      case Ok(value, n, nodes) =>
        if SkipWs(text, n) == |text| then Ok(value, |text|, nodes) else Fail(ParseError)
  }
}
