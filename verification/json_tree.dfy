/** Ordered JSON and its text: what the canonicaliser writes and the bounded parser
    returns.  Objects keep their members in order, as `orderedObject` and `OrdMap` do. */
module JsonTree {
  import opened JsNumber

  datatype Member = Member(key: string, value: Tree)

  datatype Tree =
    | TNull
    | TBool(b: bool)
    | TStr(s: string)
    | TNum(n: Number)
    | TArr(items: seq<Tree>)
    | TObj(members: seq<Member>)

  function HexDigit(n: nat): char
    requires n < 16
  {
    if n < 10 then ('0' as int + n) as char else ('a' as int + n - 10) as char
  }

  /** One character of a string literal as `writeJSONString` writes it. */
  function EscapeChar(c: char): string {
    if c == '"' then "\\\""
    else if c == '\\' then "\\\\"
    else if c == '\U{0008}' then "\\b"
    else if c == '\U{000C}' then "\\f"
    else if c == '\n' then "\\n"
    else if c == '\r' then "\\r"
    else if c == '\t' then "\\t"
    else if c < ' ' then ['\\', 'u', '0', '0', HexDigit(c as int / 16), HexDigit(c as int % 16)]
    else [c]
  }

  function Escape(s: string): string {
    if s == "" then "" else EscapeChar(s[0]) + Escape(s[1..])
  }

  function Quote(s: string): string { "\"" + (Escape(s) + "\"") }

  function Print(t: Tree): string
    decreases t
  {
    match t
    case TNull => "null"
    case TBool(b) => if b then "true" else "false"
    case TStr(s) => Quote(s)
    case TNum(n) => FormatJSNumber(n)
    case TArr(items) => if items == [] then "[]" else "[" + PrintItems(items)
    case TObj(members) => if members == [] then "{}" else "{" + PrintMembers(members)
  }

  /** The items after an opening bracket, with the closing one. */
  function PrintItems(items: seq<Tree>): string
    requires items != []
    decreases items
  {
    Print(items[0]) + (if |items| == 1 then "]" else "," + PrintItems(items[1..]))
  }

  function PrintMembers(members: seq<Member>): string
    requires members != []
    decreases members
  {
    Quote(members[0].key) + (":" + (Print(members[0].value) +
                                    (if |members| == 1 then "}" else "," + PrintMembers(members[1..]))))
  }

  predicate HasKey(members: seq<Member>, key: string) {
    exists i | 0 <= i < |members| :: members[i].key == key
  }

  predicate DistinctKeys(members: seq<Member>) {
    forall i, j | 0 <= i < j < |members| :: members[i].key != members[j].key
  }

  /** Trees that text can carry: no repeated key, and numbers that keep their sign when printed. */
  predicate Plain(t: Tree)
    decreases t
  {
    match t
    case TNum(n) => !n.NonFinite? && Printed(n) == n
    case TArr(items) => forall i | 0 <= i < |items| :: Plain(items[i])
    case TObj(members) => DistinctKeys(members) && forall i | 0 <= i < |members| :: Plain(members[i].value)
    case _ => true
  }

  /** `nodes` as the parser counts them: one for every value. */
  function Count(t: Tree): nat
    decreases t
  {
    match t
    case TArr(items) => 1 + CountItems(items)
    case TObj(members) => 1 + CountMembers(members)
    case _ => 1
  }

  function CountItems(items: seq<Tree>): nat
    decreases items
  {
    if items == [] then 0 else Count(items[0]) + CountItems(items[1..])
  }

  function CountMembers(members: seq<Member>): nat
    decreases members
  {
    if members == [] then 0 else Count(members[0].value) + CountMembers(members[1..])
  }

  /** The tree, placed at nesting level `depth`, goes no deeper than `max`. */
  predicate WithinDepth(t: Tree, depth: nat, max: int)
    decreases t
  {
    depth <= max &&
    match t
    case TArr(items) => forall i | 0 <= i < |items| :: WithinDepth(items[i], depth + 1, max)
    case TObj(members) => forall i | 0 <= i < |members| :: WithinDepth(members[i].value, depth + 1, max)
    case _ => true
  }
}
