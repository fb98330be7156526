/** `writeJSON` as it runs: text appended to one shared builder. */
module JsonWriter {
  import opened JsNumber
  import opened JsonTree

  class Builder {
    var text: string

    constructor ()
      ensures text == ""
    {
      text := "";
    }

    method Write(w: string)
      modifies this
      ensures text == old(text) + w
    {
      text := text + w;
    }
  }

  lemma Regroup(text: string, w: string, rest: string, all: string)
    requires text + (w + rest) == all
    ensures (text + w) + rest == all
  {}

  /** `writeJSONString`: one character at a time. */
  method WriteJsonString(b: Builder, s: string)
    modifies b
    ensures b.text == old(b.text) + Quote(s)
  {
    hide EscapeChar;
    ghost var all := b.text + Quote(s);
    Regroup(b.text, "\"", Escape(s) + "\"", all);
    b.Write("\"");
    var i := 0;
    assert s[0..] == s;
    while i < |s|
      invariant i <= |s| && b.text + (Escape(s[i..]) + "\"") == all
    {
      assert s[i..][1..] == s[i + 1..];
      EscapeStep(s[i..]);
      Regroup(b.text, EscapeChar(s[i]), Escape(s[i + 1..]) + "\"", all);
      b.Write(EscapeChar(s[i]));
      i := i + 1;
    }
    assert Escape(s[i..]) + "\"" == "\"";
    b.Write("\"");
  }

  lemma EscapeStep(s: string)
    requires s != ""
    ensures Escape(s) + "\"" == EscapeChar(s[0]) + (Escape(s[1..]) + "\"")
  {}

  /** What is still to be written of an array when `i` items are. */
  function ItemsLeft(items: seq<Tree>, i: nat): string
    requires i <= |items|
  {
    if i == |items| then "]" else (if i > 0 then "," else "") + PrintItems(items[i..])
  }

  lemma ItemsLeftStep(items: seq<Tree>, i: nat)
    requires i < |items|
    ensures ItemsLeft(items, i) == (if i > 0 then "," else "") + (Print(items[i]) + ItemsLeft(items, i + 1))
  {}

  function MembersLeft(members: seq<Member>, i: nat): string
    requires i <= |members|
  {
    if i == |members| then "}" else (if i > 0 then "," else "") + PrintMembers(members[i..])
  }

  lemma MembersLeftStep(members: seq<Member>, i: nat)
    requires i < |members|
    ensures MembersLeft(members, i) == (if i > 0 then "," else "") +
            (Quote(members[i].key) + (":" + (Print(members[i].value) + MembersLeft(members, i + 1))))
  {}

  method WriteItems(b: Builder, items: seq<Tree>)
    modifies b
    ensures b.text == old(b.text) + ("[" + ItemsLeft(items, 0))
    decreases items, 0
  {
    hide ItemsLeft, Print;
    ghost var all := b.text + ("[" + ItemsLeft(items, 0));
    Regroup(b.text, "[", ItemsLeft(items, 0), all);
    b.Write("[");
    var i := 0;
    while i < |items|
      invariant i <= |items| && b.text + ItemsLeft(items, i) == all
    {
      ItemsLeftStep(items, i);
      Regroup(b.text, if i > 0 then "," else "", Print(items[i]) + ItemsLeft(items, i + 1), all);
      assert i == 0 ==> b.text + "" == b.text;
      if i > 0 { b.Write(","); }
      Regroup(b.text, Print(items[i]), ItemsLeft(items, i + 1), all);
      WriteJson(b, items[i]);
      i := i + 1;
    }
    LeftEnds(items, []);
    b.Write("]");
  }

  lemma LeftEnds(items: seq<Tree>, members: seq<Member>)
    ensures ItemsLeft(items, |items|) == "]" && MembersLeft(members, |members|) == "}"
  {}

  method WriteMembers(b: Builder, members: seq<Member>)
    modifies b
    ensures b.text == old(b.text) + ("{" + MembersLeft(members, 0))
    decreases members, 0
  {
    hide MembersLeft, Print, Quote;
    ghost var all := b.text + ("{" + MembersLeft(members, 0));
    Regroup(b.text, "{", MembersLeft(members, 0), all);
    b.Write("{");
    var i := 0;
    while i < |members|
      invariant i <= |members| && b.text + MembersLeft(members, i) == all
    {
      var key, value := members[i].key, members[i].value;
      ghost var rest := Print(value) + MembersLeft(members, i + 1);
      MembersLeftStep(members, i);
      Regroup(b.text, if i > 0 then "," else "", Quote(key) + (":" + rest), all);
      assert i == 0 ==> b.text + "" == b.text;
      if i > 0 { b.Write(","); }
      Regroup(b.text, Quote(key), ":" + rest, all);
      WriteJsonString(b, key);
      Regroup(b.text, ":", rest, all);
      b.Write(":");
      Regroup(b.text, Print(value), MembersLeft(members, i + 1), all);
      WriteJson(b, value);
      i := i + 1;
    }
    LeftEnds([], members);
    b.Write("}");
  }

  /** `writeJSON` on an ordered tree. */
  method WriteJson(b: Builder, t: Tree)
    modifies b
    ensures b.text == old(b.text) + Print(t)
    decreases t
  {
    hide FormatJSNumber, PrintItems, PrintMembers;
    match t
    case TNull => b.Write("null");
    case TBool(v) => if v { b.Write("true"); } else { b.Write("false"); }
    case TStr(s) => WriteJsonString(b, s);
    case TNum(n) => b.Write(FormatJSNumber(n));
    case TArr(items) =>
      assert items[0..] == items;
      assert "[" + "]" == "[]";
      WriteItems(b, items);
      assert items != [] ==> ItemsLeft(items, 0) == PrintItems(items);
    case TObj(members) =>
      assert members[0..] == members;
      assert "{" + "}" == "{}";
      WriteMembers(b, members);
      assert members != [] ==> MembersLeft(members, 0) == PrintMembers(members);
  }
}
