/** The serializer, and the round trip through the parser. */
module JsonWriter {
  import opened JsonText
  import opened JsonParser
  import opened JsonGrammar
  import opened JsonCorrect
  import opened Numbers

  // ---- strings ----

  function HexDigit(n: nat): char
    requires n < 0x10
  {
    if n < 10 then (n + '0' as int) as char else (n - 10 + 'a' as int) as char
  }

  /** How the writer spells one character: an escape letter, four hexadecimal digits, or the character. */
  function Spelled(c: char): Piece {
    if c == '"' || c == '\\' then Short(c)
    else if c as int == 8 then Short('b')
    else if c as int == 12 then Short('f')
    else if c as int == 10 then Short('n')
    else if c as int == 13 then Short('r')
    else if c as int == 9 then Short('t')
    else if c as int < 0x20 then Unicode("00" + [HexDigit(c as int / 0x10), HexDigit(c as int % 0x10)])
    else Raw(c)
  }

  function Escaped(text: string): seq<Piece> {
    if text == "" then [] else [Spelled(text[0])] + Escaped(text[1..])
  }

  lemma HexDigitMeans(n: nat)
    requires n < 0x10
    ensures HexDigit(n) == "0123456789abcdef"[n] && HexValue(HexDigit(n)) == Some(n)
  {
  }

  lemma SpelledMeans(c: char)
    ensures ValidPiece(Spelled(c)) && PieceMeaning(Spelled(c)) == [c]
  {
    hide HexValue;
    hide HexDigit;
    if Spelled(c).Unicode? {
      HexDigitMeans(0);
      HexDigitMeans(c as int / 0x10);
      HexDigitMeans(c as int % 0x10);
      ControlMeans(c, Spelled(c).digits);
    }
  }

  lemma ControlMeans(c: char, digits: string)
    requires c as int < 0x20 && |digits| == 4
    requires digits[0] == digits[1] == '0' && HexValue(digits[2]) == Some(c as int / 0x10)
    requires HexValue(digits[3]) == Some(c as int % 0x10)
    ensures IsHex(digits) && CodeOf(digits) == c as int && Utf8(CodeOf(digits)) == [c]
  {
    assert HexValue('0') == Some(0);
    hide HexValue;
  }

  lemma {:induction false} EscapedMeans(text: string)
    ensures ValidPieces(Escaped(text)) && PiecesMeaning(Escaped(text)) == text
  {
    hide ValidPiece;
    hide PieceMeaning;
    hide Spelled;
    if text != "" {
      SpelledMeans(text[0]);
      EscapedMeans(text[1..]);
      assert Escaped(text)[1..] == Escaped(text[1..]);
      assert text == [text[0]] + text[1..];
    }
  }

  // ---- layout ----

  function Indent(depth: nat): (text: string)
    ensures |text| == depth + depth && forall i :: 0 <= i < |text| ==> text[i] == ' '
  {
    seq(2 * depth, _ => ' ')
  }

  function When(pretty: bool, text: string): string {
    if pretty then text else ""
  }

  /** The tree the writer renders for a value. */
  function Arranged(v: Value, pretty: bool, depth: nat): Syntax
    decreases v, 1, 0
  {
    match v
    case Null => Word(v)
    case Bool(_) => Word(v)
    case Number(token) => Numeral(token)
    case String(text) => Text(Escaped(text))
    case Array(items) => if items == [] then EmptyArray("") else FullArray(ArrangedItems(v, 0, pretty, depth))
    case Object(entries) => if entries == [] then EmptyObject("") else FullObject(ArrangedMembers(v, 0, pretty, depth))
  }

  function ArrangedItems(v: Value, k: nat, pretty: bool, depth: nat): Items
    requires v.Array? && k < |v.items|
    decreases v, 0, |v.items| - k
  {
    var x := Arranged(v.items[k], pretty, depth + 1);
    if k + 1 == |v.items| then LastItem(When(pretty, " "), x, When(pretty, " "))
    else NextItem(When(pretty, " "), x, "", ArrangedItems(v, k + 1, pretty, depth))
  }

  function ArrangedName(key: string, pretty: bool, depth: nat): Name {
    Name(When(pretty, "\n" + Indent(depth + 1)), Escaped(key), "", When(pretty, " "))
  }

  function ArrangedMembers(v: Value, k: nat, pretty: bool, depth: nat): Members
    requires v.Object? && k < |v.entries|
    decreases v, 0, |v.entries| - k
  {
    var name := ArrangedName(v.entries[k].key, pretty, depth);
    var x := Arranged(v.entries[k].value, pretty, depth + 1);
    if k + 1 == |v.entries| then LastMember(name, x, When(pretty, "\n" + Indent(depth)))
    else NextMember(name, x, "", ArrangedMembers(v, k + 1, pretty, depth))
  }

  function Serialized(v: Value, pretty: bool): string {
    Render(Arranged(v, pretty, 0)) + When(pretty, "\n")
  }

  // ---- the arranged tree means the value ----

  lemma {:induction false} ArrangedMeans(v: Value, pretty: bool, depth: nat, outOfRange: set<string>)
    requires WellFormed(v, outOfRange)
    ensures Valid(Arranged(v, pretty, depth)) && Meaning(Arranged(v, pretty, depth), outOfRange) == Some(v)
    decreases v, 1, 0
  {
    hide ValidItems;
    hide ValidMembers;
    hide MeaningOfItems;
    hide MeaningOfMembers;
    match v
    case String(text) =>
      EscapedMeans(text);
    case Array(items) =>
      if items != [] {
        ItemsMean(v, 0, pretty, depth, outOfRange);
        assert items[..0] == [];
      }
    case Object(entries) =>
      if entries != [] {
        MembersMean(v, 0, pretty, depth, outOfRange);
        assert entries[..0] == [];
      }
    case _ =>
  }

  lemma {:induction false} ItemsMean(v: Value, k: nat, pretty: bool, depth: nat, outOfRange: set<string>)
    requires v.Array? && k < |v.items| && WellFormed(v, outOfRange)
    ensures ValidItems(ArrangedItems(v, k, pretty, depth))
    ensures MeaningOfItems(ArrangedItems(v, k, pretty, depth), v.items[..k], outOfRange) == Some(v)
    decreases v, 0, |v.items| - k
  {
    hide Valid;
    hide Meaning;
    hide Arranged;
    ArrangedMeans(v.items[k], pretty, depth + 1, outOfRange);
    assert v.items[..k + 1] == v.items[..k] + [v.items[k]];
    if k + 1 < |v.items| {
      ItemsMean(v, k + 1, pretty, depth, outOfRange);
    } else {
      assert v.items[..k + 1] == v.items;
    }
  }

  lemma {:induction false} MembersMean(v: Value, k: nat, pretty: bool, depth: nat, outOfRange: set<string>)
    requires v.Object? && k < |v.entries| && WellFormed(v, outOfRange)
    ensures ValidMembers(ArrangedMembers(v, k, pretty, depth))
    ensures MeaningOfMembers(ArrangedMembers(v, k, pretty, depth), v.entries[..k], outOfRange) == Some(v)
    decreases v, 0, |v.entries| - k
  {
    hide Valid;
    hide Meaning;
    hide Arranged;
    hide Insert;
    hide Less;
    hide ValidPieces;
    hide PiecesMeaning;
    var entry := v.entries[k];
    ArrangedMeans(entry.value, pretty, depth + 1, outOfRange);
    EscapedMeans(entry.key);
    InsertLast(v.entries[..k], entry.key, entry.value);
    assert v.entries[..k + 1] == v.entries[..k] + [entry];
    if k + 1 < |v.entries| {
      MembersMean(v, k + 1, pretty, depth, outOfRange);
    } else {
      assert v.entries[..k + 1] == v.entries;
    }
  }

  lemma SerializedDenotes(v: Value, pretty: bool, outOfRange: set<string>)
    requires WellFormed(v, outOfRange)
    ensures Denotes(Serialized(v, pretty), outOfRange, v)
  {
    hide Valid;
    hide Meaning;
    hide Render;
    hide Arranged;
    hide WellFormed;
    ArrangedMeans(v, pretty, 0, outOfRange);
    var x := Arranged(v, pretty, 0);
    assert Blank("") && Blank(When(pretty, "\n"));
    assert Serialized(v, pretty) == "" + Render(x) + When(pretty, "\n");
  }

  /** Parsing what was serialized gives the value back, in both layouts. */
  lemma RoundTrip(v: Value, pretty: bool, outOfRange: set<string>)
    requires WellFormed(v, outOfRange)
    ensures DocumentAt(Serialized(v, pretty), outOfRange) == Done(v, |Serialized(v, pretty)|)
  {
    hide Serialized;
    SerializedDenotes(v, pretty, outOfRange);
    DocumentComplete(Serialized(v, pretty), outOfRange, v);
  }

  /** Whatever text was accepted, its value can be written in either layout and read back. */
  lemma ReformattingKeepsTheValue(s: string, pretty: bool, outOfRange: set<string>)
    requires DocumentAt(s, outOfRange).Done?
    ensures var v := DocumentAt(s, outOfRange).value;
              DocumentAt(Serialized(v, pretty), outOfRange) == Done(v, |Serialized(v, pretty)|)
  {
    hide DocumentAt;
    hide Meaning;
    hide Valid;
    hide WellFormed;
    hide Serialized;
    DocumentSound(s, outOfRange);
    var v := DocumentAt(s, outOfRange).value;
    var before: string, x: Syntax, after: string :|
      && Blank(before) && Blank(after) && Valid(x)
      && s == before + Render(x) + after && Meaning(x, outOfRange) == Some(v);
    MeaningWellFormed(x, outOfRange);
    RoundTrip(v, pretty, outOfRange);
  }

  // ---- the writer ----

  lemma Regroup(a: string, b: string, c: string)
    ensures a + (b + c) == a + b + c
  {
  }

  function ItemText(v: Value, k: nat, pretty: bool, depth: nat): string
    requires v.Array? && k < |v.items|
  {
    When(k != 0, ",") + (When(pretty, " ") + Render(Arranged(v.items[k], pretty, depth + 1)))
  }

  /** What remains to be written from item `k` on, once the opening bracket is out. */
  function ItemsLeft(v: Value, k: nat, pretty: bool, depth: nat): string
    requires v.Array? && k <= |v.items|
    decreases |v.items| - k
  {
    if k == |v.items| then When(pretty && v.items != [], " ") + "]"
    else ItemText(v, k, pretty, depth) + ItemsLeft(v, k + 1, pretty, depth)
  }

  lemma {:induction false} ItemsLeftRenders(v: Value, k: nat, pretty: bool, depth: nat)
    requires v.Array? && k < |v.items|
    ensures ItemsLeft(v, k, pretty, depth) == When(k != 0, ",") + RenderItems(ArrangedItems(v, k, pretty, depth))
    decreases |v.items| - k
  {
    hide Render;
    hide Arranged;
    hide When;
    var comma, space := When(k != 0, ","), When(pretty, " ");
    var item := space + Render(Arranged(v.items[k], pretty, depth + 1));
    var list := ArrangedItems(v, k, pretty, depth);
    var rest := ItemsLeft(v, k + 1, pretty, depth);
    if k + 1 < |v.items| {
      ItemsLeftRenders(v, k + 1, pretty, depth);
      WhenTrue(",");
      assert RenderItems(list) == item + "" + "," + RenderItems(list.rest);
      assert rest == "," + RenderItems(list.rest);
      LastJoin(item, "", ",", RenderItems(list.rest));
    } else {
      assert RenderItems(list) == item + space + "]";
      assert rest == space + "]";
      Regroup(item, space, "]");
    }
    Regroup(comma, item, rest);
  }

  lemma LastJoin(a: string, b: string, c: string, d: string)
    requires b == ""
    ensures a + b + c + d == a + (c + d)
  {
    assert a + b == a;
  }

  lemma WhenTrue(text: string)
    ensures When(true, text) == text
  {
  }

  /** A member up to its value, after the newline that starts its line. */
  function NameLeft(key: string, pretty: bool, depth: nat): string {
    When(pretty, Indent(depth + 1)) + ("\"" + PiecesText(Escaped(key))) + (if pretty then ": " else ":")
  }

  function Between(k: nat, pretty: bool): string {
    if k == 0 then "" else if pretty then ",\n" else ","
  }

  function MemberText(v: Value, k: nat, pretty: bool, depth: nat): string
    requires v.Object? && k < |v.entries|
  {
    Between(k, pretty)
    + (NameLeft(v.entries[k].key, pretty, depth) + Render(Arranged(v.entries[k].value, pretty, depth + 1)))
  }

  /** What remains to be written from member `k` on, once the opening brace and its newline are out. */
  function MembersLeft(v: Value, k: nat, pretty: bool, depth: nat): string
    requires v.Object? && k <= |v.entries|
    decreases |v.entries| - k
  {
    if k == |v.entries| then When(pretty && v.entries != [], "\n" + Indent(depth)) + "}"
    else MemberText(v, k, pretty, depth) + MembersLeft(v, k + 1, pretty, depth)
  }

  lemma NameLeftRenders(key: string, pretty: bool, depth: nat)
    ensures NameText(ArrangedName(key, pretty, depth)) == When(pretty, "\n") + NameLeft(key, pretty, depth)
  {
    hide PiecesText;
    hide Escaped;
    hide Indent;
    var text := PiecesText(Escaped(key));
    NameJoin(When(pretty, "\n"), When(pretty, Indent(depth + 1)), "\"", text, ":", When(pretty, " "));
    if pretty {
      assert ":" + " " == ": ";
    }
  }

  lemma NameJoin(newline: string, indent: string, quote: string, text: string, colon: string, space: string)
    ensures newline + indent + quote + text + "" + colon + space
         == newline + (indent + (quote + text) + (colon + space))
  {
    assert newline + indent + quote + text + "" == newline + (indent + (quote + text));
    Regroup(newline + (indent + (quote + text)), colon, space);
    Regroup(newline, indent + (quote + text), colon + space);
  }

  lemma BetweenMembers(k: nat, pretty: bool, name: string)
    ensures When(k == 0, When(pretty, "\n")) + (Between(k, pretty) + name)
         == When(k != 0, ",") + (When(pretty, "\n") + name)
  {
    if k != 0 && pretty {
      assert ",\n" == "," + "\n";
      Regroup(",", "\n", name);
    }
  }

  lemma {:induction false} MembersLeftRenders(v: Value, k: nat, pretty: bool, depth: nat)
    requires v.Object? && k < |v.entries|
    ensures When(k == 0, When(pretty, "\n")) + MembersLeft(v, k, pretty, depth)
         == When(k != 0, ",") + RenderMembers(ArrangedMembers(v, k, pretty, depth))
    decreases |v.entries| - k
  {
    hide Render;
    hide Arranged;
    hide NameText;
    hide NameLeft;
    hide ArrangedName;
    hide When;
    hide Between;
    hide Indent;
    var members := ArrangedMembers(v, k, pretty, depth);
    var newline, comma := When(pretty, "\n"), When(k != 0, ",");
    var name := NameLeft(v.entries[k].key, pretty, depth);
    var value := Render(Arranged(v.entries[k].value, pretty, depth + 1));
    var rest := MembersLeft(v, k + 1, pretty, depth);
    NameLeftRenders(v.entries[k].key, pretty, depth);
    BetweenMembers(k, pretty, (name + value) + rest);
    Regroup(Between(k, pretty), name + value, rest);
    if k + 1 < |v.entries| {
      MembersLeftRenders(v, k + 1, pretty, depth);
      WhenTrue(",");
      WhenFalse(newline, rest);
      var tail := RenderMembers(members.rest);
      assert RenderMembers(members) == newline + name + value + "" + "," + tail;
      Regroup(newline + name + value + "", ",", tail);
      MemberJoin(newline, name, value, "", "," + tail);
      assert "" + ("," + tail) == "," + tail;
    } else {
      var after := When(pretty, "\n" + Indent(depth));
      assert RenderMembers(members) == newline + name + value + after + "}";
      MemberJoin(newline, name, value, after, "}");
    }
  }

  lemma WhenFalse(text: string, rest: string)
    ensures When(false, text) + rest == rest
  {
  }

  lemma MemberJoin(newline: string, name: string, value: string, after: string, tail: string)
    ensures newline + name + value + after + tail == newline + ((name + value) + (after + tail))
  {
    Regroup(newline + name + value, after, tail);
    Regroup(newline, name, value);
    Regroup(newline, name + value, after + tail);
  }

  class Writer {
    var output: string

    constructor ()
      ensures output == ""
    {
      output := "";
    }

    method Append(text: string)
      modifies this
      ensures output == old(output) + text
    {
      output := output + text;
    }

    method AppendWhen(wanted: bool, text: string)
      modifies this
      ensures output == old(output) + When(wanted, text)
    {
      if wanted {
        Append(text);
      }
    }

    method AppendCharacter(c: char)
      modifies this
      ensures output == old(output) + PieceText(Spelled(c))
    {
      if c == '"' {
        Append("\\\"");
      } else if c == '\\' {
        Append("\\\\");
      } else if c as int == 8 {
        Append("\\b");
      } else if c as int == 12 {
        Append("\\f");
      } else if c as int == 10 {
        Append("\\n");
      } else if c as int == 13 {
        Append("\\r");
      } else if c as int == 9 {
        Append("\\t");
      } else if c as int < 0x20 {
        var digits := [HexDigit(c as int / 0x10), HexDigit(c as int % 0x10)];
        Append("\\u00" + digits);
        assert "\\u00" + digits == ['\\', 'u'] + ("00" + digits);
      } else {
        Append([c]);
      }
    }

    method AppendEscaped(value: string)
      modifies this
      ensures output == old(output) + ("\"" + PiecesText(Escaped(value)))
    {
      hide PieceText;
      hide Spelled;
      ghost var whole := output + ("\"" + PiecesText(Escaped(value)));
      Regroup(output, "\"", PiecesText(Escaped(value)));
      Append("\"");
      assert value[0..] == value;
      for k := 0 to |value|
        invariant output + PiecesText(Escaped(value[k..])) == whole
      {
        assert value[k..][1..] == value[k + 1..];
        assert Escaped(value[k..])[1..] == Escaped(value[k + 1..]);
        Regroup(output, PieceText(Spelled(value[k])), PiecesText(Escaped(value[k + 1..])));
        AppendCharacter(value[k]);
      }
      Append("\"");
    }

    method AppendValue(value: Value, pretty: bool, depth: nat)
      modifies this
      ensures output == old(output) + Render(Arranged(value, pretty, depth))
      decreases value, 1
    {
      match value
      case Null =>
        Append("null");
      case Bool(flag) =>
        Append(if flag then "true" else "false");
      case Number(token) =>
        Append(token);
      case String(text) =>
        AppendEscaped(text);
      case Array(_) =>
        AppendArray(value, pretty, depth);
      case Object(_) =>
        AppendObject(value, pretty, depth);
    }

    method AppendArray(value: Value, pretty: bool, depth: nat)
      requires value.Array?
      modifies this
      ensures output == old(output) + Render(Arranged(value, pretty, depth))
      decreases value, 0
    {
      hide ItemText;
      hide When;
      ghost var whole := output + ("[" + ItemsLeft(value, 0, pretty, depth));
      Regroup(output, "[", ItemsLeft(value, 0, pretty, depth));
      Append("[");
      for k := 0 to |value.items|
        invariant output + ItemsLeft(value, k, pretty, depth) == whole
      {
        Regroup(output, ItemText(value, k, pretty, depth), ItemsLeft(value, k + 1, pretty, depth));
        AppendItem(value, k, pretty, depth);
      }
      Regroup(output, When(pretty && value.items != [], " "), "]");
      AppendWhen(pretty && value.items != [], " ");
      Append("]");
      assert output == whole;
      BracketsRender(value, pretty, depth);
    }

    method AppendItem(value: Value, k: nat, pretty: bool, depth: nat)
      requires value.Array? && k < |value.items|
      modifies this
      ensures output == old(output) + ItemText(value, k, pretty, depth)
      decreases value.items[k], 2
    {
      hide Render;
      hide Arranged;
      hide When;
      ghost var before := output;
      AppendWhen(k != 0, ",");
      AppendWhen(pretty, " ");
      AppendValue(value.items[k], pretty, depth + 1);
      ghost var text := Render(Arranged(value.items[k], pretty, depth + 1));
      Regroup(before + When(k != 0, ","), When(pretty, " "), text);
      Regroup(before, When(k != 0, ","), When(pretty, " ") + text);
    }

    method AppendObject(value: Value, pretty: bool, depth: nat)
      requires value.Object?
      modifies this
      ensures output == old(output) + Render(Arranged(value, pretty, depth))
      decreases value, 0
    {
      hide MemberText;
      hide When;
      hide Indent;
      var lines := pretty && value.entries != [];
      ghost var left := MembersLeft(value, 0, pretty, depth);
      ghost var whole := output + ("{" + (When(lines, "\n") + left));
      Regroup(output, "{", When(lines, "\n") + left);
      Append("{");
      Regroup(output, When(lines, "\n"), left);
      AppendWhen(lines, "\n");
      for k := 0 to |value.entries|
        invariant output + MembersLeft(value, k, pretty, depth) == whole
      {
        Regroup(output, MemberText(value, k, pretty, depth), MembersLeft(value, k + 1, pretty, depth));
        AppendMember(value, k, pretty, depth);
      }
      Regroup(output, When(lines, "\n" + Indent(depth)), "}");
      AppendWhen(lines, "\n" + Indent(depth));
      Append("}");
      assert output == whole;
      BracesRender(value, pretty, depth);
    }

    method AppendMember(value: Value, k: nat, pretty: bool, depth: nat)
      requires value.Object? && k < |value.entries|
      modifies this
      ensures output == old(output) + MemberText(value, k, pretty, depth)
      decreases value.entries[k].value, 2
    {
      hide Render;
      hide Arranged;
      hide NameLeft;
      ghost var before := output;
      if k != 0 {
        Append(if pretty then ",\n" else ",");
      }
      assert output == before + Between(k, pretty);
      AppendName(value.entries[k].key, pretty, depth);
      AppendValue(value.entries[k].value, pretty, depth + 1);
      ghost var name := NameLeft(value.entries[k].key, pretty, depth);
      ghost var text := Render(Arranged(value.entries[k].value, pretty, depth + 1));
      Regroup(before + Between(k, pretty), name, text);
      Regroup(before, Between(k, pretty), name + text);
    }

    method AppendName(key: string, pretty: bool, depth: nat)
      modifies this
      ensures output == old(output) + NameLeft(key, pretty, depth)
    {
      hide PiecesText;
      hide Escaped;
      hide Indent;
      hide When;
      ghost var before, indent := output, When(pretty, Indent(depth + 1));
      ghost var text := "\"" + PiecesText(Escaped(key));
      AppendWhen(pretty, Indent(depth + 1));
      AppendEscaped(key);
      Append(if pretty then ": " else ":");
      Regroup(before, indent, text);
      Regroup(before, indent + text, if pretty then ": " else ":");
    }
  }

  lemma BracketsRender(v: Value, pretty: bool, depth: nat)
    requires v.Array?
    ensures Render(Arranged(v, pretty, depth)) == "[" + ItemsLeft(v, 0, pretty, depth)
  {
    if v.items != [] {
      ArrayRenders(v, pretty, depth);
      hide *;
      ItemsLeftRenders(v, 0, pretty, depth);
      WhenFalse(",", RenderItems(ArrangedItems(v, 0, pretty, depth)));
    }
  }

  lemma ArrayRenders(v: Value, pretty: bool, depth: nat)
    requires v.Array? && v.items != []
    ensures Render(Arranged(v, pretty, depth)) == "[" + RenderItems(ArrangedItems(v, 0, pretty, depth))
  {
    hide RenderItems;
    hide ArrangedItems;
  }

  lemma BracesRender(v: Value, pretty: bool, depth: nat)
    requires v.Object?
    ensures Render(Arranged(v, pretty, depth))
         == "{" + (When(pretty && v.entries != [], "\n") + MembersLeft(v, 0, pretty, depth))
  {
    if v.entries != [] {
      ObjectRenders(v, pretty, depth);
      hide *;
      MembersLeftRenders(v, 0, pretty, depth);
      WhenTrue(When(pretty, "\n"));
      WhenFalse(",", RenderMembers(ArrangedMembers(v, 0, pretty, depth)));
    }
  }

  lemma ObjectRenders(v: Value, pretty: bool, depth: nat)
    requires v.Object? && v.entries != []
    ensures Render(Arranged(v, pretty, depth)) == "{" + RenderMembers(ArrangedMembers(v, 0, pretty, depth))
  {
    hide RenderMembers;
    hide ArrangedMembers;
  }

  method Serialize(value: Value, pretty: bool) returns (text: string)
    ensures text == Serialized(value, pretty)
    ensures forall outOfRange :: WellFormed(value, outOfRange) ==> Denotes(text, outOfRange, value)
  {
    hide Render;
    hide Arranged;
    hide WellFormed;
    hide Denotes;
    forall outOfRange | WellFormed(value, outOfRange)
      ensures Denotes(Serialized(value, pretty), outOfRange, value)
    {
      SerializedDenotes(value, pretty, outOfRange);
    }
    var writer := new Writer();
    writer.AppendValue(value, pretty, 0);
    writer.AppendWhen(pretty, "\n");
    text := writer.output;
  }
}
