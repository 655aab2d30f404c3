/** The parser against the grammar, for values of any depth. */
module JsonCorrect {
  import opened JsonText
  import opened JsonParser
  import opened JsonGrammar
  import opened Numbers

  /** The step reads this text, which stands at `i`, and answers with its meaning. */
  ghost predicate Reads(step: Step<Value>, s: string, i: nat, text: string, meaning: Option<Value>) {
    At(s, i, text) && meaning.Some? && step == Done(meaning.value, i + |text|)
  }

  // ---- single characters and words ----

  lemma StartsAt(s: string, i: nat, t: string)
    requires At(s, i, t) && |t| > 0
    ensures i < |s| && s[i] == t[0]
  {
    assert s[i..i + |t|][0] == s[i];
  }

  predicate Closes(c: char) {
    c == ',' || c == ']' || c == '}'
  }

  lemma DelimitedBy(s: string, i: nat, blank: string, rest: string)
    requires Blank(blank) && At(s, i, blank) && At(s, i + |blank|, rest) && |rest| > 0 && Closes(rest[0])
    ensures Delimited(s, i) && SkipBlank(s, i) == i + |blank|
  {
    StartsAt(s, i + |blank|, rest);
    SkipsAll(s, i, blank);
    if blank != "" {
      StartsAt(s, i, blank);
    }
  }

  lemma {:induction false} WordComplete(s: string, i: nat, word: string)
    requires At(s, i, word)
    ensures WordAt(s, i, word) == Done((), i + |word|)
    decreases |word|
  {
    if word != "" {
      assert word == [word[0]] + word[1..];
      AtJoin(s, i, [word[0]], word[1..]);
      StartsAt(s, i, word);
      WordComplete(s, i + 1, word[1..]);
    }
  }

  lemma {:induction false} WordSound(s: string, i: nat, word: string)
    requires i <= |s| && WordAt(s, i, word).Done?
    ensures At(s, i, word)
    decreases |word|
  {
    if word != "" {
      WordSound(s, i + 1, word[1..]);
      AtOne(s, i, word[0]);
      assert word == [word[0]] + word[1..];
      AtJoin(s, i, [word[0]], word[1..]);
    }
  }

  lemma NumberStarts(token: string)
    requires IsNumber(token)
    ensures |token| > 0 && (token[0] == '-' || IsDigit(token[0]))
  {
    assert At(token, 0, token);
    TokenComplete(token, 0, token);
  }

  lemma ValueStarts(x: Syntax)
    requires Valid(x)
    ensures |Render(x)| > 0 && !IsBlank(Render(x)[0]) && !Closes(Render(x)[0])
  {
    if x.Numeral? {
      NumberStarts(x.token);
    }
  }

  // ---- reading back what a tree renders ----

  /** A value between white space and a closing character: where each part is read. */
  lemma ValueInPlace(s: string, i: nat, before: string, x: Syntax, after: string, rest: string)
    requires Blank(before) && Valid(x) && Blank(after) && |rest| > 0 && Closes(rest[0])
    requires At(s, i, before + Render(x) + after + rest)
    ensures SkipBlank(s, i) == i + |before| < |s| && !Closes(s[i + |before|])
    ensures At(s, i + |before|, Render(x)) && Delimited(s, i + |before| + |Render(x)|)
    ensures SkipBlank(s, i + |before| + |Render(x)|) == i + |before| + |Render(x)| + |after|
    ensures At(s, i + |before| + |Render(x)| + |after|, rest)
  {
    hide Render;
    hide Valid;
    hide At;
    hide SkipBlank;
    hide Delimited;
    var j := i + |before|;
    AtJoin(s, i, before + Render(x) + after, rest);
    AtJoin(s, i, before + Render(x), after);
    AtJoin(s, i, before, Render(x));
    ValueStarts(x);
    StartsAt(s, j, Render(x));
    SkipsAll(s, i, before);
    DelimitedBy(s, j + |Render(x)|, after, rest);
  }

  lemma {:induction false} ValueComplete(x: Syntax, s: string, i: nat, outOfRange: set<string>)
    requires Valid(x) && At(s, i, Render(x)) && Meaning(x, outOfRange).Some?
    requires x.Numeral? ==> Delimited(s, i + |Render(x)|)
    ensures Reads(ValueAt(s, i, outOfRange), s, i, Render(x), Meaning(x, outOfRange))
    decreases x, 0
  {
    hide At;
    hide SkipBlank;
    hide ValueAt;
    hide Delimited;
    match x
    case Word(v) =>
      LiteralComplete(s, i, v, outOfRange);
    case Numeral(token) =>
      NumeralComplete(token, s, i, outOfRange);
    case Text(pieces) =>
      TextComplete(pieces, s, i, outOfRange);
    case EmptyArray(blank) =>
      EmptyArrayComplete(s, i, blank, outOfRange);
    case FullArray(list) =>
      AtJoin(s, i, "[", RenderItems(list));
      ItemsComplete(list, s, i + 1, [], outOfRange);
      ArrayOpens(s, i, outOfRange);
    case EmptyObject(blank) =>
      EmptyObjectComplete(s, i, blank, outOfRange);
    case FullObject(members) =>
      AtJoin(s, i, "{", RenderMembers(members));
      MembersComplete(members, s, i + 1, [], outOfRange);
      ObjectOpens(s, i, outOfRange);
  }

  lemma ArrayOpens(s: string, i: nat, outOfRange: set<string>)
    requires At(s, i, "[") && SkipBlank(s, i + 1) < |s| && s[SkipBlank(s, i + 1)] != ']'
    ensures ValueAt(s, i, outOfRange) == ItemsAt(s, SkipBlank(s, i + 1), [], outOfRange)
  {
    hide SkipBlank;
    AtOne(s, i, '[');
    assert ValueAt(s, i, outOfRange) == ArrayAt(s, i, outOfRange);
  }

  lemma ObjectOpens(s: string, i: nat, outOfRange: set<string>)
    requires At(s, i, "{") && SkipBlank(s, i + 1) < |s| && s[SkipBlank(s, i + 1)] != '}'
    ensures ValueAt(s, i, outOfRange) == MembersAt(s, SkipBlank(s, i + 1), [], outOfRange)
  {
    hide SkipBlank;
    AtOne(s, i, '{');
    assert ValueAt(s, i, outOfRange) == ObjectAt(s, i, outOfRange);
  }

  lemma EmptyArrayComplete(s: string, i: nat, blank: string, outOfRange: set<string>)
    requires Blank(blank) && At(s, i, "[" + blank + "]")
    ensures ValueAt(s, i, outOfRange) == Done(Array([]), i + |"[" + blank + "]"|)
  {
    hide SkipBlank;
    hide At;
    EmptyComplete(s, i, '[', blank, ']');
    assert ValueAt(s, i, outOfRange) == ArrayAt(s, i, outOfRange);
  }

  lemma EmptyObjectComplete(s: string, i: nat, blank: string, outOfRange: set<string>)
    requires Blank(blank) && At(s, i, "{" + blank + "}")
    ensures ValueAt(s, i, outOfRange) == Done(Object([]), i + |"{" + blank + "}"|)
  {
    hide SkipBlank;
    hide At;
    EmptyComplete(s, i, '{', blank, '}');
    assert ValueAt(s, i, outOfRange) == ObjectAt(s, i, outOfRange);
  }

  lemma LiteralComplete(s: string, i: nat, v: Value, outOfRange: set<string>)
    requires (v.Null? || v.Bool?) && At(s, i, WordText(v))
    ensures ValueAt(s, i, outOfRange) == Done(v, i + |WordText(v)|)
  {
    hide At;
    hide WordAt;
    StartsAt(s, i, WordText(v));
    WordComplete(s, i, WordText(v));
  }

  lemma NumeralComplete(token: string, s: string, i: nat, outOfRange: set<string>)
    requires IsNumber(token) && token !in outOfRange && At(s, i, token) && Delimited(s, i + |token|)
    ensures ValueAt(s, i, outOfRange) == Done(Number(token), i + |token|)
  {
    hide TokenAt;
    hide IsNumber;
    NumberStarts(token);
    StartsAt(s, i, token);
    TokenComplete(s, i, token);
  }

  lemma TextComplete(pieces: seq<Piece>, s: string, i: nat, outOfRange: set<string>)
    requires ValidPieces(pieces) && At(s, i, "\"" + PiecesText(pieces))
    ensures ValueAt(s, i, outOfRange) == Done(String(PiecesMeaning(pieces)), i + 1 + |PiecesText(pieces)|)
  {
    AtJoin(s, i, "\"", PiecesText(pieces));
    AtOne(s, i, '"');
    CharactersComplete(s, i + 1, pieces, "");
    assert "" + PiecesMeaning(pieces) == PiecesMeaning(pieces);
  }

  lemma EmptyComplete(s: string, i: nat, open: char, blank: string, close: char)
    requires Blank(blank) && !IsBlank(close) && At(s, i, [open] + blank + [close])
    ensures i + 1 + |blank| < |s| && s[i] == open
    ensures SkipBlank(s, i + 1) == i + 1 + |blank| && s[i + 1 + |blank|] == close
  {
    AtJoin(s, i, [open] + blank, [close]);
    AtJoin(s, i, [open], blank);
    AtOne(s, i, open);
    AtOne(s, i + 1 + |blank|, close);
    SkipsAll(s, i + 1, blank);
  }

  /** What follows an item: the closing bracket, or a comma and the rest. */
  function ItemsRest(list: Items): string {
    match list
    case LastItem(_, _, _) => "]"
    case NextItem(_, _, _, rest) => "," + RenderItems(rest)
  }

  lemma ItemsParts(list: Items)
    ensures RenderItems(list) == list.before + Render(list.value) + list.after + ItemsRest(list)
    ensures |ItemsRest(list)| > 0 && Closes(ItemsRest(list)[0])
  {
    hide Render;
  }

  /** Where the parts of an item list stand: its value at `j`, the closing character at `k`. */
  lemma ItemsInPlace(list: Items, s: string, i: nat) returns (j: nat, k: nat)
    requires ValidItems(list) && At(s, i, RenderItems(list))
    ensures j == SkipBlank(s, i) < |s| && !Closes(s[j])
    ensures At(s, j, Render(list.value)) && Delimited(s, j + |Render(list.value)|)
    ensures j + |Render(list.value)| <= |s| && k == SkipBlank(s, j + |Render(list.value)|) < |s|
    ensures s[k] == if list.LastItem? then ']' else ','
    ensures list.NextItem? ==> At(s, k + 1, RenderItems(list.rest))
    ensures i + |RenderItems(list)| == k + |ItemsRest(list)|
  {
    hide Render;
    hide RenderItems;
    hide Valid;
    hide SkipBlank;
    hide At;
    hide Delimited;
    ItemsParts(list);
    ValueInPlace(s, i, list.before, list.value, list.after, ItemsRest(list));
    j := i + |list.before|;
    AtWithin(s, j, Render(list.value));
    k := j + |Render(list.value)| + |list.after|;
    StartsAt(s, k, ItemsRest(list));
    if list.NextItem? {
      AtJoin(s, k, ",", RenderItems(list.rest));
    }
  }

  /** One turn of the loop over the items: after the value, a bracket ends it and a comma goes on. */
  lemma ItemsTurn(s: string, j: nat, before: seq<Value>, v: Value, n: nat, outOfRange: set<string>)
    requires j <= |s| && ValueAt(s, j, outOfRange) == Done(v, n) && SkipBlank(s, n) < |s|
    ensures s[SkipBlank(s, n)] == ']' ==>
              ItemsAt(s, j, before, outOfRange) == Done(Array(before + [v]), SkipBlank(s, n) + 1)
    ensures s[SkipBlank(s, n)] == ',' ==>
              ItemsAt(s, j, before, outOfRange)
              == ItemsAt(s, SkipBlank(s, SkipBlank(s, n) + 1), before + [v], outOfRange)
  {
    hide ValueAt;
    hide SkipBlank;
  }

  lemma {:induction false} ItemsComplete(list: Items, s: string, i: nat, before: seq<Value>, outOfRange: set<string>)
    requires ValidItems(list) && At(s, i, RenderItems(list)) && MeaningOfItems(list, before, outOfRange).Some?
    ensures i <= |s| && SkipBlank(s, i) < |s| && s[SkipBlank(s, i)] != ']'
    ensures Reads(ItemsAt(s, SkipBlank(s, i), before, outOfRange), s, i, RenderItems(list),
                  MeaningOfItems(list, before, outOfRange))
    decreases list, 1
  {
    hide Render;
    hide RenderItems;
    hide Valid;
    hide Meaning;
    hide ValueAt;
    hide ItemsAt;
    hide SkipBlank;
    hide At;
    hide Delimited;
    AtWithin(s, i, RenderItems(list));
    var j, k := ItemsInPlace(list, s, i);
    ValueComplete(list.value, s, j, outOfRange);
    var v := Meaning(list.value, outOfRange).value;
    ItemsTurn(s, j, before, v, j + |Render(list.value)|, outOfRange);
    if list.NextItem? {
      ItemsComplete(list.rest, s, k + 1, before + [v], outOfRange);
    }
  }

  /** Where the parts of a name stand: the key's opening quote at `j`, the colon at `k`. */
  lemma NameInPlace(s: string, i: nat, name: Name, rest: string) returns (j: nat, k: nat)
    requires ValidName(name) && At(s, i, NameText(name) + rest) && |rest| > 0 && !IsBlank(rest[0])
    ensures j == SkipBlank(s, i) < |s| && s[j] == '"' && At(s, j + 1, PiecesText(name.pieces))
    ensures j + 1 + |PiecesText(name.pieces)| <= |s| && k == SkipBlank(s, j + 1 + |PiecesText(name.pieces)|) < |s|
    ensures s[k] == ':' && SkipBlank(s, k + 1) == i + |NameText(name)|
    ensures At(s, i + |NameText(name)|, rest)
  {
    hide PiecesText;
    hide ValidPieces;
    hide SkipBlank;
    hide At;
    var text := PiecesText(name.pieces);
    j := i + |name.before|;
    k := j + 1 + |text| + |name.gap|;
    AtJoin(s, i, NameText(name), rest);
    AtJoin(s, i, name.before + "\"" + text + name.gap + ":", name.space);
    AtJoin(s, i, name.before + "\"" + text + name.gap, ":");
    AtJoin(s, i, name.before + "\"" + text, name.gap);
    AtJoin(s, i, name.before + "\"", text);
    AtJoin(s, i, name.before, "\"");
    AtOne(s, j, '"');
    AtOne(s, k, ':');
    StartsAt(s, i + |NameText(name)|, rest);
    SkipsAll(s, i, name.before);
    SkipsAll(s, j + 1 + |text|, name.gap);
    SkipsAll(s, k + 1, name.space);
  }

  lemma NameComplete(s: string, i: nat, name: Name, rest: string)
    requires ValidName(name) && At(s, i, NameText(name) + rest) && |rest| > 0 && !IsBlank(rest[0])
    ensures i <= |s| && SkipBlank(s, i) < |s| && s[SkipBlank(s, i)] == '"'
    ensures NameAt(s, SkipBlank(s, i)) == Done(PiecesMeaning(name.pieces), i + |NameText(name)|)
    ensures At(s, i + |NameText(name)|, rest)
  {
    hide PiecesText;
    hide PiecesMeaning;
    hide ValidPieces;
    hide SkipBlank;
    hide At;
    hide NameText;
    hide CharactersAt;
    AtWithin(s, i, NameText(name) + rest);
    var j, k := NameInPlace(s, i, name, rest);
    CharactersComplete(s, j + 1, name.pieces, "");
    assert "" + PiecesMeaning(name.pieces) == PiecesMeaning(name.pieces);
  }

  function MembersRest(members: Members): string {
    match members
    case LastMember(_, _, _) => "}"
    case NextMember(_, _, _, rest) => "," + RenderMembers(rest)
  }

  lemma MembersParts(members: Members)
    ensures RenderMembers(members)
         == NameText(members.name) + ("" + Render(members.value) + members.after + MembersRest(members))
    ensures |MembersRest(members)| > 0 && Closes(MembersRest(members)[0])
  {
    hide Render;
    hide NameText;
  }

  /** Where the parts of a member list stand: its first value at `j`, the closing character at `k`. */
  lemma MembersInPlace(members: Members, s: string, i: nat) returns (j: nat, k: nat)
    requires ValidMembers(members) && At(s, i, RenderMembers(members))
    ensures i <= |s| && SkipBlank(s, i) < |s| && s[SkipBlank(s, i)] == '"'
    ensures NameAt(s, SkipBlank(s, i)) == Done(PiecesMeaning(members.name.pieces), j)
    ensures At(s, j, Render(members.value)) && Delimited(s, j + |Render(members.value)|)
    ensures j + |Render(members.value)| <= |s| && k == SkipBlank(s, j + |Render(members.value)|) < |s|
    ensures s[k] == if members.LastMember? then '}' else ','
    ensures members.NextMember? ==> At(s, k + 1, RenderMembers(members.rest))
    ensures i + |RenderMembers(members)| == k + |MembersRest(members)|
  {
    hide Render;
    hide RenderMembers;
    hide Valid;
    hide ValidName;
    hide SkipBlank;
    hide At;
    hide Delimited;
    hide NameAt;
    hide NameText;
    hide PiecesMeaning;
    var x := members.value;
    MembersParts(members);
    ValueStarts(x);
    NameComplete(s, i, members.name, "" + Render(x) + members.after + MembersRest(members));
    j := i + |NameText(members.name)|;
    ValueInPlace(s, j, "", x, members.after, MembersRest(members));
    AtWithin(s, j, Render(x));
    k := j + |Render(x)| + |members.after|;
    StartsAt(s, k, MembersRest(members));
    if members.NextMember? {
      AtJoin(s, k, ",", RenderMembers(members.rest));
    }
  }

  /** One turn of the loop over the members. */
  lemma MembersTurn(s: string, i: nat, before: seq<Entry>, key: string, j: nat, v: Value, n: nat,
                    outOfRange: set<string>)
    requires i <= |s| && NameAt(s, i) == Done(key, j) && ValueAt(s, j, outOfRange) == Done(v, n)
    requires Insert(before, key, v).Some? && SkipBlank(s, n) < |s|
    ensures s[SkipBlank(s, n)] == '}' ==>
              MembersAt(s, i, before, outOfRange) == Done(Object(Insert(before, key, v).value), SkipBlank(s, n) + 1)
    ensures s[SkipBlank(s, n)] == ',' ==>
              MembersAt(s, i, before, outOfRange)
              == MembersAt(s, SkipBlank(s, SkipBlank(s, n) + 1), Insert(before, key, v).value, outOfRange)
  {
    hide ValueAt;
    hide NameAt;
    hide SkipBlank;
    hide Insert;
  }

  lemma {:induction false} MembersComplete(members: Members, s: string, i: nat, before: seq<Entry>,
                                           outOfRange: set<string>)
    requires ValidMembers(members) && At(s, i, RenderMembers(members))
    requires MeaningOfMembers(members, before, outOfRange).Some?
    ensures i <= |s| && SkipBlank(s, i) < |s| && s[SkipBlank(s, i)] != '}'
    ensures Reads(MembersAt(s, SkipBlank(s, i), before, outOfRange), s, i, RenderMembers(members),
                  MeaningOfMembers(members, before, outOfRange))
    decreases members, 1
  {
    hide Render;
    hide RenderMembers;
    hide Valid;
    hide ValidPieces;
    hide Meaning;
    hide ValueAt;
    hide NameAt;
    hide MembersAt;
    hide SkipBlank;
    hide At;
    hide Delimited;
    hide Insert;
    hide PiecesMeaning;
    var j, k := MembersInPlace(members, s, i);
    ValueComplete(members.value, s, j, outOfRange);
    var key, v := PiecesMeaning(members.name.pieces), Meaning(members.value, outOfRange).value;
    MembersTurn(s, SkipBlank(s, i), before, key, j, v, j + |Render(members.value)|, outOfRange);
    if members.NextMember? {
      MembersComplete(members.rest, s, k + 1, Insert(before, key, v).value, outOfRange);
    }
  }

  // ---- every answer comes from a tree ----

  lemma {:induction false} ValueSound(s: string, i: nat, outOfRange: set<string>) returns (x: Syntax)
    requires i <= |s| && ValueAt(s, i, outOfRange).Done?
    ensures Valid(x) && Reads(ValueAt(s, i, outOfRange), s, i, Render(x), Meaning(x, outOfRange))
    decreases |s| - i, 2
  {
    hide At;
    hide SkipBlank;
    hide NumberAt;
    hide IsNumber;
    hide ArrayAt;
    hide ObjectAt;
    hide Reads;
    if s[i] == '{' {
      x := ObjectSound(s, i, outOfRange);
    } else if s[i] == '[' {
      x := ArraySound(s, i, outOfRange);
    } else if s[i] == '"' {
      x := TextSound(s, i, outOfRange);
    } else if s[i] == '-' || IsDigit(s[i]) {
      x := NumeralSound(s, i, outOfRange);
    } else {
      x := LiteralSound(s, i, outOfRange);
    }
  }

  lemma NumeralSound(s: string, i: nat, outOfRange: set<string>) returns (x: Syntax)
    requires i < |s| && NumberAt(s, i, outOfRange).Done?
    ensures Valid(x) && Reads(NumberAt(s, i, outOfRange), s, i, Render(x), Meaning(x, outOfRange))
  {
    hide TokenAt;
    hide IsNumber;
    NumberSound(s, i);
    x := Numeral(s[i..TokenAt(s, i).next]);
  }

  lemma TextSound(s: string, i: nat, outOfRange: set<string>) returns (x: Syntax)
    requires i < |s| && s[i] == '"' && ValueAt(s, i, outOfRange).Done?
    ensures Valid(x) && Reads(ValueAt(s, i, outOfRange), s, i, Render(x), Meaning(x, outOfRange))
  {
    hide At;
    var pieces := CharactersSound(s, i + 1, "");
    AtOne(s, i, '"');
    AtJoin(s, i, "\"", PiecesText(pieces));
    assert "" + PiecesMeaning(pieces) == PiecesMeaning(pieces);
    x := Text(pieces);
  }

  lemma LiteralSound(s: string, i: nat, outOfRange: set<string>) returns (x: Syntax)
    requires i < |s| && ValueAt(s, i, outOfRange).Done?
    requires s[i] != '{' && s[i] != '[' && s[i] != '"' && s[i] != '-' && !IsDigit(s[i])
    ensures Valid(x) && Reads(ValueAt(s, i, outOfRange), s, i, Render(x), Meaning(x, outOfRange))
  {
    hide At;
    hide WordAt;
    var v := ValueAt(s, i, outOfRange).value;
    x := Word(v);
    WordSound(s, i, WordText(v));
  }

  /** The part of the text an opening character, white space and a closing character cover. */
  lemma EmptySound(s: string, i: nat, open: char, close: char) returns (blank: string)
    requires i < |s| && s[i] == open && SkipBlank(s, i + 1) < |s| && s[SkipBlank(s, i + 1)] == close
    ensures Blank(blank) && At(s, i, [open] + blank + [close])
    ensures i + 1 + |blank| == SkipBlank(s, i + 1)
  {
    var j := SkipBlank(s, i + 1);
    blank := s[i + 1..j];
    SkippedIsBlank(s, i + 1);
    AtOne(s, i, open);
    AtOne(s, j, close);
    AtSlice(s, i + 1, j);
    AtJoin(s, i, [open], blank);
    AtJoin(s, i, [open] + blank, [close]);
  }

  lemma {:induction false} ArraySound(s: string, i: nat, outOfRange: set<string>) returns (x: Syntax)
    requires i < |s| && s[i] == '[' && ArrayAt(s, i, outOfRange).Done?
    ensures Valid(x) && Reads(ArrayAt(s, i, outOfRange), s, i, Render(x), Meaning(x, outOfRange))
    decreases |s| - i, 1
  {
    hide At;
    hide SkipBlank;
    hide ItemsAt;
    var j := SkipBlank(s, i + 1);
    if j < |s| && s[j] == ']' {
      var blank := EmptySound(s, i, '[', ']');
      x := EmptyArray(blank);
    } else {
      var list := ItemsSound(s, i + 1, [], outOfRange);
      AtOne(s, i, '[');
      AtJoin(s, i, "[", RenderItems(list));
      x := FullArray(list);
    }
  }

  lemma {:induction false} ObjectSound(s: string, i: nat, outOfRange: set<string>) returns (x: Syntax)
    requires i < |s| && s[i] == '{' && ObjectAt(s, i, outOfRange).Done?
    ensures Valid(x) && Reads(ObjectAt(s, i, outOfRange), s, i, Render(x), Meaning(x, outOfRange))
    decreases |s| - i, 1
  {
    hide At;
    hide SkipBlank;
    hide MembersAt;
    var j := SkipBlank(s, i + 1);
    if j < |s| && s[j] == '}' {
      var blank := EmptySound(s, i, '{', '}');
      x := EmptyObject(blank);
    } else {
      var members := MembersSound(s, i + 1, [], outOfRange);
      AtOne(s, i, '{');
      AtJoin(s, i, "{", RenderMembers(members));
      x := FullObject(members);
    }
  }

  /** The text of a value with white space around it and what follows stands where its parts do. */
  lemma AtAround(s: string, i: nat, before: string, value: string, after: string, rest: string)
    requires At(s, i, before) && At(s, i + |before|, value) && At(s, i + |before| + |value|, after)
    requires At(s, i + |before| + |value| + |after|, rest)
    ensures At(s, i, before + value + after + rest)
  {
    hide At;
    AtJoin(s, i, before, value);
    AtJoin(s, i, before + value, after);
    AtJoin(s, i, before + value + after, rest);
  }

  lemma {:induction false} ItemsSound(s: string, i: nat, before: seq<Value>, outOfRange: set<string>)
    returns (list: Items)
    requires i <= |s| && ItemsAt(s, SkipBlank(s, i), before, outOfRange).Done?
    ensures ValidItems(list)
    ensures Reads(ItemsAt(s, SkipBlank(s, i), before, outOfRange), s, i, RenderItems(list),
                  MeaningOfItems(list, before, outOfRange))
    decreases |s| - i, 3
  {
    hide At;
    hide SkipBlank;
    hide ValueAt;
    hide Render;
    hide RenderItems;
    hide Valid;
    hide Meaning;
    var j := SkipBlank(s, i);
    var x := ValueSound(s, j, outOfRange);
    var n := ValueAt(s, j, outOfRange).next;
    var k := SkipBlank(s, n);
    SkippedIsBlank(s, i);
    SkippedIsBlank(s, n);
    AtSlice(s, i, j);
    AtSlice(s, n, k);
    if s[k] == ']' {
      list := LastItem(s[i..j], x, s[n..k]);
      AtOne(s, k, ']');
    } else {
      var items := before + [Meaning(x, outOfRange).value];
      assert ItemsAt(s, j, before, outOfRange) == ItemsAt(s, SkipBlank(s, k + 1), items, outOfRange);
      var rest := ItemsSound(s, k + 1, items, outOfRange);
      list := NextItem(s[i..j], x, s[n..k], rest);
      AtOne(s, k, ',');
      AtJoin(s, k, ",", RenderItems(rest));
    }
    ItemsParts(list);
    AtAround(s, i, s[i..j], Render(x), s[n..k], ItemsRest(list));
  }

  lemma NameSound(s: string, i: nat) returns (name: Name)
    requires i <= |s| && NameAt(s, SkipBlank(s, i)).Done?
    ensures ValidName(name) && At(s, i, NameText(name))
    ensures NameAt(s, SkipBlank(s, i)) == Done(PiecesMeaning(name.pieces), i + |NameText(name)|)
  {
    hide At;
    hide SkipBlank;
    hide CharactersAt;
    hide PiecesText;
    hide PiecesMeaning;
    hide ValidPieces;
    var j := SkipBlank(s, i);
    var pieces := CharactersSound(s, j + 1, "");
    assert "" + PiecesMeaning(pieces) == PiecesMeaning(pieces);
    var n := CharactersAt(s, j + 1, "").next;
    var k := SkipBlank(s, n);
    var m := SkipBlank(s, k + 1);
    name := Name(s[i..j], pieces, s[n..k], s[k + 1..m]);
    SkippedIsBlank(s, i);
    SkippedIsBlank(s, n);
    SkippedIsBlank(s, k + 1);
    NameParts(s, i, j, k, m, name);
  }

  lemma NameParts(s: string, i: nat, j: nat, k: nat, m: nat, name: Name)
    requires i <= j && j + 1 + |PiecesText(name.pieces)| <= k < m <= |s|
    requires s[j] == '"' && At(s, j + 1, PiecesText(name.pieces)) && s[k] == ':'
    requires name.before == s[i..j] && name.gap == s[j + 1 + |PiecesText(name.pieces)|..k] && name.space == s[k + 1..m]
    ensures At(s, i, NameText(name)) && i + |NameText(name)| == m
  {
    hide At;
    hide PiecesText;
    var text := PiecesText(name.pieces);
    var n := j + 1 + |text|;
    AtOne(s, j, '"');
    AtOne(s, k, ':');
    AtSlice(s, i, j);
    AtSlice(s, n, k);
    AtSlice(s, k + 1, m);
    AtJoin(s, i, name.before, "\"");
    AtJoin(s, i, name.before + "\"", text);
    AtJoin(s, i, name.before + "\"" + text, name.gap);
    AtJoin(s, i, name.before + "\"" + text + name.gap, ":");
    AtJoin(s, i, name.before + "\"" + text + name.gap + ":", name.space);
  }

  lemma {:induction false} MembersSound(s: string, i: nat, before: seq<Entry>, outOfRange: set<string>)
    returns (members: Members)
    requires i <= |s| && MembersAt(s, SkipBlank(s, i), before, outOfRange).Done?
    ensures ValidMembers(members)
    ensures Reads(MembersAt(s, SkipBlank(s, i), before, outOfRange), s, i, RenderMembers(members),
                  MeaningOfMembers(members, before, outOfRange))
    decreases |s| - i, 3
  {
    hide At;
    hide SkipBlank;
    hide NameAt;
    hide NameText;
    hide ValueAt;
    hide Render;
    hide RenderMembers;
    hide Valid;
    hide ValidPieces;
    hide PiecesMeaning;
    hide Meaning;
    hide Insert;
    var name := NameSound(s, i);
    var j := NameAt(s, SkipBlank(s, i)).next;
    var x := ValueSound(s, j, outOfRange);
    var n := ValueAt(s, j, outOfRange).next;
    var k := SkipBlank(s, n);
    SkippedIsBlank(s, n);
    AtSlice(s, n, k);
    AtOne(s, k, s[k]);
    if s[k] == '}' {
      members := LastMember(name, x, s[n..k]);
    } else {
      var entries := Insert(before, PiecesMeaning(name.pieces), Meaning(x, outOfRange).value).value;
      assert MembersAt(s, SkipBlank(s, i), before, outOfRange)
          == MembersAt(s, SkipBlank(s, k + 1), entries, outOfRange);
      var rest := MembersSound(s, k + 1, entries, outOfRange);
      members := NextMember(name, x, s[n..k], rest);
      AtJoin(s, k, ",", RenderMembers(rest));
    }
    MembersParts(members);
    AtNothing(s, j);
    AtAround(s, j, "", Render(x), s[n..k], MembersRest(members));
    AtJoin(s, i, NameText(name), "" + Render(x) + s[n..k] + MembersRest(members));
  }

  lemma AtNothing(s: string, i: nat)
    requires i <= |s|
    ensures At(s, i, "")
  {
  }

  // ---- whole documents ----

  lemma BlankToTheEnd(s: string, i: nat, blank: string)
    requires Blank(blank) && At(s, i, blank) && i + |blank| == |s|
    ensures Delimited(s, i) && SkipBlank(s, i) == |s|
  {
    SkipsAll(s, i, blank);
    if blank != "" {
      StartsAt(s, i, blank);
    }
  }

  lemma DocumentComplete(s: string, outOfRange: set<string>, v: Value)
    requires Denotes(s, outOfRange, v)
    ensures DocumentAt(s, outOfRange) == Done(v, |s|)
  {
    hide Render;
    hide Valid;
    hide Meaning;
    hide ValueAt;
    hide SkipBlank;
    hide At;
    hide Delimited;
    var before, x, after :|
      && Blank(before) && Blank(after) && Valid(x)
      && s == before + Render(x) + after && Meaning(x, outOfRange) == Some(v);
    AtWhole(s);
    AtJoin(s, 0, before + Render(x), after);
    AtJoin(s, 0, before, Render(x));
    ValueStarts(x);
    StartsAt(s, |before|, Render(x));
    SkipsAll(s, 0, before);
    BlankToTheEnd(s, |before| + |Render(x)|, after);
    ValueComplete(x, s, |before|, outOfRange);
  }

  lemma AtWhole(s: string)
    ensures At(s, 0, s)
  {
    assert s[0..|s|] == s;
  }

  lemma DocumentSound(s: string, outOfRange: set<string>)
    requires DocumentAt(s, outOfRange).Done?
    ensures Denotes(s, outOfRange, DocumentAt(s, outOfRange).value)
  {
    hide Render;
    hide Valid;
    hide Meaning;
    hide ValueAt;
    hide SkipBlank;
    var i := SkipBlank(s, 0);
    var x := ValueSound(s, i, outOfRange);
    var n := i + |Render(x)|;
    SkippedIsBlank(s, 0);
    SkippedIsBlank(s, n);
    assert s == s[0..i] + s[i..n] + s[n..|s|];
    assert Blank(s[0..i]) && Blank(s[n..|s|]);
    assert s == s[0..i] + Render(x) + s[n..|s|];
  }

  /** The parser accepts exactly the texts that denote a value, and answers with that value. */
  lemma ParserAcceptsTheGrammar(s: string, outOfRange: set<string>, v: Value)
    ensures Denotes(s, outOfRange, v) <==> DocumentAt(s, outOfRange) == Done(v, |s|)
    ensures DocumentAt(s, outOfRange).Done? ==> DocumentAt(s, outOfRange).next == |s|
  {
    if Denotes(s, outOfRange, v) {
      DocumentComplete(s, outOfRange, v);
    }
    if DocumentAt(s, outOfRange).Done? {
      DocumentSound(s, outOfRange);
      DocumentComplete(s, outOfRange, DocumentAt(s, outOfRange).value);
    }
  }

  // ---- parsed values are well formed ----

  ghost predicate WellFormedEntries(entries: seq<Entry>, outOfRange: set<string>) {
    Ascending(entries) && forall k :: 0 <= k < |entries| ==> WellFormed(entries[k].value, outOfRange)
  }

  lemma InsertWellFormed(entries: seq<Entry>, key: string, v: Value, outOfRange: set<string>)
    requires WellFormedEntries(entries, outOfRange) && WellFormed(v, outOfRange)
    requires Insert(entries, key, v).Some?
    ensures WellFormedEntries(Insert(entries, key, v).value, outOfRange)
  {
    hide WellFormed;
    hide Ascending;
    InsertCorrect(entries, key, v);
    var p := Place(entries, key);
    var after := Insert(entries, key, v).value;
    assert forall k :: 0 <= k < |after| ==>
        after[k] == if k < p then entries[k] else if k == p then Entry(key, v) else entries[k - 1];
  }

  lemma {:induction false} MeaningWellFormed(x: Syntax, outOfRange: set<string>)
    requires Valid(x) && Meaning(x, outOfRange).Some?
    ensures WellFormed(Meaning(x, outOfRange).value, outOfRange)
    decreases x, 0
  {
    if x.FullArray? {
      ItemsWellFormed(x.list, [], outOfRange);
    } else if x.FullObject? {
      MembersWellFormed(x.members, [], outOfRange);
    }
  }

  lemma {:induction false} ItemsWellFormed(list: Items, before: seq<Value>, outOfRange: set<string>)
    requires ValidItems(list) && MeaningOfItems(list, before, outOfRange).Some?
    requires forall k :: 0 <= k < |before| ==> WellFormed(before[k], outOfRange)
    ensures WellFormed(MeaningOfItems(list, before, outOfRange).value, outOfRange)
    decreases list, 1
  {
    MeaningWellFormed(list.value, outOfRange);
    if list.NextItem? {
      ItemsWellFormed(list.rest, before + [Meaning(list.value, outOfRange).value], outOfRange);
    }
  }

  lemma {:induction false} MembersWellFormed(members: Members, before: seq<Entry>, outOfRange: set<string>)
    requires ValidMembers(members) && MeaningOfMembers(members, before, outOfRange).Some?
    requires WellFormedEntries(before, outOfRange)
    ensures WellFormed(MeaningOfMembers(members, before, outOfRange).value, outOfRange)
    decreases members, 1
  {
    hide Insert;
    hide Ascending;
    MeaningWellFormed(members.value, outOfRange);
    var key, v := PiecesMeaning(members.name.pieces), Meaning(members.value, outOfRange).value;
    InsertWellFormed(before, key, v, outOfRange);
    if members.NextMember? {
      MembersWellFormed(members.rest, Insert(before, key, v).value, outOfRange);
    }
  }

  /**
   * The public entry: the value the text denotes, or the message with the line and column where reading
   * stopped. It returns a value exactly for the texts of the grammar.
   */
  method Parse(text: string, outOfRange: set<string>) returns (r: Outcome<Value>)
    ensures forall v :: Denotes(text, outOfRange, v) <==> r == Returned(v)
    ensures r.Thrown? ==>
      && DocumentAt(text, outOfRange).Failed? && r.message == DocumentAt(text, outOfRange).message
      && IsPosition(text, DocumentAt(text, outOfRange).at, r.line, r.column)
  {
    hide IsPosition;
    hide DocumentAt;
    hide Denotes;
    var parser := new Parser(text, outOfRange);
    r := parser.ParseDocument();
    forall v ensures Denotes(text, outOfRange, v) <==> DocumentAt(text, outOfRange) == Done(v, |text|) {
      ParserAcceptsTheGrammar(text, outOfRange, v);
    }
    if r.Returned? {
      ParserAcceptsTheGrammar(text, outOfRange, r.value);
    }
  }
}
