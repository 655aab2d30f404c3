/**
 * JSON values, and the concrete syntax that denotes them: the grammar of RFC 8259, with white space,
 * escapes and member order kept, as trees that can be written out and read for their meaning.
 */
module JsonText {
  import opened Numbers

  /** A byte is a character below 256. */
  const BYTE_LIMIT := 256

  datatype Entry = Entry(key: string, value: Value)

  /** An object lists its entries in increasing key order, as iterating the source's map does. */
  datatype Value =
    | Null
    | Bool(flag: bool)
    | Number(token: string)
    | String(text: string)
    | Array(items: seq<Value>)
    | Object(entries: seq<Entry>)

  // ---- key order ----

  /** Lexicographic order by character code. */
  predicate Less(a: string, b: string) {
    if a == [] then b != []
    else b != [] && (a[0] < b[0] || (a[0] == b[0] && Less(a[1..], b[1..])))
  }

  lemma {:induction false} LessTransitive(a: string, b: string, c: string)
    requires Less(a, b) && Less(b, c)
    ensures Less(a, c)
  {
    if a != [] && a[0] == b[0] && b[0] == c[0] {
      LessTransitive(a[1..], b[1..], c[1..]);
    }
  }

  lemma {:induction false} LessTotal(a: string, b: string)
    ensures Less(a, b) || a == b || Less(b, a)
    ensures !(Less(a, b) && Less(b, a)) && !Less(a, a)
  {
    if a != [] && b != [] && a[0] == b[0] {
      LessTotal(a[1..], b[1..]);
      assert a == [a[0]] + a[1..] && b == [b[0]] + b[1..];
    }
    if a != [] {
      LessTotal(a[1..], a[1..]);
    }
  }

  /** The first difference decides, by the lesser character; a proper prefix comes first. */
  lemma {:induction false} LessIs(common: string, a: string, b: string)
    requires a == [] || b == [] || a[0] != b[0]
    ensures Less(common + a, common + b) <==> b != [] && (a == [] || a[0] as int < b[0] as int)
  {
    if common == [] {
      assert common + a == a && common + b == b;
    } else {
      LessIs(common[1..], a, b);
      assert (common + a)[1..] == common[1..] + a && (common + b)[1..] == common[1..] + b;
    }
  }

  predicate Ascending(entries: seq<Entry>) {
    forall i, j :: 0 <= i < j < |entries| ==> Less(entries[i].key, entries[j].key)
  }

  predicate HasKey(entries: seq<Entry>, key: string) {
    exists k :: 0 <= k < |entries| && entries[k].key == key
  }

  /** How many leading entries have a smaller key. */
  function Place(entries: seq<Entry>, key: string): (p: nat)
    ensures p <= |entries|
    ensures forall k :: 0 <= k < p ==> Less(entries[k].key, key)
    ensures p < |entries| ==> !Less(entries[p].key, key)
  {
    if entries == [] || !Less(entries[0].key, key) then 0 else 1 + Place(entries[1..], key)
  }

  /** The map's `emplace`: nothing changes hands when the key is already there. */
  function Insert(entries: seq<Entry>, key: string, value: Value): Option<seq<Entry>> {
    var p := Place(entries, key);
    if p < |entries| && entries[p].key == key then None
    else Some(entries[..p] + [Entry(key, value)] + entries[p..])
  }

  /** `emplace` refuses exactly the keys already there, and otherwise keeps the order and adds one entry. */
  lemma InsertCorrect(entries: seq<Entry>, key: string, value: Value)
    requires Ascending(entries)
    ensures Insert(entries, key, value) == None <==> HasKey(entries, key)
    ensures Insert(entries, key, value).Some? ==>
      var after := Insert(entries, key, value).value;
        Ascending(after) && multiset(after) == multiset(entries) + multiset{Entry(key, value)}
  {
    hide Less;
    hide Ascending;
    hide Place;
    var p := Place(entries, key);
    if p < |entries| && entries[p].key == key {
      assert HasKey(entries, key);
    } else {
      AboveThePlace(entries, key);
      NotThere(entries, p, key);
      InsertAscending(entries, p, Entry(key, value));
      assert entries == entries[..p] + entries[p..];
    }
  }

  lemma AboveThePlace(entries: seq<Entry>, key: string)
    requires Ascending(entries)
    requires var p := Place(entries, key); p == |entries| || entries[p].key != key
    ensures forall k :: Place(entries, key) <= k < |entries| ==> Less(key, entries[k].key)
  {
    hide Less;
    hide Place;
    var p := Place(entries, key);
    if p < |entries| {
      LessTotal(entries[p].key, key);
      forall k | p <= k < |entries| ensures Less(key, entries[k].key) {
        if k > p {
          LessTransitive(key, entries[p].key, entries[k].key);
        }
      }
    }
  }

  lemma NotThere(entries: seq<Entry>, p: nat, key: string)
    requires p <= |entries|
    requires forall k :: 0 <= k < p ==> Less(entries[k].key, key)
    requires forall k :: p <= k < |entries| ==> Less(key, entries[k].key)
    ensures !HasKey(entries, key)
  {
    LessTotal(key, key);
  }

  lemma InsertAscending(entries: seq<Entry>, p: nat, entry: Entry)
    requires Ascending(entries) && p <= |entries|
    requires forall k :: 0 <= k < p ==> Less(entries[k].key, entry.key)
    requires forall k :: p <= k < |entries| ==> Less(entry.key, entries[k].key)
    ensures Ascending(entries[..p] + [entry] + entries[p..])
  {
    hide Less;
    var after := entries[..p] + [entry] + entries[p..];
    assert forall j :: 0 <= j < |after| ==>
        after[j] == if j < p then entries[j] else if j == p then entry else entries[j - 1];
  }

  /** A key above all others goes last. */
  lemma InsertLast(entries: seq<Entry>, key: string, value: Value)
    requires forall k :: 0 <= k < |entries| ==> Less(entries[k].key, key)
    ensures Insert(entries, key, value) == Some(entries + [Entry(key, value)])
  {
    assert Place(entries, key) == |entries|;
    assert entries[..|entries|] + [Entry(key, value)] + entries[|entries|..] == entries + [Entry(key, value)];
  }

  // ---- lexical elements ----

  predicate IsBlank(c: char) {
    c == ' ' || 9 <= c as int <= 13
  }

  /** White space: the four characters of section 2 of RFC 8259, and the source's two more, VT and FF. */
  predicate Blank(text: string) {
    forall k :: 0 <= k < |text| ==> IsBlank(text[k])
  }

  lemma BlankCharacters(c: char)
    ensures IsBlank(c) <==> c as int in [0x20, 0x09, 0x0A, 0x0D] || c as int in [0x0B, 0x0C]
  {
  }

  predicate IsDigit(c: char) {
    '0' <= c <= '9'
  }

  predicate Digits(text: string) {
    |text| > 0 && forall k :: 0 <= k < |text| ==> IsDigit(text[k])
  }

  /** Section 6 of RFC 8259: `int`. */
  predicate IsInteger(text: string) {
    text == "0" || (Digits(text) && text[0] != '0')
  }

  /** Section 6 of RFC 8259: an optional `frac`. */
  predicate IsFraction(text: string) {
    text == "" || (text[0] == '.' && Digits(text[1..]))
  }

  /** Section 6 of RFC 8259: an optional `exp`. */
  predicate IsExponent(text: string) {
    || text == ""
    || (&& (text[0] == 'e' || text[0] == 'E')
        && (Digits(text[1..]) || (|text| > 1 && (text[1] == '+' || text[1] == '-') && Digits(text[2..]))))
  }

  ghost predicate IsNumberOf(token: string, sign: string, integer: string, fraction: string, exponent: string) {
    && token == sign + integer + fraction + exponent
    && (sign == "" || sign == "-") && IsInteger(integer) && IsFraction(fraction) && IsExponent(exponent)
  }

  ghost predicate IsNumber(token: string) {
    exists sign, integer, fraction, exponent :: IsNumberOf(token, sign, integer, fraction, exponent)
  }

  function HexValue(c: char): (digit: Option<nat>)
    ensures digit.Some? ==> digit.value < 0x10
  {
    if '0' <= c <= '9' then Some(c as int - '0' as int)
    else if 'a' <= c <= 'f' then Some(c as int - 'a' as int + 10)
    else if 'A' <= c <= 'F' then Some(c as int - 'A' as int + 10)
    else None
  }

  predicate IsHex(text: string) {
    |text| == 4 && forall k :: 0 <= k < 4 ==> HexValue(text[k]).Some?
  }

  function CodeOf(text: string): (code: nat)
    requires IsHex(text)
    ensures code < 0x1_0000
  {
    hide HexValue;
    0x1000 * HexValue(text[0]).value + 0x100 * HexValue(text[1]).value
    + 0x10 * HexValue(text[2]).value + HexValue(text[3]).value
  }

  /** The sixteen hexadecimal digits, in either case, and nothing else. */
  lemma HexDigitValue(v: nat)
    requires v < 16
    ensures HexValue("0123456789abcdef"[v]) == HexValue("0123456789ABCDEF"[v]) == Some(v)
  {
  }

  lemma OnlyHexDigits(c: char)
    ensures HexValue(c).Some? ==>
              c == "0123456789abcdef"[HexValue(c).value] || c == "0123456789ABCDEF"[HexValue(c).value]
  {
  }

  /** Four digits are read as a number, the most significant first. */
  lemma CodeOfDigits(text: string)
    requires IsHex(text)
    ensures CodeOf(text) == ((HexValue(text[0]).value * 16 + HexValue(text[1]).value) * 16
                             + HexValue(text[2]).value) * 16 + HexValue(text[3]).value
  {
  }

  predicate IsSurrogate(code: nat) {
    0xD800 <= code <= 0xDFFF
  }

  /** The surrogates of UTF-16 are the code units whose first five bits are 11011. */
  lemma SurrogateUnits(code: nat)
    ensures IsSurrogate(code) <==> code / 0x800 == 27
  {
  }

  /** The UTF-8 bytes of a code point of the basic plane, as the source computes them. */
  function Utf8(code: nat): (bytes: string)
    requires code < 0x1_0000
    ensures forall k :: 0 <= k < |bytes| ==> bytes[k] as int < BYTE_LIMIT
  {
    if code <= 0x7F then [code as char]
    else if code <= 0x7FF then [(0xC0 + code / 0x40) as char, (0x80 + code % 0x40) as char]
    else [(0xE0 + code / 0x1000) as char, (0x80 + code / 0x40 % 0x40) as char, (0x80 + code % 0x40) as char]
  }

  /** Section 3 of RFC 3629: what a sequence of one to three bytes encodes. */
  function Decoded(bytes: string): nat
    requires 1 <= |bytes| <= 3
    requires |bytes| == 2 ==> 0xC0 <= bytes[0] as int < 0xE0 && 0x80 <= bytes[1] as int < 0xC0
    requires |bytes| == 3 ==>
      && 0xE0 <= bytes[0] as int < 0xF0
      && 0x80 <= bytes[1] as int < 0xC0 && 0x80 <= bytes[2] as int < 0xC0
  {
    if |bytes| == 1 then bytes[0] as int
    else if |bytes| == 2 then (bytes[0] as int - 0xC0) * 0x40 + (bytes[1] as int - 0x80)
    else (bytes[0] as int - 0xE0) * 0x1000 + (bytes[1] as int - 0x80) * 0x40 + (bytes[2] as int - 0x80)
  }

  /** The bytes written for a code point decode to it, in the shortest form RFC 3629 asks for. */
  lemma Utf8Decodes(code: nat)
    requires code < 0x1_0000
    ensures |Utf8(code)| == (if code < 0x80 then 1 else if code < 0x800 then 2 else 3)
    ensures |Utf8(code)| == 2 ==> 0xC0 <= Utf8(code)[0] as int < 0xE0 && 0x80 <= Utf8(code)[1] as int < 0xC0
    ensures |Utf8(code)| == 3 ==>
      && 0xE0 <= Utf8(code)[0] as int < 0xF0
      && 0x80 <= Utf8(code)[1] as int < 0xC0 && 0x80 <= Utf8(code)[2] as int < 0xC0
    ensures Decoded(Utf8(code)) == code
  {
    assert code / 0x1000 * 0x1000 + code / 0x40 % 0x40 * 0x40 + code % 0x40 == code;
  }

  // ---- strings ----

  /** One element between the quotes of a string, section 7 of RFC 8259. */
  datatype Piece = Raw(c: char) | Short(letter: char) | Unicode(digits: string)

  function ShortMeaning(letter: char): Option<char> {
    if letter == '"' || letter == '\\' || letter == '/' then Some(letter)
    else if letter == 'b' then Some(8 as char)
    else if letter == 'f' then Some(12 as char)
    else if letter == 'n' then Some(10 as char)
    else if letter == 'r' then Some(13 as char)
    else if letter == 't' then Some(9 as char)
    else None
  }

  /** The two-character escapes of section 7 of RFC 8259, and no others. */
  lemma ShortEscapes(letter: char)
    ensures forall k :: 0 <= k < 8 ==>
              ShortMeaning("\"\\/bfnrt"[k]) == Some(([0x22, 0x5C, 0x2F, 0x08, 0x0C, 0x0A, 0x0D, 0x09][k]) as char)
    ensures ShortMeaning(letter).Some? <==> letter in "\"\\/bfnrt"
  {
  }

  /** Legal as the grammar has it, but for surrogates, which the source does not support. */
  predicate ValidPiece(p: Piece) {
    match p
    case Raw(c) => c as int >= 0x20 && c != '"' && c != '\\'
    case Short(letter) => ShortMeaning(letter).Some?
    case Unicode(digits) => IsHex(digits) && !IsSurrogate(CodeOf(digits))
  }

  function PieceText(p: Piece): string {
    match p
    case Raw(c) => [c]
    case Short(letter) => ['\\', letter]
    case Unicode(digits) => ['\\', 'u'] + digits
  }

  function PieceMeaning(p: Piece): string
    requires ValidPiece(p)
  {
    match p
    case Raw(c) => [c]
    case Short(letter) => [ShortMeaning(letter).value]
    case Unicode(digits) => Utf8(CodeOf(digits))
  }

  predicate ValidPieces(pieces: seq<Piece>) {
    forall k :: 0 <= k < |pieces| ==> ValidPiece(pieces[k])
  }

  /** The pieces and the closing quote. */
  function PiecesText(pieces: seq<Piece>): string {
    if pieces == [] then "\"" else PieceText(pieces[0]) + PiecesText(pieces[1..])
  }

  function PiecesMeaning(pieces: seq<Piece>): string
    requires ValidPieces(pieces)
  {
    if pieces == [] then "" else PieceMeaning(pieces[0]) + PiecesMeaning(pieces[1..])
  }

  // ---- syntax trees ----

  datatype Syntax =
    | Word(value: Value)
    | Numeral(token: string)
    | Text(pieces: seq<Piece>)
    | EmptyArray(blank: string)
    | FullArray(list: Items)
    | EmptyObject(blank: string)
    | FullObject(members: Members)

  datatype Items =
    | LastItem(before: string, value: Syntax, after: string)
    | NextItem(before: string, value: Syntax, after: string, rest: Items)

  datatype Name = Name(before: string, pieces: seq<Piece>, gap: string, space: string)

  datatype Members =
    | LastMember(name: Name, value: Syntax, after: string)
    | NextMember(name: Name, value: Syntax, after: string, rest: Members)

  function WordText(v: Value): string {
    match v
    case Null => "null"
    case Bool(flag) => if flag then "true" else "false"
    case _ => ""
  }

  function Render(x: Syntax): string {
    match x
    case Word(v) => WordText(v)
    case Numeral(token) => token
    case Text(pieces) => "\"" + PiecesText(pieces)
    case EmptyArray(blank) => "[" + blank + "]"
    case FullArray(list) => "[" + RenderItems(list)
    case EmptyObject(blank) => "{" + blank + "}"
    case FullObject(members) => "{" + RenderMembers(members)
  }

  function RenderItems(list: Items): string {
    match list
    case LastItem(before, value, after) => before + Render(value) + after + "]"
    case NextItem(before, value, after, rest) => before + Render(value) + after + "," + RenderItems(rest)
  }

  function NameText(name: Name): string {
    name.before + "\"" + PiecesText(name.pieces) + name.gap + ":" + name.space
  }

  function RenderMembers(members: Members): string {
    match members
    case LastMember(name, value, after) => NameText(name) + Render(value) + after + "}"
    case NextMember(name, value, after, rest) => NameText(name) + Render(value) + after + "," + RenderMembers(rest)
  }

  ghost predicate Valid(x: Syntax) {
    match x
    case Word(v) => v.Null? || v.Bool?
    case Numeral(token) => IsNumber(token)
    case Text(pieces) => ValidPieces(pieces)
    case EmptyArray(blank) => Blank(blank)
    case FullArray(list) => ValidItems(list)
    case EmptyObject(blank) => Blank(blank)
    case FullObject(members) => ValidMembers(members)
  }

  ghost predicate ValidItems(list: Items) {
    && Blank(list.before) && Valid(list.value) && Blank(list.after)
    && (list.NextItem? ==> ValidItems(list.rest))
  }

  predicate ValidName(name: Name) {
    Blank(name.before) && ValidPieces(name.pieces) && Blank(name.gap) && Blank(name.space)
  }

  ghost predicate ValidMembers(members: Members) {
    && ValidName(members.name) && Valid(members.value) && Blank(members.after)
    && (members.NextMember? ==> ValidMembers(members.rest))
  }

  /**
   * What a tree means: nothing when some object repeats a key, or when a number is one of those in
   * `outOfRange`, which the conversion to a double refuses.
   */
  ghost function Meaning(x: Syntax, outOfRange: set<string>): Option<Value>
    requires Valid(x)
  {
    match x
    case Word(v) => Some(v)
    case Numeral(token) => if token in outOfRange then None else Some(Number(token))
    case Text(pieces) => Some(String(PiecesMeaning(pieces)))
    case EmptyArray(_) => Some(Array([]))
    case FullArray(list) => MeaningOfItems(list, [], outOfRange)
    case EmptyObject(_) => Some(Object([]))
    case FullObject(members) => MeaningOfMembers(members, [], outOfRange)
  }

  ghost function MeaningOfItems(list: Items, before: seq<Value>, outOfRange: set<string>): Option<Value>
    requires ValidItems(list)
  {
    match Meaning(list.value, outOfRange)
    case None => None
    case Some(v) =>
      if list.LastItem? then Some(Array(before + [v])) else MeaningOfItems(list.rest, before + [v], outOfRange)
  }

  ghost function MeaningOfMembers(members: Members, before: seq<Entry>, outOfRange: set<string>): Option<Value>
    requires ValidMembers(members)
  {
    match Meaning(members.value, outOfRange)
    case None => None
    case Some(v) =>
      match Insert(before, PiecesMeaning(members.name.pieces), v)
      case None => None
      case Some(entries) =>
        if members.LastMember? then Some(Object(entries)) else MeaningOfMembers(members.rest, entries, outOfRange)
  }

  /** A text is a JSON text for the value: white space around one tree that means it. */
  ghost predicate Denotes(text: string, outOfRange: set<string>, v: Value) {
    exists before: string, x: Syntax, after: string ::
      && Blank(before) && Blank(after) && Valid(x)
      && text == before + Render(x) + after && Meaning(x, outOfRange) == Some(v)
  }

  // ---- values a map and the number type can hold ----

  ghost predicate WellFormed(v: Value, outOfRange: set<string>) {
    match v
    case Number(token) => IsNumber(token) && token !in outOfRange
    case Array(items) => forall k :: 0 <= k < |items| ==> WellFormed(items[k], outOfRange)
    case Object(entries) =>
      && Ascending(entries)
      && (forall k :: 0 <= k < |entries| ==> WellFormed(entries[k].value, outOfRange))
    case _ => true
  }
}
