/** The recursive descent parser: what it answers at each offset, and the object that moves along the text. */
module JsonParser {
  import opened JsonText
  import opened Numbers

  // ---- what each parsing method answers ----

  /** The value read and the offset after it, or the message and the offset where reading stopped. */
  datatype Step<+T> = Done(value: T, next: nat) | Failed(message: string, at: nat)

  ghost predicate Moves<T>(r: Step<T>, i: nat, end: nat) {
    match r
    case Done(_, next) => i < next <= end
    case Failed(_, at) => i <= at <= end
  }

  function SkipBlank(s: string, i: nat): (j: nat)
    requires i <= |s|
    ensures i <= j <= |s|
    decreases |s| - i
  {
    if i < |s| && IsBlank(s[i]) then SkipBlank(s, i + 1) else i
  }

  function ExpectAt(s: string, i: nat, c: char): (r: Step<()>)
    requires i <= |s|
    ensures Moves(r, i, |s|)
  {
    if i == |s| then Failed("Expected '" + [c] + "'", i)
    else if s[i] != c then Failed("Expected '" + [c] + "'", i + 1)
    else Done((), i + 1)
  }

  function WordAt(s: string, i: nat, word: string): (r: Step<()>)
    requires i <= |s|
    ensures r.Done? ==> r.next == i + |word| <= |s|
    ensures r.Failed? ==> i <= r.at <= |s|
    decreases |word|
  {
    if word == "" then Done((), i)
    else if i == |s| then Failed("Invalid literal", i)
    else if s[i] != word[0] then Failed("Invalid literal", i + 1)
    else WordAt(s, i + 1, word[1..])
  }

  function DigitsEnd(s: string, i: nat): (j: nat)
    requires i <= |s|
    ensures i <= j <= |s|
    decreases |s| - i
  {
    if i < |s| && IsDigit(s[i]) then DigitsEnd(s, i + 1) else i
  }

  function DigitsAt(s: string, i: nat): (r: Step<()>)
    requires i <= |s|
    ensures Moves(r, i, |s|)
  {
    if i < |s| && IsDigit(s[i]) then Done((), DigitsEnd(s, i + 1)) else Failed("Expected digit", i)
  }

  function IntegerAt(s: string, i: nat): (r: Step<()>)
    requires i <= |s|
    ensures Moves(r, i, |s|)
  {
    if i < |s| && s[i] == '0' then
      if i + 1 < |s| && IsDigit(s[i + 1]) then Failed("Leading zero in number", i + 1) else Done((), i + 1)
    else
      DigitsAt(s, i)
  }

  function FractionAt(s: string, i: nat): (r: Step<()>)
    requires i <= |s|
    ensures r.Done? ==> i <= r.next <= |s|
    ensures r.Failed? ==> i <= r.at <= |s|
  {
    if i < |s| && s[i] == '.' then DigitsAt(s, i + 1) else Done((), i)
  }

  function ExponentAt(s: string, i: nat): (r: Step<()>)
    requires i <= |s|
    ensures r.Done? ==> i <= r.next <= |s|
    ensures r.Failed? ==> i <= r.at <= |s|
  {
    if i < |s| && (s[i] == 'e' || s[i] == 'E') then
      DigitsAt(s, if i + 1 < |s| && (s[i + 1] == '+' || s[i + 1] == '-') then i + 2 else i + 1)
    else
      Done((), i)
  }

  function UnsignedAt(s: string, i: nat): (r: Step<()>)
    requires i <= |s|
    ensures Moves(r, i, |s|)
  {
    match IntegerAt(s, i)
    case Failed(message, at) => Failed(message, at)
    case Done(_, j) =>
      match FractionAt(s, j)
      case Failed(message, at) => Failed(message, at)
      case Done(_, k) => ExponentAt(s, k)
  }

  function TokenAt(s: string, i: nat): (r: Step<()>)
    requires i < |s|
    ensures Moves(r, i, |s|)
  {
    if s[i] != '-' then UnsignedAt(s, i)
    else if i + 1 == |s| then Failed("Incomplete number", i + 1)
    else UnsignedAt(s, i + 1)
  }

  function NumberAt(s: string, i: nat, outOfRange: set<string>): (r: Step<Value>)
    requires i < |s|
    ensures Moves(r, i, |s|)
  {
    match TokenAt(s, i)
    case Failed(message, at) => Failed(message, at)
    case Done(_, j) =>
      if s[i..j] in outOfRange then Failed("Invalid or out-of-range number", j) else Done(Number(s[i..j]), j)
  }

  /** The code so far is below 16 to the number of digits read. */
  function HexLimit(digits: nat): nat
    requires digits <= 4
  {
    if digits == 0 then 1 else if digits == 1 then 0x10 else if digits == 2 then 0x100
    else if digits == 3 then 0x1000 else 0x1_0000
  }

  function HexAt(s: string, i: nat, digits: nat, code: nat): (r: Step<nat>)
    requires i <= |s| && digits <= 4 && code < HexLimit(digits)
    ensures r.Done? ==> r.next == i + (4 - digits) <= |s| && r.value < 0x1_0000
    ensures r.Failed? ==> i <= r.at <= |s|
    decreases 4 - digits
  {
    if digits == 4 then Done(code, i)
    else if i == |s| then Failed("Incomplete unicode escape", i)
    else
      match HexValue(s[i])
      case None => Failed("Invalid unicode escape", i + 1)
      case Some(digit) => HexAt(s, i + 1, digits + 1, 0x10 * code + digit)
  }

  function UnicodeAt(s: string, i: nat): (r: Step<string>)
    requires i <= |s|
    ensures Moves(r, i, |s|)
  {
    match HexAt(s, i, 0, 0)
    case Failed(message, at) => Failed(message, at)
    case Done(code, next) =>
      if IsSurrogate(code) then Failed("UTF-16 surrogate pairs are not supported", next) else Done(Utf8(code), next)
  }

  /** The rest of a string from offset `i`, with `output` read so far. */
  function CharactersAt(s: string, i: nat, output: string): (r: Step<string>)
    requires i <= |s|
    ensures Moves(r, i, |s|)
    decreases |s| - i
  {
    if i == |s| then Failed("Unterminated string", i)
    else if s[i] == '"' then Done(output, i + 1)
    else if s[i] as int < 0x20 then Failed("Control character in string", i + 1)
    else if s[i] != '\\' then CharactersAt(s, i + 1, output + [s[i]])
    else if i + 1 == |s| then Failed("Unterminated escape sequence", i + 1)
    else if s[i + 1] == 'u' then
      match UnicodeAt(s, i + 2)
      case Failed(message, at) => Failed(message, at)
      case Done(bytes, next) => CharactersAt(s, next, output + bytes)
    else
      match ShortMeaning(s[i + 1])
      case None => Failed("Invalid string escape", i + 2)
      case Some(c) => CharactersAt(s, i + 2, output + [c])
  }

  function ValueAt(s: string, i: nat, outOfRange: set<string>): (r: Step<Value>)
    requires i <= |s|
    ensures Moves(r, i, |s|)
    decreases |s| - i, 2
  {
    if i == |s| then Failed("Expected a JSON value", i)
    else if s[i] == '{' then ObjectAt(s, i, outOfRange)
    else if s[i] == '[' then ArrayAt(s, i, outOfRange)
    else if s[i] == '"' then
      match CharactersAt(s, i + 1, "")
      case Failed(message, at) => Failed(message, at)
      case Done(text, next) => Done(String(text), next)
    else if s[i] == 't' then LiteralAt(s, i, "true", Bool(true))
    else if s[i] == 'f' then LiteralAt(s, i, "false", Bool(false))
    else if s[i] == 'n' then LiteralAt(s, i, "null", Null)
    else if s[i] == '-' || IsDigit(s[i]) then NumberAt(s, i, outOfRange)
    else Failed("Unexpected character while parsing a value", i)
  }

  function LiteralAt(s: string, i: nat, word: string, v: Value): (r: Step<Value>)
    requires i <= |s| && |word| > 0
    ensures Moves(r, i, |s|)
  {
    match WordAt(s, i, word)
    case Failed(message, at) => Failed(message, at)
    case Done(_, next) => Done(v, next)
  }

  function ArrayAt(s: string, i: nat, outOfRange: set<string>): (r: Step<Value>)
    requires i < |s|
    ensures Moves(r, i, |s|)
    decreases |s| - i, 1
  {
    var j := SkipBlank(s, i + 1);
    if j < |s| && s[j] == ']' then Done(Array([]), j + 1) else ItemsAt(s, j, [], outOfRange)
  }

  /** The rest of an array from the item at offset `i`, with the items before it. */
  function ItemsAt(s: string, i: nat, before: seq<Value>, outOfRange: set<string>): (r: Step<Value>)
    requires i <= |s|
    ensures Moves(r, i, |s|)
    decreases |s| - i, 3
  {
    match ValueAt(s, i, outOfRange)
    case Failed(message, at) => Failed(message, at)
    case Done(v, n) =>
      var j := SkipBlank(s, n);
      if j < |s| && s[j] == ']' then Done(Array(before + [v]), j + 1)
      else
        match ExpectAt(s, j, ',')
        case Failed(message, at) => Failed(message, at)
        case Done(_, k) => ItemsAt(s, SkipBlank(s, k), before + [v], outOfRange)
  }

  function ObjectAt(s: string, i: nat, outOfRange: set<string>): (r: Step<Value>)
    requires i < |s|
    ensures Moves(r, i, |s|)
    decreases |s| - i, 1
  {
    var j := SkipBlank(s, i + 1);
    if j < |s| && s[j] == '}' then Done(Object([]), j + 1) else MembersAt(s, j, [], outOfRange)
  }

  /** A key and the colon after it, from the key's opening quote to the value. */
  function NameAt(s: string, i: nat): (r: Step<string>)
    requires i <= |s|
    ensures Moves(r, i, |s|)
  {
    if i == |s| || s[i] != '"' then Failed("Object key must be a string", i)
    else
      match CharactersAt(s, i + 1, "")
      case Failed(message, at) => Failed(message, at)
      case Done(key, n) =>
        match ExpectAt(s, SkipBlank(s, n), ':')
        case Failed(message, at) => Failed(message, at)
        case Done(_, k) => Done(key, SkipBlank(s, k))
  }

  /** The rest of an object from the member at offset `i`, with the entries before it. */
  function MembersAt(s: string, i: nat, before: seq<Entry>, outOfRange: set<string>): (r: Step<Value>)
    requires i <= |s|
    ensures Moves(r, i, |s|)
    decreases |s| - i, 3
  {
    match NameAt(s, i)
    case Failed(message, at) => Failed(message, at)
    case Done(key, start) =>
      match ValueAt(s, start, outOfRange)
      case Failed(message, at) => Failed(message, at)
      case Done(v, n) =>
        match Insert(before, key, v)
        case None => Failed("Duplicate object key", n)
        case Some(entries) =>
          var j := SkipBlank(s, n);
          if j < |s| && s[j] == '}' then Done(Object(entries), j + 1)
          else
            match ExpectAt(s, j, ',')
            case Failed(message, at) => Failed(message, at)
            case Done(_, k) => MembersAt(s, SkipBlank(s, k), entries, outOfRange)
  }

  function DocumentAt(s: string, outOfRange: set<string>): (r: Step<Value>)
    ensures Moves(r, 0, |s|)
  {
    match ValueAt(s, SkipBlank(s, 0), outOfRange)
    case Failed(message, at) => Failed(message, at)
    case Done(v, n) =>
      var j := SkipBlank(s, n);
      if j < |s| then Failed("Unexpected trailing content", j) else Done(v, j)
  }

  // ---- positions ----

  function Newlines(s: string, i: nat): set<nat>
    requires i <= |s|
  {
    set j: nat | j < i && s[j] == '\n'
  }

  /** Lines and columns count from one; a line starts after each newline. */
  ghost predicate IsPosition(s: string, i: nat, line: nat, column: nat) {
    && i <= |s|
    && line == 1 + |Newlines(s, i)|
    && 1 <= column <= i + 1
    && (forall k :: i + 1 - column <= k < i ==> s[k] != '\n')
    && (column == i + 1 || s[i - column] == '\n')
  }

  lemma PositionAdvances(s: string, i: nat, line: nat, column: nat)
    requires IsPosition(s, i, line, column) && i < |s|
    ensures s[i] == '\n' ==> IsPosition(s, i + 1, line + 1, 1)
    ensures s[i] != '\n' ==> IsPosition(s, i + 1, line, column + 1)
  {
    if s[i] == '\n' {
      assert Newlines(s, i + 1) == Newlines(s, i) + {i};
    } else {
      assert Newlines(s, i + 1) == Newlines(s, i);
      assert i + 1 - (column + 1) == i - column;
    }
  }

  // ---- the parser object ----

  datatype Outcome<+T> = Returned(value: T) | Thrown(message: string, line: nat, column: nat)

  class Parser {
    const input: string
    const outOfRange: set<string>
    var offset: nat
    var line: nat
    var column: nat

    ghost predicate Valid()
      reads this
    {
      offset <= |input| && IsPosition(input, offset, line, column)
    }

    /** The object stands where the step ends, and reports that place when it fails. */
    ghost predicate Gives<T>(r: Outcome<T>, step: Step<T>)
      reads this
    {
      match step
      case Done(v, next) => r == Returned(v) && offset == next
      case Failed(message, at) => r == Thrown(message, line, column) && offset == at
    }

    constructor (input: string, outOfRange: set<string>)
      ensures Valid() && offset == 0 && this.input == input && this.outOfRange == outOfRange
    {
      this.input, this.outOfRange := input, outOfRange;
      offset, line, column := 0, 1, 1;
      assert Newlines(input, 0) == {};
    }

    method Fail<T>(message: string) returns (r: Outcome<T>)
      ensures r == Thrown(message, line, column)
    {
      r := Thrown(message, line, column);
    }

    method Take() returns (c: char)
      requires Valid() && offset < |input|
      modifies this
      ensures Valid() && offset == old(offset) + 1 && c == input[old(offset)]
    {
      PositionAdvances(input, offset, line, column);
      c := input[offset];
      offset := offset + 1;
      if c == '\n' {
        line, column := line + 1, 1;
      } else {
        column := column + 1;
      }
    }

    method ConsumeIf(c: char) returns (taken: bool)
      requires Valid()
      modifies this
      ensures Valid() && taken == (old(offset) < |input| && input[old(offset)] == c)
      ensures offset == if taken then old(offset) + 1 else old(offset)
    {
      hide IsPosition;
      taken := offset < |input| && input[offset] == c;
      if taken {
        var _ := Take();
      }
    }

    method Expect(c: char) returns (r: Outcome<()>)
      requires Valid()
      modifies this
      ensures Valid() && Gives(r, ExpectAt(input, old(offset), c))
    {
      hide IsPosition;
      if offset == |input| {
        r := Fail("Expected '" + [c] + "'");
        return;
      }
      var taken := Take();
      if taken != c {
        r := Fail("Expected '" + [c] + "'");
        return;
      }
      r := Returned(());
    }

    method SkipWhitespace()
      requires Valid()
      modifies this
      ensures Valid() && offset == SkipBlank(input, old(offset))
    {
      hide IsPosition;
      while offset < |input| && IsBlank(input[offset])
        invariant Valid() && SkipBlank(input, offset) == SkipBlank(input, old(offset))
        decreases |input| - offset
      {
        var _ := Take();
      }
    }

    method ConsumeLiteral(word: string) returns (r: Outcome<()>)
      requires Valid()
      modifies this
      ensures Valid() && Gives(r, WordAt(input, old(offset), word))
    {
      hide IsPosition;
      var k := 0;
      while k < |word|
        invariant Valid() && 0 <= k <= |word|
        invariant WordAt(input, offset, word[k..]) == WordAt(input, old(offset), word)
      {
        if offset == |input| {
          r := Fail("Invalid literal");
          return;
        }
        var c := Take();
        if c != word[k] {
          r := Fail("Invalid literal");
          return;
        }
        assert word[k..][1..] == word[k + 1..];
        k := k + 1;
      }
      r := Returned(());
    }

    method RequireDigits() returns (r: Outcome<()>)
      requires Valid()
      modifies this
      ensures Valid() && Gives(r, DigitsAt(input, old(offset)))
    {
      hide IsPosition;
      if offset == |input| || !IsDigit(input[offset]) {
        r := Fail("Expected digit");
        return;
      }
      while offset < |input| && IsDigit(input[offset])
        invariant Valid() && DigitsEnd(input, offset) == DigitsEnd(input, old(offset))
        decreases |input| - offset
      {
        var _ := Take();
      }
      r := Returned(());
    }

    /** Everything of a number after its sign. */
    method ParseUnsigned() returns (r: Outcome<()>)
      requires Valid()
      modifies this
      ensures Valid() && Gives(r, UnsignedAt(input, old(offset)))
    {
      hide IsPosition;
      hide DigitsAt;
      var zero := ConsumeIf('0');
      if zero {
        if offset < |input| && IsDigit(input[offset]) {
          r := Fail("Leading zero in number");
          return;
        }
      } else {
        r := RequireDigits();
        if r.Thrown? {
          return;
        }
      }
      var point := ConsumeIf('.');
      if point {
        r := RequireDigits();
        if r.Thrown? {
          return;
        }
      }
      if offset < |input| && (input[offset] == 'e' || input[offset] == 'E') {
        var _ := Take();
        if offset < |input| && (input[offset] == '+' || input[offset] == '-') {
          var _ := Take();
        }
        r := RequireDigits();
        return;
      }
      r := Returned(());
    }

    method ParseNumber() returns (r: Outcome<Value>)
      requires Valid() && offset < |input|
      modifies this
      ensures Valid() && Gives(r, NumberAt(input, old(offset), outOfRange))
    {
      hide IsPosition;
      hide UnsignedAt;
      var begin := offset;
      var minus := ConsumeIf('-');
      if minus && offset == |input| {
        r := Fail("Incomplete number");
        return;
      }
      var rest := ParseUnsigned();
      if rest.Thrown? {
        return Thrown(rest.message, rest.line, rest.column);
      }
      var token := input[begin..offset];
      if token in outOfRange {
        r := Fail("Invalid or out-of-range number");
        return;
      }
      r := Returned(Number(token));
    }

    method AppendUnicode() returns (r: Outcome<string>)
      requires Valid()
      modifies this
      ensures Valid() && Gives(r, UnicodeAt(input, old(offset)))
    {
      hide IsPosition;
      hide HexValue;
      hide Utf8;
      var value := 0;
      for i := 0 to 4
        invariant Valid() && 0 <= value < HexLimit(i)
        invariant HexAt(input, offset, i, value) == HexAt(input, old(offset), 0, 0)
      {
        if offset == |input| {
          r := Fail("Incomplete unicode escape");
          return;
        }
        var c := Take();
        var digit := HexValue(c);
        if digit.None? {
          r := Fail("Invalid unicode escape");
          return;
        }
        value := 0x10 * value + digit.value;
      }
      if IsSurrogate(value) {
        r := Fail("UTF-16 surrogate pairs are not supported");
        return;
      }
      r := Returned(Utf8(value));
    }

    method ParseString() returns (r: Outcome<string>)
      requires Valid() && offset < |input| && input[offset] == '"'
      modifies this
      ensures Valid() && Gives(r, CharactersAt(input, old(offset) + 1, ""))
    {
      hide IsPosition;
      hide UnicodeAt;
      var opening := Expect('"');
      assert !opening.Thrown?;
      var output := "";
      while offset < |input|
        invariant Valid() && CharactersAt(input, offset, output) == CharactersAt(input, old(offset) + 1, "")
        decreases |input| - offset
      {
        var c := Take();
        if c == '"' {
          return Returned(output);
        }
        if c as int < 0x20 {
          r := Fail("Control character in string");
          return;
        }
        if c != '\\' {
          output := output + [c];
          continue;
        }
        if offset == |input| {
          r := Fail("Unterminated escape sequence");
          return;
        }
        var letter := Take();
        if letter == 'u' {
          var bytes := AppendUnicode();
          if bytes.Thrown? {
            return bytes;
          }
          output := output + bytes.value;
        } else {
          var meaning := ShortMeaning(letter);
          if meaning.None? {
            r := Fail("Invalid string escape");
            return;
          }
          output := output + [meaning.value];
        }
      }
      r := Fail("Unterminated string");
    }

    method ParseValue() returns (r: Outcome<Value>)
      requires Valid()
      modifies this
      ensures Valid() && Gives(r, ValueAt(input, old(offset), outOfRange))
      decreases |input| - offset, 2
    {
      hide IsPosition;
      if offset == |input| {
        r := Fail("Expected a JSON value");
        return;
      }
      var c := input[offset];
      if c == '{' {
        r := ParseObject();
      } else if c == '[' {
        r := ParseArray();
      } else if c == '"' {
        var text := ParseString();
        r := if text.Thrown? then Thrown(text.message, text.line, text.column) else Returned(String(text.value));
      } else if c == 't' {
        r := ParseLiteral("true", Bool(true));
      } else if c == 'f' {
        r := ParseLiteral("false", Bool(false));
      } else if c == 'n' {
        r := ParseLiteral("null", Null);
      } else if c == '-' || IsDigit(c) {
        r := ParseNumber();
      } else {
        r := Fail("Unexpected character while parsing a value");
      }
    }

    method ParseLiteral(word: string, v: Value) returns (r: Outcome<Value>)
      requires Valid() && |word| > 0
      modifies this
      ensures Valid() && Gives(r, LiteralAt(input, old(offset), word, v))
    {
      hide IsPosition;
      hide WordAt;
      var taken := ConsumeLiteral(word);
      r := if taken.Thrown? then Thrown(taken.message, taken.line, taken.column) else Returned(v);
    }

    method ParseArray() returns (r: Outcome<Value>)
      requires Valid() && offset < |input| && input[offset] == '['
      modifies this
      ensures Valid() && Gives(r, ArrayAt(input, old(offset), outOfRange))
      decreases |input| - offset, 1
    {
      hide IsPosition;
      hide ValueAt;
      var opening := Expect('[');
      assert !opening.Thrown?;
      SkipWhitespace();
      var closed := ConsumeIf(']');
      if closed {
        return Returned(Array([]));
      }
      var items := [];
      ghost var start := offset;
      while true
        invariant Valid() && old(offset) < start <= offset
        invariant ItemsAt(input, offset, items, outOfRange) == ItemsAt(input, start, [], outOfRange)
        decreases |input| - offset
      {
        var item := ParseValue();
        if item.Thrown? {
          return item;
        }
        items := items + [item.value];
        SkipWhitespace();
        closed := ConsumeIf(']');
        if closed {
          break;
        }
        var comma := Expect(',');
        if comma.Thrown? {
          return Thrown(comma.message, comma.line, comma.column);
        }
        SkipWhitespace();
      }
      r := Returned(Array(items));
    }

    method ParseName() returns (r: Outcome<string>)
      requires Valid()
      modifies this
      ensures Valid() && Gives(r, NameAt(input, old(offset)))
    {
      hide IsPosition;
      hide CharactersAt;
      if offset == |input| || input[offset] != '"' {
        r := Fail("Object key must be a string");
        return;
      }
      r := ParseString();
      if r.Thrown? {
        return;
      }
      SkipWhitespace();
      var colon := Expect(':');
      if colon.Thrown? {
        return Thrown(colon.message, colon.line, colon.column);
      }
      SkipWhitespace();
    }

    method ParseObject() returns (r: Outcome<Value>)
      requires Valid() && offset < |input| && input[offset] == '{'
      modifies this
      ensures Valid() && Gives(r, ObjectAt(input, old(offset), outOfRange))
      decreases |input| - offset, 1
    {
      hide IsPosition;
      hide ValueAt;
      hide NameAt;
      hide Insert;
      var opening := Expect('{');
      assert !opening.Thrown?;
      SkipWhitespace();
      var closed := ConsumeIf('}');
      if closed {
        return Returned(Object([]));
      }
      var entries := [];
      ghost var start := offset;
      while true
        invariant Valid() && old(offset) < start <= offset
        invariant MembersAt(input, offset, entries, outOfRange) == MembersAt(input, start, [], outOfRange)
        decreases |input| - offset
      {
        var key := ParseName();
        if key.Thrown? {
          return Thrown(key.message, key.line, key.column);
        }
        var value := ParseValue();
        if value.Thrown? {
          return value;
        }
        var inserted := Insert(entries, key.value, value.value);
        if inserted.None? {
          r := Fail("Duplicate object key");
          return;
        }
        entries := inserted.value;
        SkipWhitespace();
        closed := ConsumeIf('}');
        if closed {
          break;
        }
        var comma := Expect(',');
        if comma.Thrown? {
          return Thrown(comma.message, comma.line, comma.column);
        }
        SkipWhitespace();
      }
      r := Returned(Object(entries));
    }

    method ParseDocument() returns (r: Outcome<Value>)
      requires Valid() && offset == 0
      modifies this
      ensures Valid() && Gives(r, DocumentAt(input, outOfRange))
    {
      hide IsPosition;
      hide ValueAt;
      SkipWhitespace();
      r := ParseValue();
      if r.Thrown? {
        return;
      }
      SkipWhitespace();
      if offset < |input| {
        r := Fail("Unexpected trailing content");
      }
    }
  }
}
