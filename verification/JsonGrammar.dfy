/** The parser accepts exactly the grammar: every tree is read back as its meaning, and nothing else is read. */
module JsonGrammar {
  import opened JsonText
  import opened JsonParser
  import opened Numbers

  /** `t` stands in `s` at offset `i`. */
  predicate At(s: string, i: nat, t: string) {
    i + |t| <= |s| && s[i..i + |t|] == t
  }

  lemma AtJoin(s: string, i: nat, a: string, b: string)
    ensures At(s, i, a + b) <==> At(s, i, a) && At(s, i + |a|, b)
  {
    if i + |a| + |b| <= |s| {
      var t := s[i..i + |a| + |b|];
      assert s[i..i + |a|] == t[..|a|];
      assert s[i + |a|..i + |a| + |b|] == t[|a|..];
      if t == a + b {
        assert t[..|a|] == a && t[|a|..] == b;
      }
      if t[..|a|] == a && t[|a|..] == b {
        assert t == t[..|a|] + t[|a|..];
      }
    }
  }

  lemma AtSlice(s: string, i: nat, j: nat)
    requires i <= j <= |s|
    ensures At(s, i, s[i..j])
  {
  }

  lemma AtOne(s: string, i: nat, c: char)
    ensures At(s, i, [c]) <==> i < |s| && s[i] == c
  {
    if i < |s| {
      assert s[i..i + 1] == [s[i]];
    }
  }

  // ---- white space ----

  lemma {:induction false} SkipsAll(s: string, i: nat, blank: string)
    requires Blank(blank) && At(s, i, blank)
    requires i + |blank| == |s| || !IsBlank(s[i + |blank|])
    ensures SkipBlank(s, i) == i + |blank|
    decreases |blank|
  {
    if blank != "" {
      assert blank == [blank[0]] + blank[1..];
      AtJoin(s, i, [blank[0]], blank[1..]);
      AtOne(s, i, blank[0]);
      SkipsAll(s, i + 1, blank[1..]);
    }
  }

  lemma {:induction false} SkippedIsBlank(s: string, i: nat)
    requires i <= |s|
    ensures Blank(s[i..SkipBlank(s, i)])
    ensures SkipBlank(s, i) < |s| ==> !IsBlank(s[SkipBlank(s, i)])
    decreases |s| - i
  {
    if i < |s| && IsBlank(s[i]) {
      SkippedIsBlank(s, i + 1);
      assert s[i..SkipBlank(s, i)] == [s[i]] + s[i + 1..SkipBlank(s, i + 1)];
    }
  }

  // ---- numbers ----

  predicate NoDigit(s: string, i: nat) {
    i < |s| ==> !IsDigit(s[i])
  }

  /** No number that ends here could be read further. */
  predicate Delimited(s: string, i: nat) {
    NoDigit(s, i) && (i < |s| ==> s[i] != '.' && s[i] != 'e' && s[i] != 'E')
  }

  lemma {:induction false} DigitsEndAfter(s: string, i: nat, digits: string)
    requires At(s, i, digits) && NoDigit(s, i + |digits|)
    requires forall k :: 0 <= k < |digits| ==> IsDigit(digits[k])
    ensures DigitsEnd(s, i) == i + |digits|
    decreases |digits|
  {
    if digits != "" {
      assert digits == [digits[0]] + digits[1..];
      AtJoin(s, i, [digits[0]], digits[1..]);
      AtOne(s, i, digits[0]);
      DigitsEndAfter(s, i + 1, digits[1..]);
    }
  }

  lemma {:induction false} DigitsEndSound(s: string, i: nat)
    requires i <= |s|
    ensures forall k :: i <= k < DigitsEnd(s, i) ==> IsDigit(s[k])
    decreases |s| - i
  {
    if i < |s| && IsDigit(s[i]) {
      DigitsEndSound(s, i + 1);
    }
  }

  lemma DigitsComplete(s: string, i: nat, digits: string)
    requires Digits(digits) && At(s, i, digits) && NoDigit(s, i + |digits|)
    ensures DigitsAt(s, i) == Done((), i + |digits|)
  {
    DigitsEndAfter(s, i, digits);
    assert s[i..i + |digits|][0] == s[i];
  }

  lemma DigitsSound(s: string, i: nat)
    requires i <= |s| && DigitsAt(s, i).Done?
    ensures Digits(s[i..DigitsAt(s, i).next])
  {
    DigitsEndSound(s, i + 1);
  }

  lemma IntegerComplete(s: string, i: nat, t: string)
    requires IsInteger(t) && At(s, i, t) && NoDigit(s, i + |t|)
    ensures IntegerAt(s, i) == Done((), i + |t|)
  {
    assert s[i..i + |t|][0] == s[i];
    if t != "0" {
      DigitsComplete(s, i, t);
    }
  }

  lemma IntegerSound(s: string, i: nat)
    requires i <= |s| && IntegerAt(s, i).Done?
    ensures IsInteger(s[i..IntegerAt(s, i).next])
  {
    if s[i] == '0' {
      assert s[i..i + 1] == "0";
    } else {
      DigitsSound(s, i);
    }
  }

  lemma FractionComplete(s: string, i: nat, t: string)
    requires IsFraction(t) && At(s, i, t) && NoDigit(s, i + |t|)
    requires t == "" && i < |s| ==> s[i] != '.'
    ensures FractionAt(s, i) == Done((), i + |t|)
  {
    if t != "" {
      assert t == [t[0]] + t[1..];
      AtJoin(s, i, [t[0]], t[1..]);
      AtOne(s, i, '.');
      DigitsComplete(s, i + 1, t[1..]);
    }
  }

  lemma FractionSound(s: string, i: nat)
    requires i <= |s| && FractionAt(s, i).Done?
    ensures IsFraction(s[i..FractionAt(s, i).next])
  {
    if i < |s| && s[i] == '.' {
      DigitsSound(s, i + 1);
      var t := s[i..FractionAt(s, i).next];
      assert t[1..] == s[i + 1..FractionAt(s, i).next];
    }
  }

  lemma ExponentComplete(s: string, i: nat, t: string)
    requires IsExponent(t) && At(s, i, t) && Delimited(s, i + |t|)
    ensures ExponentAt(s, i) == Done((), i + |t|)
  {
    if t != "" {
      assert t == [t[0]] + t[1..];
      AtJoin(s, i, [t[0]], t[1..]);
      AtOne(s, i, t[0]);
      assert t[1..][0] == s[i + 1..i + |t|][0] == s[i + 1];
      if Digits(t[1..]) {
        DigitsComplete(s, i + 1, t[1..]);
      } else {
        assert t[1..] == [t[1]] + t[2..];
        AtJoin(s, i + 1, [t[1]], t[2..]);
        DigitsComplete(s, i + 2, t[2..]);
      }
    }
  }

  lemma ExponentSound(s: string, i: nat)
    requires i <= |s| && ExponentAt(s, i).Done?
    ensures IsExponent(s[i..ExponentAt(s, i).next])
  {
    var next := ExponentAt(s, i).next;
    if i < |s| && (s[i] == 'e' || s[i] == 'E') {
      var t := s[i..next];
      if i + 1 < |s| && (s[i + 1] == '+' || s[i + 1] == '-') {
        DigitsSound(s, i + 2);
        assert t[2..] == s[i + 2..next];
      } else {
        DigitsSound(s, i + 1);
        assert t[1..] == s[i + 1..next];
      }
    }
  }

  /** A fraction or an exponent starts with no digit, and an exponent with no point. */
  lemma PartsStart(s: string, i: nat, fraction: string, exponent: string)
    requires IsFraction(fraction) && IsExponent(exponent)
    requires At(s, i, fraction + exponent) && Delimited(s, i + |fraction + exponent|)
    ensures NoDigit(s, i) && NoDigit(s, i + |fraction|)
    ensures fraction == "" && i < |s| ==> s[i] != '.'
    ensures At(s, i, fraction) && At(s, i + |fraction|, exponent) && Delimited(s, i + |fraction| + |exponent|)
  {
    AtJoin(s, i, fraction, exponent);
    if fraction != "" {
      assert s[i..i + |fraction|][0] == s[i];
    }
    if exponent != "" {
      assert s[i + |fraction|..i + |fraction| + |exponent|][0] == s[i + |fraction|];
    }
  }

  lemma UnsignedComplete(s: string, i: nat, integer: string, fraction: string, exponent: string)
    requires IsInteger(integer) && IsFraction(fraction) && IsExponent(exponent)
    requires At(s, i, integer + (fraction + exponent)) && Delimited(s, i + |integer + (fraction + exponent)|)
    ensures UnsignedAt(s, i) == Done((), i + |integer + (fraction + exponent)|)
  {
    hide IsInteger;
    hide IsFraction;
    hide IsExponent;
    hide IntegerAt;
    hide FractionAt;
    hide ExponentAt;
    AtJoin(s, i, integer, fraction + exponent);
    PartsStart(s, i + |integer|, fraction, exponent);
    IntegerComplete(s, i, integer);
    FractionComplete(s, i + |integer|, fraction);
    ExponentComplete(s, i + |integer| + |fraction|, exponent);
  }

  lemma TokenComplete(s: string, i: nat, token: string)
    requires IsNumber(token) && At(s, i, token) && Delimited(s, i + |token|)
    ensures |token| > 0 && (token[0] == '-' || IsDigit(token[0]))
    ensures TokenAt(s, i) == Done((), i + |token|)
  {
    hide UnsignedAt;
    var sign, integer, fraction, exponent :| IsNumberOf(token, sign, integer, fraction, exponent);
    var unsigned := integer + (fraction + exponent);
    assert token == sign + unsigned;
    AtJoin(s, i, sign, unsigned);
    UnsignedComplete(s, i + |sign|, integer, fraction, exponent);
    assert token[0] == s[i..i + |token|][0] == s[i];
    assert |integer| > 0 && IsDigit(integer[0]);
    assert unsigned[0] == integer[0];
  }

  lemma SliceJoin(s: string, i: nat, j: nat, k: nat)
    requires i <= j <= k <= |s|
    ensures s[i..j] + s[j..k] == s[i..k]
  {
  }

  lemma NumberSound(s: string, i: nat)
    requires i < |s| && TokenAt(s, i).Done?
    ensures IsNumber(s[i..TokenAt(s, i).next])
  {
    hide IsInteger;
    hide IsFraction;
    hide IsExponent;
    hide IntegerAt;
    hide FractionAt;
    hide ExponentAt;
    var start := if s[i] == '-' then i + 1 else i;
    var j := IntegerAt(s, start).next;
    var k := FractionAt(s, j).next;
    var next := ExponentAt(s, k).next;
    IntegerSound(s, start);
    FractionSound(s, j);
    ExponentSound(s, k);
    assert IsNumberOf(s[i..next], s[i..start], s[start..j], s[j..k], s[k..next]) by {
      SliceJoin(s, i, start, j);
      SliceJoin(s, i, j, k);
      SliceJoin(s, i, k, next);
      AtOne(s, i, '-');
    }
  }

  // ---- strings ----

  lemma HexComplete(s: string, i: nat, digits: string)
    requires IsHex(digits) && At(s, i, digits)
    ensures HexAt(s, i, 0, 0) == Done(CodeOf(digits), i + 4)
  {
    hide HexValue;
    assert forall k :: 0 <= k < 4 ==> s[i..i + 4][k] == digits[k];
    var a, b := HexValue(digits[0]).value, HexValue(digits[1]).value;
    var c, d := HexValue(digits[2]).value, HexValue(digits[3]).value;
    assert HexAt(s, i, 0, 0) == HexAt(s, i + 1, 1, a);
    assert HexAt(s, i + 1, 1, a) == HexAt(s, i + 2, 2, 0x10 * a + b);
    assert HexAt(s, i + 2, 2, 0x10 * a + b) == HexAt(s, i + 3, 3, 0x10 * (0x10 * a + b) + c);
    assert HexAt(s, i + 3, 3, 0x10 * (0x10 * a + b) + c)
        == HexAt(s, i + 4, 4, 0x10 * (0x10 * (0x10 * a + b) + c) + d);
  }

  lemma HexSound(s: string, i: nat)
    requires i <= |s| && HexAt(s, i, 0, 0).Done?
    ensures i + 4 <= |s| && IsHex(s[i..i + 4])
  {
    hide HexValue;
    assert HexValue(s[i]).Some?;
    var a := HexValue(s[i]).value;
    assert HexAt(s, i, 0, 0) == HexAt(s, i + 1, 1, a);
    assert HexValue(s[i + 1]).Some?;
    var b := 0x10 * a + HexValue(s[i + 1]).value;
    assert HexAt(s, i + 1, 1, a) == HexAt(s, i + 2, 2, b);
    assert HexValue(s[i + 2]).Some?;
    var c := 0x10 * b + HexValue(s[i + 2]).value;
    assert HexAt(s, i + 2, 2, b) == HexAt(s, i + 3, 3, c);
    assert HexValue(s[i + 3]).Some?;
  }

  lemma PieceComplete(s: string, i: nat, p: Piece, output: string)
    requires ValidPiece(p) && At(s, i, PieceText(p))
    ensures CharactersAt(s, i, output) == CharactersAt(s, i + |PieceText(p)|, output + PieceMeaning(p))
  {
    hide HexValue;
    hide CodeOf;
    hide Utf8;
    var t := PieceText(p);
    assert s[i..i + |t|][0] == t[0];
    assert |t| > 1 ==> s[i..i + |t|][1] == t[1];
    if p.Unicode? {
      AtJoin(s, i, "\\u", p.digits);
      HexComplete(s, i + 2, p.digits);
    } else if p.Short? {
      assert ShortMeaning('u').None?;
    }
  }

  lemma {:induction false} CharactersComplete(s: string, i: nat, pieces: seq<Piece>, output: string)
    requires ValidPieces(pieces) && At(s, i, PiecesText(pieces))
    ensures CharactersAt(s, i, output) == Done(output + PiecesMeaning(pieces), i + |PiecesText(pieces)|)
    decreases |pieces|
  {
    hide ValidPiece;
    hide PieceText;
    hide PieceMeaning;
    if pieces == [] {
      AtOne(s, i, '"');
      assert output + "" == output;
    } else {
      var head, tail := pieces[0], pieces[1..];
      AtJoin(s, i, PieceText(head), PiecesText(tail));
      PieceComplete(s, i, head, output);
      CharactersComplete(s, i + |PieceText(head)|, tail, output + PieceMeaning(head));
      assert output + PieceMeaning(head) + PiecesMeaning(tail) == output + PiecesMeaning(pieces);
    }
  }

  /** The piece a step inside a string reads. */
  lemma PieceSound(s: string, i: nat, output: string) returns (p: Piece)
    requires i <= |s| && CharactersAt(s, i, output).Done? && i < |s| && s[i] != '"'
    ensures ValidPiece(p) && At(s, i, PieceText(p))
    ensures CharactersAt(s, i, output) == CharactersAt(s, i + |PieceText(p)|, output + PieceMeaning(p))
  {
    hide HexValue;
    if s[i] != '\\' {
      p := Raw(s[i]);
      AtOne(s, i, s[i]);
    } else if s[i + 1] != 'u' {
      p := Short(s[i + 1]);
      assert s[i..i + 2] == ['\\', s[i + 1]];
    } else {
      HexSound(s, i + 2);
      p := Unicode(s[i + 2..i + 6]);
      assert s[i..i + 6] == "\\u" + s[i + 2..i + 6];
      HexComplete(s, i + 2, s[i + 2..i + 6]);
    }
  }

  lemma PiecesJoin(s: string, i: nat, head: Piece, tail: seq<Piece>, output: string)
    requires ValidPiece(head) && ValidPieces(tail)
    requires At(s, i, PieceText(head)) && At(s, i + |PieceText(head)|, PiecesText(tail))
    ensures ValidPieces([head] + tail)
    ensures PiecesText([head] + tail) == PieceText(head) + PiecesText(tail)
    ensures At(s, i, PiecesText([head] + tail))
    ensures output + PiecesMeaning([head] + tail) == output + PieceMeaning(head) + PiecesMeaning(tail)
  {
    hide ValidPiece;
    hide PieceText;
    hide PieceMeaning;
    hide At;
    var pieces := [head] + tail;
    assert pieces[0] == head && pieces[1..] == tail;
    AtJoin(s, i, PieceText(head), PiecesText(tail));
    assert PiecesMeaning(pieces) == PieceMeaning(head) + PiecesMeaning(tail);
    assert output + (PieceMeaning(head) + PiecesMeaning(tail)) == output + PieceMeaning(head) + PiecesMeaning(tail);
  }

  lemma {:induction false} CharactersSound(s: string, i: nat, output: string) returns (pieces: seq<Piece>)
    requires i <= |s| && CharactersAt(s, i, output).Done?
    ensures ValidPieces(pieces) && At(s, i, PiecesText(pieces))
    ensures CharactersAt(s, i, output) == Done(output + PiecesMeaning(pieces), i + |PiecesText(pieces)|)
    decreases |s| - i
  {
    if s[i] == '"' {
      pieces := [];
      AtOne(s, i, '"');
      assert output + "" == output;
    } else {
      hide *;
      var head := PieceSound(s, i, output);
      AtWithin(s, i, PieceText(head));
      var tail := CharactersSound(s, i + |PieceText(head)|, output + PieceMeaning(head));
      PiecesJoin(s, i, head, tail, output);
      pieces := [head] + tail;
    }
  }

  lemma AtWithin(s: string, i: nat, t: string)
    requires At(s, i, t)
    ensures i + |t| <= |s|
  {
  }
}
