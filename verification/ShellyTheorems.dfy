/** The recogniser accepts exactly the texts of the grammar whose raw "output" keys are unambiguous. */
module ShellyTheorems {
  import opened Bytes
  import opened Common
  import opened ShellyGrammar
  import opened ShellyParser

  // ----- White space and digits -----

  lemma {:induction false} SpacesSkipped(text: Text, at: nat, w: seq<byte>)
    requires Spaces(w) && Holds(text, at, w)
    requires !IsSpace(CharAt(text, at + |w|))
    ensures SkipSpaces(text, at) == at + |w|
    decreases |w|
  {
    if w != [] {
      HoldsAt(text, at, w, 0);
      HoldsSplit(text, at, w[..1], w[1..]) by { assert w == w[..1] + w[1..]; }
      SpacesSkipped(text, at + 1, w[1..]);
    }
  }

  /** The run of white space at a position. */
  lemma {:induction false} SpacesFound(text: Text, at: nat) returns (w: seq<byte>)
    requires at <= |text|
    ensures Spaces(w) && Holds(text, at, w) && SkipSpaces(text, at) == at + |w|
    ensures !IsSpace(CharAt(text, at + |w|))
    decreases |text| - at
  {
    if at < |text| && IsSpace(text[at]) {
      var rest := SpacesFound(text, at + 1);
      w := [text[at]] + rest;
      HoldsJoin(text, at, [text[at]], rest);
    } else {
      w := [];
    }
  }

  lemma {:induction false} DigitsSkipped(text: Text, at: nat, d: seq<byte>)
    requires (forall i | 0 <= i < |d| :: IsDigit(d[i])) && Holds(text, at, d)
    requires !IsDigit(CharAt(text, at + |d|))
    ensures SkipDigits(text, at) == at + |d|
    decreases |d|
  {
    if d != [] {
      HoldsAt(text, at, d, 0);
      HoldsSplit(text, at, d[..1], d[1..]) by { assert d == d[..1] + d[1..]; }
      DigitsSkipped(text, at + 1, d[1..]);
    }
  }

  lemma {:induction false} DigitsFound(text: Text, at: nat) returns (d: seq<byte>)
    requires at <= |text|
    ensures (forall i | 0 <= i < |d| :: IsDigit(d[i])) && Holds(text, at, d) && SkipDigits(text, at) == at + |d|
    decreases |text| - at
  {
    if at < |text| && IsDigit(text[at]) {
      var rest := DigitsFound(text, at + 1);
      d := [text[at]] + rest;
      HoldsJoin(text, at, [text[at]], rest);
    } else {
      d := [];
    }
  }

  // ----- Strings -----

  lemma UnitRead(text: Text, at: nat, u: Unit)
    requires ValidUnit(u) && Holds(text, at, RenderUnit(u))
    ensures at < |text| && text[at] != QUOTE && UnitLength(text, at) == Some(|RenderUnit(u)|)
  {
    var bytes := RenderUnit(u);
    forall i | 0 <= i < |bytes| ensures text[at + i] == bytes[i] {
      HoldsAt(text, at, bytes, i);
    }
    assert text[at] == bytes[0];
    if !u.Plain? { assert text[at + 1] == bytes[1]; }
    if u.Unicode? {
      assert text[at + 2] == bytes[2] && text[at + 3] == bytes[3] && text[at + 4] == bytes[4] && text[at + 5] == bytes[5];
    }
  }

  lemma UnitFound(text: Text, at: nat) returns (u: Unit)
    requires at < |text| && text[at] != QUOTE && UnitLength(text, at).Some?
    ensures ValidUnit(u) && Holds(text, at, RenderUnit(u)) && UnitLength(text, at) == Some(|RenderUnit(u)|)
  {
    if text[at] != BACKSLASH {
      u := Plain(text[at]);
    } else if CharAt(text, at + 1) == 0x75 {
      u := Unicode(text[at + 2], text[at + 3], text[at + 4], text[at + 5]);
    } else {
      u := Escaped(text[at + 1]);
    }
    assert text[at..at + |RenderUnit(u)|] == RenderUnit(u);
  }

  lemma {:induction false} StringRead(text: Text, at: nat, units: seq<Unit>, count: nat)
    requires ValidUnits(units) && Holds(text, at, RenderUnits(units) + [QUOTE])
    ensures StringRest(text, at, count) == Some(StringEnd(at + |RenderUnits(units)| + 1, count + |units|))
    decreases |units|
  {
    hide UnitLength, RenderUnit, ValidUnit;
    if units == [] {
      HoldsAt(text, at, RenderUnits(units) + [QUOTE], 0);
    } else {
      var first, rest := RenderUnit(units[0]), RenderUnits(units[1..]) + [QUOTE];
      assert RenderUnits(units) + [QUOTE] == first + rest;
      HoldsSplit(text, at, first, rest);
      UnitRead(text, at, units[0]);
      StringRead(text, at + |first|, units[1..], count + 1);
    }
  }

  lemma {:induction false} StringFound(text: Text, at: nat, count: nat) returns (units: seq<Unit>)
    requires at <= |text| && StringRest(text, at, count).Some?
    ensures ValidUnits(units) && Holds(text, at, RenderUnits(units) + [QUOTE])
    ensures StringRest(text, at, count) == Some(StringEnd(at + |RenderUnits(units)| + 1, count + |units|))
    decreases |text| - at
  {
    hide UnitLength, RenderUnit, ValidUnit;
    if text[at] == QUOTE {
      units := [];
      assert text[at..at + 1] == [QUOTE];
      assert RenderUnits(units) + [QUOTE] == [QUOTE];
    } else {
      var u := UnitFound(text, at);
      var rest := StringFound(text, at + |RenderUnit(u)|, count + 1);
      units := [u] + rest;
      assert units[1..] == rest;
      HoldsJoin(text, at, RenderUnit(u), RenderUnits(rest) + [QUOTE]);
      assert RenderUnits(units) + [QUOTE] == RenderUnit(u) + (RenderUnits(rest) + [QUOTE]);
    }
  }

  lemma ParseStringRead(text: Text, at: nat, units: seq<Unit>)
    requires ValidUnits(units) && Holds(text, at, RenderString(units))
    ensures ParseString(text, at) == Some(StringEnd(at + |RenderString(units)|, |units|))
  {
    HoldsAt(text, at, RenderString(units), 0);
    assert RenderString(units) == [QUOTE] + (RenderUnits(units) + [QUOTE]);
    HoldsSplit(text, at, [QUOTE], RenderUnits(units) + [QUOTE]);
    StringRead(text, at + 1, units, 0);
  }

  lemma ParseStringFound(text: Text, at: nat) returns (units: seq<Unit>)
    requires at <= |text| && ParseString(text, at).Some?
    ensures ValidUnits(units) && Holds(text, at, RenderString(units))
    ensures ParseString(text, at) == Some(StringEnd(at + |RenderString(units)|, |units|))
  {
    hide StringRest, RenderUnits, ValidUnits;
    units := StringFound(text, at + 1, 0);
    HoldsJoin(text, at, [QUOTE], RenderUnits(units) + [QUOTE]);
    assert RenderString(units) == [QUOTE] + (RenderUnits(units) + [QUOTE]);
  }

  predicate NoEscapes(raw: seq<byte>) {
    forall i | 0 <= i < |raw| :: raw[i] != BACKSLASH
  }

  /** Counting units while comparing raw bytes still compares the whole raw key. */
  lemma KeyComparison(text: Text, at: nat, units: seq<Unit>, expected: seq<byte>)
    requires ValidUnits(units) && Holds(text, at, RenderString(units)) && NoEscapes(expected)
    ensures KeyIs(text, at + 1, |units|, expected) <==> RenderUnits(units) == expected
  {
    hide RenderUnits, ValidUnits;
    var raw := RenderUnits(units);
    assert RenderString(units) == [QUOTE] + (raw + [QUOTE]);
    HoldsSplit(text, at, [QUOTE], raw + [QUOTE]);
    HoldsSplit(text, at + 1, raw, [QUOTE]);
    UnitsAtLeast(units);
    if |units| == |expected| {
      assert text[at + 1..at + 1 + |expected|] == text[at + 1..at + 1 + |raw|][..|expected|];
      if raw[..|expected|] == expected {
        PlainPrefix(units);
        assert raw[..|expected|] == raw;
      }
    }
    if raw == expected {
      PlainUnits(units);
    }
  }

  lemma {:induction false} UnitsAtLeast(units: seq<Unit>)
    ensures |RenderUnits(units)| >= |units|
    decreases |units|
  {
    if units != [] { UnitsAtLeast(units[1..]); }
  }

  /** Without a reverse solidus among the first bytes, each of them is a unit of its own. */
  lemma {:induction false} PlainPrefix(units: seq<Unit>)
    requires |RenderUnits(units)| >= |units| && NoEscapes(RenderUnits(units)[..|units|])
    ensures |RenderUnits(units)| == |units|
    decreases |units|
  {
    if units != [] {
      var raw, rest := RenderUnits(units), RenderUnits(units[1..]);
      assert raw[0] == RenderUnit(units[0])[0] == raw[..|units|][0];
      assert units[0].Plain?;
      forall i | 0 <= i < |units| - 1 ensures rest[i] != BACKSLASH {
        assert rest[i] == raw[i + 1] == raw[..|units|][i + 1];
      }
      PlainPrefix(units[1..]);
    }
  }

  lemma {:induction false} PlainUnits(units: seq<Unit>)
    requires NoEscapes(RenderUnits(units))
    ensures |RenderUnits(units)| == |units|
    decreases |units|
  {
    UnitsAtLeast(units);
    PlainPrefix(units);
  }

  // ----- Numbers -----

  /** What may stand right after a value: white space, a separator, a closing bracket or the end. */
  predicate Follows(text: Text, at: nat)
    requires at <= |text|
  {
    at == |text| || IsSpace(text[at]) || text[at] == COMMA || text[at] == CLOSE_BRACKET || text[at] == CLOSE_BRACE
  }

  lemma IntegerRead(text: Text, at: nat, n: seq<byte>)
    requires (n == [ZERO] || (Digits(n) && n[0] != ZERO)) && Holds(text, at, n)
    requires n != [ZERO] ==> !IsDigit(CharAt(text, at + |n|))
    ensures SkipInteger(text, at) == Some(at + |n|)
  {
    HoldsAt(text, at, n, 0);
    if n != [ZERO] {
      HoldsSplit(text, at, n[..1], n[1..]) by { assert n == n[..1] + n[1..]; }
      DigitsSkipped(text, at + 1, n[1..]);
    }
  }

  lemma FractionRead(text: Text, at: nat, f: Option<seq<byte>>)
    requires (f.Some? ==> Digits(f.value)) && Holds(text, at, RenderFraction(f))
    requires var next := CharAt(text, at + |RenderFraction(f)|); !IsDigit(next) && next != POINT
    ensures SkipFraction(text, at) == Some(at + |RenderFraction(f)|)
  {
    if f.Some? {
      HoldsAt(text, at, RenderFraction(f), 0);
      HoldsAt(text, at, RenderFraction(f), 1);
      var d := f.value;
      HoldsSplit(text, at, [POINT], d);
      HoldsSplit(text, at + 1, d[..1], d[1..]) by { assert d == d[..1] + d[1..]; }
      DigitsSkipped(text, at + 2, d[1..]);
    }
  }

  predicate ValidExponent(e: Option<Exponent>) {
    e.Some? ==>
      && IsExponentLetter(e.value.letter)
      && (e.value.sign.Some? ==> e.value.sign.value == PLUS || e.value.sign.value == MINUS)
      && Digits(e.value.digits)
  }

  /** A run of digits, read as its first digit and the rest. */
  lemma DigitsRead(text: Text, at: nat, d: seq<byte>)
    requires Digits(d) && Holds(text, at, d) && !IsDigit(CharAt(text, at + |d|))
    ensures at < |text| && IsDigit(text[at]) && SkipDigits(text, at + 1) == at + |d|
  {
    HoldsAt(text, at, d, 0);
    HoldsSplit(text, at, d[..1], d[1..]) by { assert d == d[..1] + d[1..]; }
    DigitsSkipped(text, at + 1, d[1..]);
  }

  lemma SignRead(text: Text, at: nat, sign: Option<byte>)
    requires sign.Some? ==> sign.value == PLUS || sign.value == MINUS
    requires Holds(text, at, RenderSign(sign)) && IsDigit(CharAt(text, at + |RenderSign(sign)|))
    ensures SkipSign(text, at) == at + |RenderSign(sign)|
  {
    if sign.Some? { HoldsAt(text, at, RenderSign(sign), 0); }
  }

  lemma ExponentRead(text: Text, at: nat, e: Option<Exponent>)
    requires ValidExponent(e) && Holds(text, at, RenderExponent(e)) && Follows(text, at + |RenderExponent(e)|)
    ensures SkipExponent(text, at) == Some(at + |RenderExponent(e)|)
  {
    hide SkipDigits, SkipSign, RenderSign, Digits;
    if e.Some? {
      var sign, d := RenderSign(e.value.sign), e.value.digits;
      HoldsAt(text, at, RenderExponent(e), 0);
      HoldsSplit(text, at, [e.value.letter], sign + d);
      HoldsSplit(text, at + 1, sign, d);
      DigitsRead(text, at + 1 + |sign|, d);
      SignRead(text, at + 1, e.value.sign);
    }
  }

  lemma ExponentStart(text: Text, at: nat, e: Option<Exponent>)
    requires ValidExponent(e) && Holds(text, at, RenderExponent(e)) && Follows(text, at + |RenderExponent(e)|)
    ensures var c := CharAt(text, at); !IsDigit(c) && c != POINT
  {
    if e.Some? { HoldsAt(text, at, RenderExponent(e), 0); }
  }

  lemma FractionStart(text: Text, at: nat, f: Option<seq<byte>>)
    requires Holds(text, at, RenderFraction(f))
    requires var next := CharAt(text, at + |RenderFraction(f)|); !IsDigit(next) && next != POINT
    ensures !IsDigit(CharAt(text, at))
  {
    if f.Some? { HoldsAt(text, at, RenderFraction(f), 0); }
  }

  lemma NumberRead(text: Text, at: nat, n: Number)
    requires ValidNumber(n) && Holds(text, at, RenderNumber(n)) && Follows(text, at + |RenderNumber(n)|)
    ensures SkipNumber(text, at) == Some(at + |RenderNumber(n)|)
    ensures var c := CharAt(text, at); c == MINUS || IsDigit(c)
  {
    hide RenderFraction, RenderExponent, SkipInteger, SkipFraction, SkipExponent, Holds;
    var sign := if n.negative then [MINUS] else [];
    var fraction, exponent := RenderFraction(n.fraction), RenderExponent(n.exponent);
    HoldsFour(text, at, sign, n.integer, fraction, exponent);
    if n.negative { HoldsAt(text, at, sign, 0); }
    HoldsAt(text, at + |sign|, n.integer, 0);
    var afterInteger := at + |sign| + |n.integer|;
    var afterFraction := afterInteger + |fraction|;
    HoldsWithin(text, afterFraction, exponent);
    ExponentStart(text, afterFraction, n.exponent);
    HoldsWithin(text, afterInteger, fraction);
    FractionStart(text, afterInteger, n.fraction);
    IntegerRead(text, at + |sign|, n.integer);
    FractionRead(text, afterInteger, n.fraction);
    ExponentRead(text, afterFraction, n.exponent);
  }

  lemma HoldsWithin(text: Text, at: nat, part: seq<byte>)
    requires Holds(text, at, part)
    ensures at + |part| <= |text|
  {
  }

  lemma IntegerFound(text: Text, at: nat) returns (n: seq<byte>)
    requires at <= |text| && SkipInteger(text, at).Some?
    ensures (n == [ZERO] || (Digits(n) && n[0] != ZERO)) && Holds(text, at, n)
    ensures SkipInteger(text, at) == Some(at + |n|)
  {
    if CharAt(text, at) == ZERO {
      n := [ZERO];
    } else {
      var d := DigitsFound(text, at + 1);
      n := [text[at]] + d;
      HoldsJoin(text, at, [text[at]], d);
    }
  }

  lemma FractionFound(text: Text, at: nat) returns (f: Option<seq<byte>>)
    requires at <= |text| && SkipFraction(text, at).Some?
    ensures (f.Some? ==> Digits(f.value)) && Holds(text, at, RenderFraction(f))
    ensures SkipFraction(text, at) == Some(at + |RenderFraction(f)|)
  {
    if CharAt(text, at) != POINT {
      f := None;
    } else {
      var d := DigitsFound(text, at + 2);
      f := Some([text[at + 1]] + d);
      HoldsJoin(text, at + 1, [text[at + 1]], d);
      HoldsJoin(text, at, [POINT], f.value);
    }
  }

  lemma SignFound(text: Text, at: nat) returns (sign: Option<byte>)
    requires at <= |text|
    ensures sign.Some? ==> sign.value == PLUS || sign.value == MINUS
    ensures Holds(text, at, RenderSign(sign)) && SkipSign(text, at) == at + |RenderSign(sign)|
  {
    var c := CharAt(text, at);
    sign := if c == PLUS || c == MINUS then Some(c) else None;
  }

  lemma FirstDigitsFound(text: Text, at: nat) returns (d: seq<byte>)
    requires at < |text| && IsDigit(text[at])
    ensures Digits(d) && Holds(text, at, d) && SkipDigits(text, at + 1) == at + |d|
  {
    var rest := DigitsFound(text, at + 1);
    d := [text[at]] + rest;
    HoldsJoin(text, at, [text[at]], rest);
  }

  lemma ExponentFound(text: Text, at: nat) returns (e: Option<Exponent>)
    requires at <= |text| && SkipExponent(text, at).Some?
    ensures ValidExponent(e) && Holds(text, at, RenderExponent(e))
    ensures SkipExponent(text, at) == Some(at + |RenderExponent(e)|)
  {
    hide SkipDigits, SkipSign, RenderSign, Digits;
    if !IsExponentLetter(CharAt(text, at)) {
      e := None;
    } else {
      var sign := SignFound(text, at + 1);
      var digits := FirstDigitsFound(text, at + 1 + |RenderSign(sign)|);
      e := Some(Exponent(text[at], sign, digits));
      assert Holds(text, at, [text[at]]);
      HoldsJoin(text, at + 1, RenderSign(sign), digits);
      HoldsJoin(text, at, [text[at]], RenderSign(sign) + digits);
    }
  }

  lemma NumberFound(text: Text, at: nat) returns (n: Number)
    requires at <= |text| && SkipNumber(text, at).Some?
    ensures ValidNumber(n) && Holds(text, at, RenderNumber(n))
    ensures SkipNumber(text, at) == Some(at + |RenderNumber(n)|)
  {
    hide RenderFraction, RenderExponent, SkipInteger, SkipFraction, SkipExponent;
    var negative := CharAt(text, at) == MINUS;
    var sign := if negative then [MINUS] else [];
    var integer := IntegerFound(text, at + |sign|);
    var fraction := FractionFound(text, at + |sign| + |integer|);
    var exponent := ExponentFound(text, at + |sign| + |integer| + |RenderFraction(fraction)|);
    n := Number(negative, integer, fraction, exponent);
    assert Holds(text, at, sign);
    HoldsJoin(text, at, sign, integer);
    HoldsJoin(text, at, sign + integer, RenderFraction(fraction));
    HoldsJoin(text, at, sign + integer + RenderFraction(fraction), RenderExponent(exponent));
  }
}
