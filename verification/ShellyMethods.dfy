/** The cursor loops of the recogniser, proved to compute the functions of `ShellyParser`. */
module ShellyMethods {
  import opened Common
  import opened ShellyGrammar
  import opened ShellyParser

  method SkipWhitespace(text: Text, cursor: nat) returns (next: nat)
    requires cursor <= |text|
    ensures next == SkipSpaces(text, cursor)
  {
    next := cursor;
    while next < |text| && IsSpace(CharAt(text, next))
      invariant next <= |text| && SkipSpaces(text, next) == SkipSpaces(text, cursor)
    {
      next := next + 1;
    }
  }

  /** The `do ... while (isdigit)` loops, after their first digit. */
  method SkipMoreDigits(text: Text, cursor: nat) returns (next: nat)
    requires cursor <= |text|
    ensures next == SkipDigits(text, cursor)
  {
    next := cursor;
    while IsDigit(CharAt(text, next))
      invariant next <= |text| && SkipDigits(text, next) == SkipDigits(text, cursor)
      decreases |text| - next
    {
      next := next + 1;
    }
  }

  /** After `\u`: the four characters must be hexadecimal; reading stops at the first that is not. */
  method SkipHex(text: Text, cursor: nat) returns (ok: bool)
    requires cursor <= |text|
    ensures ok == FourHex(text, cursor)
  {
    var value := cursor;
    for index := 0 to 4
      invariant value == cursor + index <= |text|
      invariant index >= 1 ==> IsHex(CharAt(text, cursor))
      invariant index >= 2 ==> IsHex(CharAt(text, cursor + 1))
      invariant index >= 3 ==> IsHex(CharAt(text, cursor + 2))
      invariant index >= 4 ==> IsHex(CharAt(text, cursor + 3))
    {
      if !IsHex(CharAt(text, value)) { return false; }
      value := value + 1;
    }
    ok := true;
  }

  method ReadString(text: Text, cursor: nat) returns (end: Option<StringEnd>)
    requires cursor <= |text|
    ensures end == ParseString(text, cursor)
  {
    if CharAt(text, cursor) != QUOTE { return None; }
    var value := cursor + 1;
    var count := 0;
    while value < |text| && CharAt(text, value) != QUOTE
      invariant value <= |text|
      invariant StringRest(text, value, count) == StringRest(text, cursor + 1, 0)
      decreases |text| - value
    {
      if CharAt(text, value) < 0x20 { return None; }
      if CharAt(text, value) == BACKSLASH {
        if CharAt(text, value + 1) == 0x75 {
          var ok := SkipHex(text, value + 2);
          if !ok { return None; }
          value := value + 6;
        } else if IsEscape(CharAt(text, value + 1)) {
          value := value + 2;
        } else {
          return None;
        }
      } else {
        value := value + 1;
      }
      count := count + 1;
    }
    if value == |text| { return None; }
    return Some(StringEnd(value + 1, count));
  }

  method SkipIntegerPart(text: Text, cursor: nat) returns (next: Option<nat>)
    requires cursor <= |text|
    ensures next == SkipInteger(text, cursor)
  {
    if CharAt(text, cursor) == ZERO { return Some(cursor + 1); }
    if !IsDigit(CharAt(text, cursor)) { return None; }
    var value := SkipMoreDigits(text, cursor + 1);
    return Some(value);
  }

  method SkipFractionPart(text: Text, cursor: nat) returns (next: Option<nat>)
    requires cursor <= |text|
    ensures next == SkipFraction(text, cursor)
  {
    if CharAt(text, cursor) != POINT { return Some(cursor); }
    if !IsDigit(CharAt(text, cursor + 1)) { return None; }
    var value := SkipMoreDigits(text, cursor + 2);
    return Some(value);
  }

  method SkipExponentPart(text: Text, cursor: nat) returns (next: Option<nat>)
    requires cursor <= |text|
    ensures next == SkipExponent(text, cursor)
  {
    if !IsExponentLetter(CharAt(text, cursor)) { return Some(cursor); }
    var value := cursor + 1;
    if CharAt(text, value) == PLUS || CharAt(text, value) == MINUS { value := value + 1; }
    if !IsDigit(CharAt(text, value)) { return None; }
    value := SkipMoreDigits(text, value + 1);
    return Some(value);
  }

  method SkipJsonNumber(text: Text, cursor: nat) returns (next: Option<nat>)
    requires cursor <= |text|
    ensures next == SkipNumber(text, cursor)
  {
    hide SkipInteger, SkipFraction, SkipExponent;
    var value := cursor;
    if CharAt(text, value) == MINUS { value := value + 1; }
    next := SkipIntegerPart(text, value);
    if next.None? { return; }
    next := SkipFractionPart(text, next.value);
    if next.None? { return; }
    next := SkipExponentPart(text, next.value);
  }

  /** The recursion ends because every nested value starts after its bracket. */
  method SkipJsonValue(text: Text, cursor: nat) returns (next: Option<nat>)
    requires cursor <= |text|
    ensures next == SkipValue(text, cursor)
    decreases |text| - cursor, 0
  {
    hide SkipSpaces, ParseString, SkipNumber;
    var value := SkipWhitespace(text, cursor);
    if CharAt(text, value) == QUOTE {
      var end := ReadString(text, value);
      if end.None? { return None; }
      return Some(end.value.next);
    } else if CharAt(text, value) == OPEN_BRACE {
      next := SkipJsonObject(text, value + 1);
    } else if CharAt(text, value) == OPEN_BRACKET {
      next := SkipJsonArray(text, value + 1);
    } else if StartsWith(text, value, TRUE_TEXT) {
      return Some(value + 4);
    } else if StartsWith(text, value, FALSE_TEXT) {
      return Some(value + 5);
    } else if StartsWith(text, value, NULL_TEXT) {
      return Some(value + 4);
    } else {
      next := SkipJsonNumber(text, value);
    }
  }

  /** An array, from behind its opening bracket. */
  method SkipJsonArray(text: Text, cursor: nat) returns (next: Option<nat>)
    requires cursor <= |text|
    ensures var first := SkipSpaces(text, cursor);
            next == if CharAt(text, first) == CLOSE_BRACKET then Some(first + 1) else SkipItems(text, first)
    decreases |text| - cursor, 2
  {
    hide SkipSpaces, ParseString, SkipValue, SkipMembers;
    var value := SkipWhitespace(text, cursor);
    if CharAt(text, value) == CLOSE_BRACKET { return Some(value + 1); }
    ghost var first := value;
    while true
      invariant cursor <= value <= |text| && SkipItems(text, value) == SkipItems(text, first)
      decreases |text| - value
    {
      var end := SkipJsonValue(text, value);
      if end.None? { return None; }
      value := SkipWhitespace(text, end.value);
      if CharAt(text, value) == CLOSE_BRACKET { return Some(value + 1); }
      if CharAt(text, value) != COMMA { return None; }
      value := SkipWhitespace(text, value + 1);
    }
  }

  /** An object, from behind its opening brace. */
  method SkipJsonObject(text: Text, cursor: nat) returns (next: Option<nat>)
    requires cursor <= |text|
    ensures var first := SkipSpaces(text, cursor);
            next == if CharAt(text, first) == CLOSE_BRACE then Some(first + 1) else SkipMembers(text, first)
    decreases |text| - cursor, 2
  {
    hide SkipSpaces, ParseString, SkipValue, SkipItems;
    var value := SkipWhitespace(text, cursor);
    if CharAt(text, value) == CLOSE_BRACE { return Some(value + 1); }
    ghost var first := value;
    while true
      invariant cursor <= value <= |text| && SkipMembers(text, value) == SkipMembers(text, first)
      decreases |text| - value
    {
      var key := ReadString(text, value);
      if key.None? { return None; }
      value := SkipWhitespace(text, key.value.next);
      if CharAt(text, value) != COLON { return None; }
      var end := SkipJsonValue(text, value + 1);
      if end.None? { return None; }
      value := SkipWhitespace(text, end.value);
      if CharAt(text, value) == CLOSE_BRACE { return Some(value + 1); }
      if CharAt(text, value) != COMMA { return None; }
      value := SkipWhitespace(text, value + 1);
    }
  }

  method ReadResponseMember(text: Text, cursor: nat, before: Response) returns (result: Option<(nat, Response)>)
    requires cursor <= |text|
    ensures result == ReadMember(text, cursor, before)
  {
    hide SkipSpaces, ParseString, SkipValue;
    var response := before;
    var key := ReadString(text, cursor);
    if key.None? { return None; }
    var value := SkipWhitespace(text, key.value.next);
    if CharAt(text, value) != COLON { return None; }
    value := SkipWhitespace(text, value + 1);
    if KeyIs(text, cursor + 1, key.value.count, OUTPUT_KEY) {
      if response.hasOutput { return None; }
      if StartsWith(text, value, TRUE_TEXT) {
        response := response.(output := true);
        value := value + 4;
      } else if StartsWith(text, value, FALSE_TEXT) {
        response := response.(output := false);
        value := value + 5;
      } else {
        return None;
      }
      response := response.(hasOutput := true);
    } else {
      if KeyIs(text, cursor + 1, key.value.count, ERROR_KEY) { response := response.(hasError := true); }
      var end := SkipJsonValue(text, value);
      if end.None? { return None; }
      value := end.value;
    }
    return Some((value, response));
  }

  method ParseShellyResponse(text: Text) returns (result: Option<Response>)
    ensures result == ParseResponse(text)
  {
    hide SkipSpaces, ReadMember;
    var value := SkipWhitespace(text, 0);
    if CharAt(text, value) != OPEN_BRACE { return None; }
    var response := Response(false, false, false);
    value := SkipWhitespace(text, value + 1);
    if CharAt(text, value) == CLOSE_BRACE {
      var end := SkipWhitespace(text, value + 1);
      return if end == |text| then Some(response) else None;
    }
    ghost var first := value;
    while true
      invariant value <= |text|
      invariant ReadMembers(text, value, response) == ReadMembers(text, first, Response(false, false, false))
      decreases |text| - value
    {
      var read := ReadResponseMember(text, value, response);
      if read.None? { return None; }
      response := read.value.1;
      value := SkipWhitespace(text, read.value.0);
      if CharAt(text, value) == CLOSE_BRACE {
        var end := SkipWhitespace(text, value + 1);
        return if end == |text| then Some(response) else None;
      }
      if CharAt(text, value) != COMMA { return None; }
      value := SkipWhitespace(text, value + 1);
    }
  }
}
