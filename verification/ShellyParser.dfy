/** The recursive-descent recogniser of Shelly responses. Positions never pass the terminator at `|text|`. */
module ShellyParser {
  import opened Bytes
  import opened Common
  import opened ShellyGrammar

  /** The character at a position; the terminator is the last one that may be read. */
  function CharAt(text: Text, at: nat): byte
    requires at <= |text|
  {
    if at < |text| then text[at] else 0
  }

  predicate StartsWith(text: Text, at: nat, word: seq<byte>) {
    at + |word| <= |text| && text[at..at + |word|] == word
  }

  // ----- What each recogniser computes -----

  function SkipSpaces(text: Text, at: nat): (next: nat)
    requires at <= |text|
    ensures at <= next <= |text|
    decreases |text| - at
  {
    if at < |text| && IsSpace(text[at]) then SkipSpaces(text, at + 1) else at
  }

  function SkipDigits(text: Text, at: nat): (next: nat)
    requires at <= |text|
    ensures at <= next <= |text|
    decreases |text| - at
  {
    if at < |text| && IsDigit(text[at]) then SkipDigits(text, at + 1) else at
  }

  predicate FourHex(text: Text, at: nat)
    requires at <= |text|
  {
    && IsHex(CharAt(text, at))
    && IsHex(CharAt(text, at + 1))
    && IsHex(CharAt(text, at + 2))
    && IsHex(CharAt(text, at + 3))
  }

  /** The length in bytes of the unit at a position inside a string, if there is one. */
  function UnitLength(text: Text, at: nat): Option<nat>
    requires at < |text|
  {
    if text[at] < 0x20 || text[at] == QUOTE then None
    else if text[at] != BACKSLASH then Some(1)
    else if CharAt(text, at + 1) == 0x75 then if FourHex(text, at + 2) then Some(6) else None
    else if IsEscape(CharAt(text, at + 1)) then Some(2)
    else None
  }

  datatype StringEnd = StringEnd(next: nat, count: nat)

  /** From a position inside a string: the position after the closing quote, and the number of units passed. */
  function StringRest(text: Text, at: nat, count: nat): (end: Option<StringEnd>)
    requires at <= |text|
    ensures end.Some? ==> at < end.value.next <= |text| && count <= end.value.count
    decreases |text| - at
  {
    if at == |text| then None
    else if text[at] == QUOTE then Some(StringEnd(at + 1, count))
    else
      match UnitLength(text, at)
      case None => None
      case Some(length) => StringRest(text, at + length, count + 1)
  }

  function ParseString(text: Text, at: nat): (end: Option<StringEnd>)
    requires at <= |text|
    ensures end.Some? ==> at + 1 < end.value.next <= |text|
  {
    if CharAt(text, at) != QUOTE then None else StringRest(text, at + 1, 0)
  }

  function SkipInteger(text: Text, at: nat): (next: Option<nat>)
    requires at <= |text|
    ensures next.Some? ==> at < next.value <= |text|
  {
    if CharAt(text, at) == ZERO then Some(at + 1)
    else if IsDigit(CharAt(text, at)) then Some(SkipDigits(text, at + 1))
    else None
  }

  function SkipFraction(text: Text, at: nat): (next: Option<nat>)
    requires at <= |text|
    ensures next.Some? ==> at <= next.value <= |text|
  {
    if CharAt(text, at) != POINT then Some(at)
    else if IsDigit(CharAt(text, at + 1)) then Some(SkipDigits(text, at + 2))
    else None
  }

  function SkipSign(text: Text, at: nat): (next: nat)
    requires at <= |text|
    ensures at <= next <= |text|
  {
    if CharAt(text, at) == PLUS || CharAt(text, at) == MINUS then at + 1 else at
  }

  function SkipExponent(text: Text, at: nat): (next: Option<nat>)
    requires at <= |text|
    ensures next.Some? ==> at <= next.value <= |text|
  {
    if !IsExponentLetter(CharAt(text, at)) then Some(at)
    else
      var digits := SkipSign(text, at + 1);
      if IsDigit(CharAt(text, digits)) then Some(SkipDigits(text, digits + 1)) else None
  }

  function SkipNumber(text: Text, at: nat): (next: Option<nat>)
    requires at <= |text|
    ensures next.Some? ==> at < next.value <= |text|
  {
    var integer := if CharAt(text, at) == MINUS then at + 1 else at;
    match SkipInteger(text, integer)
    case None => None
    case Some(fraction) =>
      match SkipFraction(text, fraction)
      case None => None
      case Some(exponent) => SkipExponent(text, exponent)
  }

  function SkipValue(text: Text, at: nat): (next: Option<nat>)
    requires at <= |text|
    ensures next.Some? ==> at < next.value <= |text|
    decreases |text| - at, 0
  {
    var value := SkipSpaces(text, at);
    if CharAt(text, value) == QUOTE then
      match ParseString(text, value)
      case None => None
      case Some(end) => Some(end.next)
    else if CharAt(text, value) == OPEN_BRACE then
      var first := SkipSpaces(text, value + 1);
      if CharAt(text, first) == CLOSE_BRACE then Some(first + 1) else SkipMembers(text, first)
    else if CharAt(text, value) == OPEN_BRACKET then
      var first := SkipSpaces(text, value + 1);
      if CharAt(text, first) == CLOSE_BRACKET then Some(first + 1) else SkipItems(text, first)
    else if StartsWith(text, value, TRUE_TEXT) then Some(value + 4)
    else if StartsWith(text, value, FALSE_TEXT) then Some(value + 5)
    else if StartsWith(text, value, NULL_TEXT) then Some(value + 4)
    else SkipNumber(text, value)
  }

  /** The loop of an array from one of its values on. */
  function SkipItems(text: Text, at: nat): (next: Option<nat>)
    requires at <= |text|
    ensures next.Some? ==> at < next.value <= |text|
    decreases |text| - at, 1
  {
    match SkipValue(text, at)
    case None => None
    case Some(end) =>
      var after := SkipSpaces(text, end);
      if CharAt(text, after) == CLOSE_BRACKET then Some(after + 1)
      else if CharAt(text, after) != COMMA then None
      else SkipItems(text, SkipSpaces(text, after + 1))
  }

  /** A key and the colon after it: the position of the value. */
  function SkipKey(text: Text, at: nat): (next: Option<nat>)
    requires at <= |text|
    ensures next.Some? ==> at + 1 < next.value <= |text|
  {
    match ParseString(text, at)
    case None => None
    case Some(end) =>
      var colon := SkipSpaces(text, end.next);
      if CharAt(text, colon) != COLON then None else Some(colon + 1)
  }

  /** The loop of an object from one of its keys on. */
  function SkipMembers(text: Text, at: nat): (next: Option<nat>)
    requires at <= |text|
    ensures next.Some? ==> at < next.value <= |text|
    decreases |text| - at, 1
  {
    match SkipKey(text, at)
    case None => None
    case Some(value) =>
      match SkipValue(text, value)
      case None => None
      case Some(end) =>
        var after := SkipSpaces(text, end);
        if CharAt(text, after) == CLOSE_BRACE then Some(after + 1)
        else if CharAt(text, after) != COMMA then None
        else SkipMembers(text, SkipSpaces(text, after + 1))
  }

  /** `count` is in units, but the comparison looks at raw bytes. */
  predicate KeyIs(text: Text, content: nat, count: nat, expected: seq<byte>) {
    count == |expected| && StartsWith(text, content, expected)
  }

  function ReadBoolean(text: Text, at: nat): Option<(bool, nat)> {
    if StartsWith(text, at, TRUE_TEXT) then Some((true, at + 4))
    else if StartsWith(text, at, FALSE_TEXT) then Some((false, at + 5))
    else None
  }

  /** One member of a response: the position after its value, and the response with what the member says. */
  function ReadMember(text: Text, at: nat, response: Response): (result: Option<(nat, Response)>)
    requires at <= |text|
    ensures result.Some? ==> at < result.value.0 <= |text|
  {
    match ParseString(text, at)
    case None => None
    case Some(key) =>
      var colon := SkipSpaces(text, key.next);
      if CharAt(text, colon) != COLON then None
      else
        var value := SkipSpaces(text, colon + 1);
        if KeyIs(text, at + 1, key.count, OUTPUT_KEY) then
          if response.hasOutput then None
          else
            match ReadBoolean(text, value)
            case None => None
            case Some(read) => Some((read.1, response.(hasOutput := true, output := read.0)))
        else
          match SkipValue(text, value)
          case None => None
          case Some(end) =>
            Some((end, if KeyIs(text, at + 1, key.count, ERROR_KEY) then response.(hasError := true) else response))
  }

  function ReadMembers(text: Text, at: nat, response: Response): Option<Response>
    requires at <= |text|
    decreases |text| - at
  {
    match ReadMember(text, at, response)
    case None => None
    case Some(read) =>
      var after := SkipSpaces(text, read.0);
      if CharAt(text, after) == CLOSE_BRACE then
        if SkipSpaces(text, after + 1) == |text| then Some(read.1) else None
      else if CharAt(text, after) != COMMA then None
      else ReadMembers(text, SkipSpaces(text, after + 1), read.1)
  }

  function ParseResponse(text: Text): Option<Response> {
    var value := SkipSpaces(text, 0);
    if CharAt(text, value) != OPEN_BRACE then None
    else
      var first := SkipSpaces(text, value + 1);
      if CharAt(text, first) == CLOSE_BRACE then
        if SkipSpaces(text, first + 1) == |text| then Some(Response(false, false, false)) else None
      else ReadMembers(text, first, Response(false, false, false))
  }
}
