/**
 The JSON texts of RFC 8259, sections 2 to 7, on bytes, as trees and the bytes they spell. White space is widened to
 the six characters of `isspace`.
 */
module ShellyGrammar {
  import opened Bytes
  import opened Common

  const QUOTE: byte := 0x22
  const BACKSLASH: byte := 0x5c
  const COMMA: byte := 0x2c
  const COLON: byte := 0x3a
  const OPEN_BRACKET: byte := 0x5b
  const CLOSE_BRACKET: byte := 0x5d
  const OPEN_BRACE: byte := 0x7b
  const CLOSE_BRACE: byte := 0x7d
  const MINUS: byte := 0x2d
  const PLUS: byte := 0x2b
  const POINT: byte := 0x2e
  const ZERO: byte := 0x30

  const TRUE_TEXT: seq<byte> := [0x74, 0x72, 0x75, 0x65]
  const FALSE_TEXT: seq<byte> := [0x66, 0x61, 0x6c, 0x73, 0x65]
  const NULL_TEXT: seq<byte> := [0x6e, 0x75, 0x6c, 0x6c]
  const OUTPUT_KEY: seq<byte> := [0x6f, 0x75, 0x74, 0x70, 0x75, 0x74]
  const ERROR_KEY: seq<byte> := [0x65, 0x72, 0x72, 0x6f, 0x72]

  predicate IsSpace(c: byte) {
    c == 0x20 || 0x09 <= c <= 0x0d
  }

  predicate IsDigit(c: byte) {
    0x30 <= c <= 0x39
  }

  predicate IsHex(c: byte) {
    IsDigit(c) || 0x41 <= c <= 0x46 || 0x61 <= c <= 0x66
  }

  /** The characters that may follow a reverse solidus, other than `u`. */
  predicate IsEscape(c: byte) {
    c == QUOTE || c == BACKSLASH || c == 0x2f || c == 0x62 || c == 0x66 || c == 0x6e || c == 0x72 || c == 0x74
  }

  predicate IsExponentLetter(c: byte) {
    c == 0x65 || c == 0x45
  }

  predicate Spaces(w: seq<byte>) {
    forall i | 0 <= i < |w| :: IsSpace(w[i])
  }

  predicate Digits(d: seq<byte>) {
    |d| > 0 && forall i | 0 <= i < |d| :: IsDigit(d[i])
  }

  // ----- Strings -----

  datatype Unit = Plain(c: byte) | Escaped(c: byte) | Unicode(h0: byte, h1: byte, h2: byte, h3: byte)

  predicate ValidUnit(u: Unit) {
    match u
    case Plain(c) => c >= 0x20 && c != QUOTE && c != BACKSLASH
    case Escaped(c) => IsEscape(c)
    case Unicode(h0, h1, h2, h3) => IsHex(h0) && IsHex(h1) && IsHex(h2) && IsHex(h3)
  }

  predicate ValidUnits(units: seq<Unit>) {
    forall i | 0 <= i < |units| :: ValidUnit(units[i])
  }

  function RenderUnit(u: Unit): (bytes: seq<byte>)
    ensures |bytes| > 0
  {
    match u
    case Plain(c) => [c]
    case Escaped(c) => [BACKSLASH, c]
    case Unicode(h0, h1, h2, h3) => [BACKSLASH, 0x75, h0, h1, h2, h3]
  }

  function RenderUnits(units: seq<Unit>): seq<byte> {
    if units == [] then [] else RenderUnit(units[0]) + RenderUnits(units[1..])
  }

  function RenderString(units: seq<Unit>): seq<byte> {
    [QUOTE] + RenderUnits(units) + [QUOTE]
  }

  // ----- Numbers -----

  datatype Exponent = Exponent(letter: byte, sign: Option<byte>, digits: seq<byte>)

  datatype Number = Number(negative: bool, integer: seq<byte>, fraction: Option<seq<byte>>, exponent: Option<Exponent>)

  predicate ValidNumber(n: Number) {
    && (n.integer == [ZERO] || (Digits(n.integer) && n.integer[0] != ZERO))
    && (n.fraction.Some? ==> Digits(n.fraction.value))
    && (n.exponent.Some? ==>
        && IsExponentLetter(n.exponent.value.letter)
        && (n.exponent.value.sign.Some? ==> n.exponent.value.sign.value == PLUS || n.exponent.value.sign.value == MINUS)
        && Digits(n.exponent.value.digits))
  }

  function RenderFraction(f: Option<seq<byte>>): seq<byte> {
    if f.Some? then [POINT] + f.value else []
  }

  function RenderSign(sign: Option<byte>): seq<byte> {
    if sign.Some? then [sign.value] else []
  }

  function RenderExponent(e: Option<Exponent>): seq<byte> {
    if e.None? then [] else [e.value.letter] + (RenderSign(e.value.sign) + e.value.digits)
  }

  function RenderNumber(n: Number): seq<byte> {
    (if n.negative then [MINUS] else []) + n.integer + RenderFraction(n.fraction) + RenderExponent(n.exponent)
  }

  // ----- Values -----

  datatype Json =
    | StringValue(units: seq<Unit>)
    | NumberValue(number: Number)
    | TrueValue
    | FalseValue
    | NullValue
    | EmptyArray(space: seq<byte>)
    | Array(items: Items)
    | EmptyObject(space: seq<byte>)
    | Object(members: Members)

  /** The items of an array; `before` and `after` are the white space around each value. */
  datatype Items =
    | LastItem(before: seq<byte>, value: Json, after: seq<byte>)
    | MoreItems(before: seq<byte>, value: Json, after: seq<byte>, rest: Items)

  datatype Members =
    | LastMember(before: seq<byte>, key: seq<Unit>, afterKey: seq<byte>, beforeValue: seq<byte>, value: Json, after: seq<byte>)
    | MoreMembers(before: seq<byte>, key: seq<Unit>, afterKey: seq<byte>, beforeValue: seq<byte>, value: Json, after: seq<byte>,
                  rest: Members)

  predicate ValidJson(v: Json) {
    match v
    case StringValue(units) => ValidUnits(units)
    case NumberValue(n) => ValidNumber(n)
    case TrueValue => true
    case FalseValue => true
    case NullValue => true
    case EmptyArray(space) => Spaces(space)
    case Array(items) => ValidItems(items)
    case EmptyObject(space) => Spaces(space)
    case Object(members) => ValidMembers(members)
  }

  predicate ValidItems(items: Items) {
    && Spaces(items.before) && ValidJson(items.value) && Spaces(items.after)
    && (items.MoreItems? ==> ValidItems(items.rest))
  }

  predicate ValidMembers(m: Members) {
    && Spaces(m.before) && ValidUnits(m.key) && Spaces(m.afterKey) && Spaces(m.beforeValue)
    && ValidJson(m.value) && Spaces(m.after)
    && (m.MoreMembers? ==> ValidMembers(m.rest))
  }

  function Render(v: Json): seq<byte>
    decreases v, 5
  {
    match v
    case StringValue(units) => RenderString(units)
    case NumberValue(n) => RenderNumber(n)
    case TrueValue => TRUE_TEXT
    case FalseValue => FALSE_TEXT
    case NullValue => NULL_TEXT
    case EmptyArray(space) => [OPEN_BRACKET] + (space + [CLOSE_BRACKET])
    case Array(items) => [OPEN_BRACKET] + RenderItems(items)
    case EmptyObject(space) => [OPEN_BRACE] + (space + [CLOSE_BRACE])
    case Object(members) => [OPEN_BRACE] + RenderMembers(members)
  }

  /** The items with the bracket that closes them. */
  function RenderItems(items: Items): seq<byte>
    decreases items, 2
  {
    items.before + FromItem(items)
  }

  function FromItem(items: Items): seq<byte>
    decreases items, 1
  {
    Render(items.value) + (items.after + ItemsTail(items))
  }

  function ItemsTail(items: Items): (tail: seq<byte>)
    ensures |tail| > 0 && tail[0] == if items.MoreItems? then COMMA else CLOSE_BRACKET
    decreases items, 0
  {
    if items.MoreItems? then [COMMA] + RenderItems(items.rest) else [CLOSE_BRACKET]
  }

  /** The members with the brace that closes them. */
  function RenderMembers(m: Members): seq<byte>
    decreases m, 4
  {
    m.before + FromKey(m)
  }

  function FromKey(m: Members): seq<byte>
    decreases m, 3
  {
    RenderString(m.key) + (m.afterKey + FromColon(m))
  }

  function FromColon(m: Members): seq<byte>
    decreases m, 2
  {
    [COLON] + (m.beforeValue + FromValue(m))
  }

  function FromValue(m: Members): seq<byte>
    decreases m, 1
  {
    Render(m.value) + (m.after + MembersTail(m))
  }

  function MembersTail(m: Members): (tail: seq<byte>)
    ensures |tail| > 0 && tail[0] == if m.MoreMembers? then COMMA else CLOSE_BRACE
    decreases m, 0
  {
    if m.MoreMembers? then [COMMA] + RenderMembers(m.rest) else [CLOSE_BRACE]
  }

  // ----- A response: an object and the white space around it -----

  datatype Document = Document(before: seq<byte>, body: Json, after: seq<byte>)

  predicate ValidDocument(d: Document) {
    Spaces(d.before) && Spaces(d.after) && ValidJson(d.body) && (d.body.EmptyObject? || d.body.Object?)
  }

  function RenderDocument(d: Document): seq<byte> {
    d.before + (Render(d.body) + d.after)
  }

  // ----- What a response says -----

  datatype Response = Response(hasError: bool, hasOutput: bool, output: bool)

  predicate IsOutput(key: seq<Unit>) {
    RenderUnits(key) == OUTPUT_KEY
  }

  predicate IsError(key: seq<Unit>) {
    RenderUnits(key) == ERROR_KEY
  }

  /** How often the raw key "output" stands at the top level. */
  function OutputCount(m: Members): nat {
    (if IsOutput(m.key) then 1 else 0) + (if m.MoreMembers? then OutputCount(m.rest) else 0)
  }

  /** Every top-level "output" has a Boolean value. */
  predicate OutputsBoolean(m: Members) {
    && (IsOutput(m.key) ==> m.value.TrueValue? || m.value.FalseValue?)
    && (m.MoreMembers? ==> OutputsBoolean(m.rest))
  }

  predicate HasError(m: Members) {
    IsError(m.key) || (m.MoreMembers? && HasError(m.rest))
  }

  /** Some top-level "output" is true. */
  predicate OutputTrue(m: Members) {
    (IsOutput(m.key) && m.value.TrueValue?) || (m.MoreMembers? && OutputTrue(m.rest))
  }

  predicate Acceptable(d: Document) {
    d.body.Object? ==> OutputCount(d.body.members) <= 1 && OutputsBoolean(d.body.members)
  }

  function Summary(d: Document): Response {
    if d.body.Object?
    then Response(HasError(d.body.members), OutputCount(d.body.members) > 0, OutputTrue(d.body.members))
    else Response(false, false, false)
  }
}
