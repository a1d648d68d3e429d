/** Nested values: what the recogniser skips is exactly one JSON value, and it skips every JSON value. */
module ShellyValues {
  import opened Bytes
  import opened Common
  import opened ShellyGrammar
  import opened ShellyParser
  import opened ShellyTheorems

  // ----- The first character of a value -----

  predicate StartsValue(c: byte) {
    c == QUOTE || c == OPEN_BRACE || c == OPEN_BRACKET || c == 0x74 || c == 0x66 || c == 0x6e || c == MINUS || IsDigit(c)
  }

  lemma FirstCharacter(v: Json)
    requires ValidJson(v)
    ensures |Render(v)| > 0 && StartsValue(Render(v)[0])
  {
    if v.NumberValue? {
      var n := v.number;
      assert RenderNumber(n)[0] == if n.negative then MINUS else n.integer[0];
    }
  }

  lemma ValueStarts(text: Text, at: nat, v: Json)
    requires ValidJson(v) && Holds(text, at, Render(v))
    ensures at < |text| && StartsValue(text[at]) && text[at] == Render(v)[0]
  {
    hide Render;
    FirstCharacter(v);
    HoldsAt(text, at, Render(v), 0);
  }

  /** Leading white space makes no difference. */
  lemma ValueAfterSpaces(text: Text, at: nat, w: seq<byte>, v: Json)
    requires Spaces(w) && ValidJson(v) && Holds(text, at, w) && Holds(text, at + |w|, Render(v))
    ensures SkipSpaces(text, at) == at + |w|
    ensures SkipValue(text, at) == SkipValue(text, at + |w|)
  {
    hide Render, SkipItems, SkipMembers, SkipNumber, ParseString, Holds;
    ValueStarts(text, at + |w|, v);
    SpacesSkipped(text, at, w);
  }

  /** After a value come white space and then a separator or a bracket, so the value ends where it should. */
  lemma TailFollows(text: Text, at: nat, after: seq<byte>, tail: seq<byte>)
    requires Spaces(after) && Holds(text, at, after + tail) && |tail| > 0
    requires tail[0] == COMMA || tail[0] == CLOSE_BRACKET || tail[0] == CLOSE_BRACE
    ensures at + |after| < |text| && Follows(text, at)
    ensures SkipSpaces(text, at) == at + |after| && text[at + |after|] == tail[0]
    ensures Holds(text, at + |after|, tail)
  {
    HoldsSplit(text, at, after, tail);
    HoldsAt(text, at + |after|, tail, 0);
    SpacesSkipped(text, at, after);
    if after != [] { HoldsAt(text, at, after, 0); }
  }

  // ----- Every value is skipped -----

  lemma {:induction false} ValueRead(text: Text, at: nat, v: Json)
    requires ValidJson(v) && Holds(text, at, Render(v)) && Follows(text, at + |Render(v)|)
    ensures SkipValue(text, at) == Some(at + |Render(v)|)
    decreases v, 1
  {
    hide ParseString, SkipNumber, SkipItems, SkipMembers, SkipSpaces, Spaces, Holds, StartsWith, RenderItems, RenderMembers, ValidItems,
         ValidMembers, RenderString, RenderNumber, ValidNumber, ValidUnits;
    ValueStarts(text, at, v);
    SpacesDone(text, at);
    match v {
      case EmptyArray(space) =>
        EmptyRead(text, at, OPEN_BRACKET, space, CLOSE_BRACKET);
      case Array(items) =>
        HoldsSplit(text, at, [OPEN_BRACKET], RenderItems(items));
        ItemsRead(text, at + 1, items);
      case EmptyObject(space) =>
        EmptyRead(text, at, OPEN_BRACE, space, CLOSE_BRACE);
      case Object(members) =>
        HoldsSplit(text, at, [OPEN_BRACE], RenderMembers(members));
        MembersRead(text, at + 1, members);
      case _ =>
        ScalarRead(text, at, v);
    }
  }

  lemma ScalarRead(text: Text, at: nat, v: Json)
    requires ValidJson(v) && Holds(text, at, Render(v)) && Follows(text, at + |Render(v)|)
    requires !v.EmptyArray? && !v.Array? && !v.EmptyObject? && !v.Object?
    ensures SkipValue(text, at) == Some(at + |Render(v)|)
  {
    hide ParseString, SkipNumber, SkipItems, SkipMembers, SkipSpaces, RenderString, RenderNumber, ValidNumber, ValidUnits, StartsWith;
    ValueStarts(text, at, v);
    SpacesDone(text, at);
    if v.StringValue? {
      ParseStringRead(text, at, v.units);
      StringStarts(v.units);
    } else if v.NumberValue? {
      NumberRead(text, at, v.number);
      WordStarts(text, at, TRUE_TEXT);
      WordStarts(text, at, FALSE_TEXT);
      WordStarts(text, at, NULL_TEXT);
    } else {
      WordFound(text, at, Render(v));
      WordStarts(text, at, TRUE_TEXT);
      WordStarts(text, at, FALSE_TEXT);
    }
  }

  lemma WordFound(text: Text, at: nat, word: seq<byte>)
    ensures Holds(text, at, word) <==> StartsWith(text, at, word)
  {
  }

  lemma SpacesDone(text: Text, at: nat)
    requires at <= |text| && !IsSpace(CharAt(text, at))
    ensures SkipSpaces(text, at) == at
  {
  }

  lemma WordStarts(text: Text, at: nat, word: seq<byte>)
    requires at < |text| && |word| > 0
    ensures StartsWith(text, at, word) ==> text[at] == word[0]
  {
    if StartsWith(text, at, word) { assert text[at] == text[at..at + |word|][0]; }
  }

  lemma StringStarts(units: seq<Unit>)
    ensures RenderString(units)[0] == QUOTE
  {
  }

  lemma EmptyRead(text: Text, at: nat, open: byte, space: seq<byte>, close: byte)
    requires Spaces(space) && Holds(text, at, [open] + (space + [close])) && !IsSpace(close)
    ensures at < |text| && text[at] == open
    ensures SkipSpaces(text, at + 1) == at + 1 + |space|
    ensures CharAt(text, at + 1 + |space|) == close
  {
    HoldsAt(text, at, [open] + (space + [close]), 0);
    HoldsSplit(text, at, [open], space + [close]);
    HoldsSplit(text, at + 1, space, [close]);
    SpacesSkipped(text, at + 1, space);
  }

  lemma {:induction false} ItemsRead(text: Text, at: nat, items: Items)
    requires ValidItems(items) && Holds(text, at, RenderItems(items))
    ensures SkipSpaces(text, at) <= |text| && CharAt(text, SkipSpaces(text, at)) != CLOSE_BRACKET
    ensures SkipItems(text, SkipSpaces(text, at)) == Some(at + |RenderItems(items)|)
    decreases items, 0
  {
    hide Render, Spaces, SkipValue, SkipSpaces, Holds, FromItem, ItemsTail, ValidJson, StartsWith;
    var start := at + |items.before|;
    HoldsSplit(text, at, items.before, FromItem(items));
    var end := ItemParts(text, start, items);
    ValueAfterSpaces(text, at, items.before, items.value);
    ValueRead(text, start, items.value);
    if items.MoreItems? {
      MoreItemsTail(text, end + |items.after|, items);
      ItemsRead(text, end + |items.after| + 1, items.rest);
    } else {
      LastItemTail(items);
    }
  }

  lemma ItemParts(text: Text, start: nat, items: Items) returns (end: nat)
    requires ValidItems(items) && Holds(text, start, FromItem(items))
    ensures end == start + |Render(items.value)|
    ensures Holds(text, start, Render(items.value)) && Follows(text, end)
    ensures start < |text| && StartsValue(text[start])
    ensures SkipSpaces(text, end) == end + |items.after| < |text|
    ensures text[end + |items.after|] == ItemsTail(items)[0]
    ensures Holds(text, end + |items.after|, ItemsTail(items))
    ensures start + |FromItem(items)| == end + |items.after| + |ItemsTail(items)|
  {
    hide Render, Spaces, SkipSpaces, Holds, ItemsTail;
    end := start + |Render(items.value)|;
    HoldsSplit(text, start, Render(items.value), items.after + ItemsTail(items));
    TailFollows(text, end, items.after, ItemsTail(items));
    ValueStarts(text, start, items.value);
  }

  lemma MoreItemsTail(text: Text, at: nat, items: Items)
    requires items.MoreItems? && Holds(text, at, ItemsTail(items))
    ensures Holds(text, at + 1, RenderItems(items.rest)) && |ItemsTail(items)| == 1 + |RenderItems(items.rest)|
  {
    hide RenderItems, Holds;
    HoldsSplit(text, at, [COMMA], RenderItems(items.rest));
  }

  lemma LastItemTail(items: Items)
    requires items.LastItem?
    ensures ItemsTail(items) == [CLOSE_BRACKET]
  {
  }

  // ----- The parts of a member -----

  function KeyAt(at: nat, m: Members): nat { at + |m.before| }
  function ColonAt(at: nat, m: Members): nat { KeyAt(at, m) + |RenderString(m.key)| + |m.afterKey| }
  function ValueAt(at: nat, m: Members): nat { ColonAt(at, m) + 1 + |m.beforeValue| }
  function EndAt(at: nat, m: Members): nat { ValueAt(at, m) + |Render(m.value)| }
  function TailAt(at: nat, m: Members): nat { EndAt(at, m) + |m.after| }

  /** The key of the first member, and the colon that follows it. */
  lemma MemberKey(text: Text, at: nat, m: Members)
    requires ValidMembers(m) && Holds(text, at, RenderMembers(m))
    ensures SkipSpaces(text, at) == KeyAt(at, m) < |text| && text[KeyAt(at, m)] == QUOTE
    ensures Holds(text, KeyAt(at, m), RenderString(m.key))
    ensures ParseString(text, KeyAt(at, m)) == Some(StringEnd(KeyAt(at, m) + |RenderString(m.key)|, |m.key|))
    ensures SkipSpaces(text, KeyAt(at, m) + |RenderString(m.key)|) == ColonAt(at, m) < |text| && text[ColonAt(at, m)] == COLON
    ensures Holds(text, ColonAt(at, m), FromColon(m))
    ensures at + |RenderMembers(m)| == ColonAt(at, m) + |FromColon(m)|
  {
    hide RenderString, Spaces, SkipSpaces, Holds, ParseString, FromColon;
    var key, at0 := RenderString(m.key), KeyAt(at, m);
    HoldsSplit(text, at, m.before, FromKey(m));
    HoldsSplit(text, at0, key, m.afterKey + FromColon(m));
    HoldsSplit(text, at0 + |key|, m.afterKey, FromColon(m));
    ParseStringRead(text, at0, m.key);
    StringStarts(m.key);
    HoldsAt(text, at0, key, 0);
    SpacesSkipped(text, at, m.before);
    ColonStarts(m);
    HoldsAt(text, ColonAt(at, m), FromColon(m), 0);
    SpacesSkipped(text, at0 + |key|, m.afterKey);
  }

  lemma ColonStarts(m: Members)
    ensures |FromColon(m)| > 0 && FromColon(m)[0] == COLON
  {
  }

  /** The value of the first member, and the separator or brace that follows it. */
  lemma MemberValue(text: Text, at: nat, m: Members)
    requires ValidMembers(m) && Holds(text, ColonAt(at, m), FromColon(m))
    ensures SkipSpaces(text, ColonAt(at, m) + 1) == ValueAt(at, m)
    ensures SkipValue(text, ColonAt(at, m) + 1) == SkipValue(text, ValueAt(at, m))
    ensures Holds(text, ValueAt(at, m), Render(m.value)) && Follows(text, EndAt(at, m))
    ensures SkipSpaces(text, EndAt(at, m)) == TailAt(at, m) < |text| && text[TailAt(at, m)] == MembersTail(m)[0]
    ensures Holds(text, TailAt(at, m), MembersTail(m))
    ensures ColonAt(at, m) + |FromColon(m)| == TailAt(at, m) + |MembersTail(m)|
  {
    hide Render, Spaces, SkipValue, SkipSpaces, Holds, ColonAt, MembersTail;
    HoldsSplit(text, ColonAt(at, m), [COLON], m.beforeValue + FromValue(m));
    HoldsSplit(text, ColonAt(at, m) + 1, m.beforeValue, FromValue(m));
    HoldsSplit(text, ValueAt(at, m), Render(m.value), m.after + MembersTail(m));
    ValueAfterSpaces(text, ColonAt(at, m) + 1, m.beforeValue, m.value);
    TailFollows(text, EndAt(at, m), m.after, MembersTail(m));
  }

  lemma MoreMembersTail(text: Text, at: nat, m: Members)
    requires m.MoreMembers? && Holds(text, at, MembersTail(m))
    ensures Holds(text, at + 1, RenderMembers(m.rest)) && |MembersTail(m)| == 1 + |RenderMembers(m.rest)|
  {
    hide RenderMembers, Holds;
    HoldsSplit(text, at, [COMMA], RenderMembers(m.rest));
  }

  lemma LastMemberTail(m: Members)
    requires m.LastMember?
    ensures MembersTail(m) == [CLOSE_BRACE]
  {
  }

  lemma {:induction false} MembersRead(text: Text, at: nat, m: Members)
    requires ValidMembers(m) && Holds(text, at, RenderMembers(m))
    ensures SkipSpaces(text, at) <= |text| && CharAt(text, SkipSpaces(text, at)) != CLOSE_BRACE
    ensures SkipMembers(text, SkipSpaces(text, at)) == Some(at + |RenderMembers(m)|)
    decreases m, 0
  {
    hide Render, RenderMembers, RenderString, Spaces, SkipValue, SkipSpaces, Holds, ParseString,
         KeyAt, ColonAt, ValueAt, TailAt, FromColon, MembersTail;
    MemberKey(text, at, m);
    MemberValue(text, at, m);
    ValueRead(text, ValueAt(at, m), m.value);
    if m.MoreMembers? {
      MoreMembersTail(text, TailAt(at, m), m);
      MembersRead(text, TailAt(at, m) + 1, m.rest);
    } else {
      LastMemberTail(m);
    }
  }

  // ----- Whatever is skipped is a value -----

  lemma {:induction false} ValueFound(text: Text, at: nat) returns (w: seq<byte>, v: Json)
    requires at <= |text| && SkipValue(text, at).Some?
    ensures Spaces(w) && ValidJson(v) && Holds(text, at, w) && Holds(text, at + |w|, Render(v))
    ensures SkipValue(text, at) == Some(at + |w| + |Render(v)|)
    decreases |text| - at, 0, 1
  {
    hide ParseString, SkipNumber, SkipItems, SkipMembers, Spaces, Render, ValidJson, SkipSpaces, Holds, StartsWith;
    w := SpacesFound(text, at);
    var start := at + |w|;
    SpacesDone(text, start);
    if CharAt(text, start) == OPEN_BRACE {
      v := ObjectFound(text, start);
    } else if CharAt(text, start) == OPEN_BRACKET {
      v := ArrayFound(text, start);
    } else {
      v := ScalarFound(text, start);
    }
  }

  /** A value that is neither an object nor an array. */
  lemma ScalarFound(text: Text, at: nat) returns (v: Json)
    requires at <= |text| && SkipSpaces(text, at) == at && SkipValue(text, at).Some?
    requires CharAt(text, at) != OPEN_BRACE && CharAt(text, at) != OPEN_BRACKET
    ensures ValidJson(v) && Holds(text, at, Render(v)) && SkipValue(text, at) == Some(at + |Render(v)|)
  {
    hide ParseString, SkipNumber, SkipItems, SkipMembers, RenderString, RenderNumber, SkipSpaces, ValidNumber, ValidUnits;
    if CharAt(text, at) == QUOTE {
      var units := ParseStringFound(text, at);
      v := StringValue(units);
    } else if StartsWith(text, at, TRUE_TEXT) {
      v := TrueValue;
    } else if StartsWith(text, at, FALSE_TEXT) {
      v := FalseValue;
    } else if StartsWith(text, at, NULL_TEXT) {
      v := NullValue;
    } else {
      var n := NumberFound(text, at);
      v := NumberValue(n);
    }
  }

  lemma {:induction false} ArrayFound(text: Text, at: nat) returns (v: Json)
    requires at <= |text| && SkipSpaces(text, at) == at && SkipValue(text, at).Some?
    requires CharAt(text, at) == OPEN_BRACKET
    ensures ValidJson(v) && Holds(text, at, Render(v)) && SkipValue(text, at) == Some(at + |Render(v)|)
    decreases |text| - at, 0, 0
  {
    hide SkipItems, RenderItems, ValidItems, SkipSpaces, Spaces, Holds, StartsWith;
    var space := SpacesFound(text, at + 1);
    ClosingHolds(text, at, OPEN_BRACKET);
    if CharAt(text, at + 1 + |space|) == CLOSE_BRACKET {
      v := EmptyArray(space);
      EmptyFound(text, at, space, CLOSE_BRACKET);
    } else {
      var items := ItemsFound(text, at + 1, space);
      v := Array(items);
      HoldsJoin(text, at, [OPEN_BRACKET], RenderItems(items));
    }
  }

  lemma {:induction false} ObjectFound(text: Text, at: nat) returns (v: Json)
    requires at <= |text| && SkipSpaces(text, at) == at && SkipValue(text, at).Some?
    requires CharAt(text, at) == OPEN_BRACE
    ensures ValidJson(v) && Holds(text, at, Render(v)) && SkipValue(text, at) == Some(at + |Render(v)|)
    decreases |text| - at, 0, 0
  {
    hide SkipMembers, RenderMembers, ValidMembers, SkipSpaces, Spaces, Holds, StartsWith;
    var space := SpacesFound(text, at + 1);
    ClosingHolds(text, at, OPEN_BRACE);
    if CharAt(text, at + 1 + |space|) == CLOSE_BRACE {
      v := EmptyObject(space);
      EmptyFound(text, at, space, CLOSE_BRACE);
    } else {
      var members := MembersFound(text, at + 1, space);
      v := Object(members);
      HoldsJoin(text, at, [OPEN_BRACE], RenderMembers(members));
    }
  }

  lemma EmptyFound(text: Text, at: nat, space: seq<byte>, close: byte)
    requires at < |text| && Holds(text, at + 1, space) && CharAt(text, at + 1 + |space|) == close != 0
    ensures Holds(text, at, [text[at]] + (space + [close]))
  {
    HoldsJoin(text, at + 1, space, [close]);
    HoldsJoin(text, at, [text[at]], space + [close]);
  }

  /** The items of an array, from the white space in front of a value on. */
  lemma {:induction false} ItemsFound(text: Text, at: nat, space: seq<byte>) returns (items: Items)
    requires Spaces(space) && Holds(text, at, space) && SkipItems(text, at + |space|).Some?
    ensures ValidItems(items) && Holds(text, at, RenderItems(items))
    ensures SkipItems(text, at + |space|) == Some(at + |RenderItems(items)|)
    decreases |text| - (at + |space|), 1, 0
  {
    hide Render, RenderItems, ItemsTail, Spaces, SkipSpaces, SkipValue, Holds, ValidJson;
    var before, value := ValueFound(text, at + |space|);
    HoldsJoin(text, at, space, before);
    SpacesJoin(space, before);
    var end := at + |space + before| + |Render(value)|;
    var after := SpacesFound(text, end);
    var next := end + |after|;
    if CharAt(text, next) == CLOSE_BRACKET {
      items := LastItem(space + before, value, after);
      ClosingHolds(text, next, CLOSE_BRACKET);
      LastItemTail(items);
    } else {
      ClosingHolds(text, next, COMMA);
      var more := SpacesFound(text, next + 1);
      var rest := ItemsFound(text, next + 1, more);
      items := MoreItems(space + before, value, after, rest);
      JoinItemsTail(text, next, items);
    }
    JoinItem(text, at, items);
  }

  lemma JoinItemsTail(text: Text, at: nat, items: Items)
    requires items.MoreItems? && Holds(text, at, [COMMA]) && Holds(text, at + 1, RenderItems(items.rest))
    ensures Holds(text, at, ItemsTail(items)) && |ItemsTail(items)| == 1 + |RenderItems(items.rest)|
  {
    hide RenderItems, Holds;
    HoldsJoin(text, at, [COMMA], RenderItems(items.rest));
  }

  lemma SpacesJoin(left: seq<byte>, right: seq<byte>)
    requires Spaces(left) && Spaces(right)
    ensures Spaces(left + right)
  {
  }

  lemma ClosingHolds(text: Text, at: nat, c: byte)
    requires at <= |text| && CharAt(text, at) == c != 0
    ensures at < |text| && Holds(text, at, [c])
  {
  }

  lemma JoinItem(text: Text, at: nat, items: Items)
    requires Holds(text, at, items.before) && Holds(text, at + |items.before|, Render(items.value))
    requires var end := at + |items.before| + |Render(items.value)|;
             Holds(text, end, items.after) && Holds(text, end + |items.after|, ItemsTail(items))
    ensures Holds(text, at, RenderItems(items))
    ensures |RenderItems(items)| == |items.before| + |Render(items.value)| + |items.after| + |ItemsTail(items)|
  {
    hide Render, Holds, ItemsTail;
    var end := at + |items.before| + |Render(items.value)|;
    HoldsJoin(text, end, items.after, ItemsTail(items));
    HoldsJoin(text, at + |items.before|, Render(items.value), items.after + ItemsTail(items));
    HoldsJoin(text, at, items.before, FromItem(items));
  }

  /** The members of an object, from the white space in front of a key on. */
  lemma {:induction false} MembersFound(text: Text, at: nat, space: seq<byte>) returns (m: Members)
    requires Spaces(space) && Holds(text, at, space) && SkipMembers(text, at + |space|).Some?
    ensures ValidMembers(m) && Holds(text, at, RenderMembers(m))
    ensures SkipMembers(text, at + |space|) == Some(at + |RenderMembers(m)|)
    decreases |text| - (at + |space|), 1, 0
  {
    hide Render, RenderMembers, MembersTail, RenderString, Spaces, SkipSpaces, SkipKey, SkipValue, Holds, ValidJson, ValidUnits,
         KeyAt, ColonAt, ValueAt, EndAt, TailAt;
    var key, afterKey := KeyFound(text, at + |space|);
    var colon := at + |space| + |RenderString(key)| + |afterKey|;
    ClosingHolds(text, colon, COLON);
    var beforeValue, value := ValueFound(text, colon + 1);
    var after := SpacesFound(text, colon + 1 + |beforeValue| + |Render(value)|);
    var next := colon + 1 + |beforeValue| + |Render(value)| + |after|;
    if CharAt(text, next) == CLOSE_BRACE {
      m := LastMember(space, key, afterKey, beforeValue, value, after);
      ClosingHolds(text, next, CLOSE_BRACE);
      LastMemberTail(m);
    } else {
      ClosingHolds(text, next, COMMA);
      var more := SpacesFound(text, next + 1);
      var rest := MembersFound(text, next + 1, more);
      m := MoreMembers(space, key, afterKey, beforeValue, value, after, rest);
      JoinMembersTail(text, next, m);
    }
    PlacesOf(at, m);
    JoinMember(text, at, m);
  }

  lemma JoinMembersTail(text: Text, at: nat, m: Members)
    requires m.MoreMembers? && Holds(text, at, [COMMA]) && Holds(text, at + 1, RenderMembers(m.rest))
    ensures Holds(text, at, MembersTail(m)) && |MembersTail(m)| == 1 + |RenderMembers(m.rest)|
  {
    hide RenderMembers, Holds;
    HoldsJoin(text, at, [COMMA], RenderMembers(m.rest));
  }

  lemma PlacesOf(at: nat, m: Members)
    ensures KeyAt(at, m) == at + |m.before|
    ensures ColonAt(at, m) == at + |m.before| + |RenderString(m.key)| + |m.afterKey|
    ensures ValueAt(at, m) == ColonAt(at, m) + 1 + |m.beforeValue|
    ensures EndAt(at, m) == ValueAt(at, m) + |Render(m.value)|
    ensures TailAt(at, m) == EndAt(at, m) + |m.after|
  {
    hide Render, RenderString;
  }

  lemma KeyFound(text: Text, at: nat) returns (key: seq<Unit>, afterKey: seq<byte>)
    requires at <= |text| && SkipKey(text, at).Some?
    ensures ValidUnits(key) && Spaces(afterKey) && Holds(text, at, RenderString(key))
    ensures Holds(text, at + |RenderString(key)|, afterKey)
    ensures ParseString(text, at) == Some(StringEnd(at + |RenderString(key)|, |key|))
    ensures var colon := at + |RenderString(key)| + |afterKey|;
            SkipSpaces(text, at + |RenderString(key)|) == colon < |text| && text[colon] == COLON &&
            SkipKey(text, at) == Some(colon + 1)
  {
    hide Spaces, SkipSpaces, RenderString, ParseString;
    key := ParseStringFound(text, at);
    afterKey := SpacesFound(text, at + |RenderString(key)|);
  }

  /** The parts of a member, found one after the other, are the member. */
  lemma JoinMember(text: Text, at: nat, m: Members)
    requires Holds(text, at, m.before) && Holds(text, KeyAt(at, m), RenderString(m.key))
    requires Holds(text, KeyAt(at, m) + |RenderString(m.key)|, m.afterKey) && Holds(text, ColonAt(at, m), [COLON])
    requires Holds(text, ColonAt(at, m) + 1, m.beforeValue) && Holds(text, ValueAt(at, m), Render(m.value))
    requires Holds(text, EndAt(at, m), m.after) && Holds(text, TailAt(at, m), MembersTail(m))
    ensures Holds(text, at, RenderMembers(m))
    ensures at + |RenderMembers(m)| == TailAt(at, m) + |MembersTail(m)|
  {
    hide Render, RenderString, Holds, MembersTail;
    HoldsJoin(text, EndAt(at, m), m.after, MembersTail(m));
    HoldsJoin(text, ValueAt(at, m), Render(m.value), m.after + MembersTail(m));
    HoldsJoin(text, ColonAt(at, m) + 1, m.beforeValue, FromValue(m));
    HoldsJoin(text, ColonAt(at, m), [COLON], m.beforeValue + FromValue(m));
    HoldsJoin(text, KeyAt(at, m) + |RenderString(m.key)|, m.afterKey, FromColon(m));
    HoldsJoin(text, KeyAt(at, m), RenderString(m.key), m.afterKey + FromColon(m));
    HoldsJoin(text, at, m.before, FromKey(m));
  }
}
