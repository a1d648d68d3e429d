/**
 The response parser accepts exactly the object texts of the grammar whose raw top-level "output" key occurs at most
 once and has a Boolean value, and reports that value and whether a top-level "error" key exists.
 */
module ShellyResponse {
  import opened Bytes
  import opened Common
  import opened ShellyGrammar
  import opened ShellyParser
  import opened ShellyTheorems
  import opened ShellyValues

  // ----- What one member after another does to the response -----

  function Take(key: seq<Unit>, value: Json, r: Response): Option<Response> {
    if IsOutput(key) then
      if r.hasOutput || !(value.TrueValue? || value.FalseValue?) then None
      else Some(r.(hasOutput := true, output := value.TrueValue?))
    else Some(if IsError(key) then r.(hasError := true) else r)
  }

  function Fold(m: Members, r: Response): Option<Response> {
    match Take(m.key, m.value, r)
    case None => None
    case Some(next) => if m.MoreMembers? then Fold(m.rest, next) else Some(next)
  }

  lemma KeysDiffer(key: seq<Unit>)
    ensures !(IsOutput(key) && IsError(key))
  {
    hide RenderUnits;
    assert |OUTPUT_KEY| != |ERROR_KEY|;
  }

  /** The fold, declaratively. */
  lemma {:induction false} FoldMeans(m: Members, r: Response)
    ensures Fold(m, r).Some? <==> OutputCount(m) + (if r.hasOutput then 1 else 0) <= 1 && OutputsBoolean(m)
    ensures Fold(m, r).Some? ==>
      Fold(m, r).value == Response(r.hasError || HasError(m), r.hasOutput || OutputCount(m) > 0,
                                   if OutputCount(m) > 0 then OutputTrue(m) else r.output)
    ensures OutputTrue(m) ==> OutputCount(m) > 0
  {
    hide IsOutput, IsError;
    KeysDiffer(m.key);
    match Take(m.key, m.value, r)
    case None =>
      if m.MoreMembers? { FoldMeans(m.rest, r); }
    case Some(next) =>
      if m.MoreMembers? { FoldMeans(m.rest, next); }
  }

  // ----- The loop over members computes the fold -----

  lemma KeyMatches(text: Text, at: nat, units: seq<Unit>)
    requires ValidUnits(units) && Holds(text, at, RenderString(units))
    ensures KeyIs(text, at + 1, |units|, OUTPUT_KEY) <==> IsOutput(units)
    ensures KeyIs(text, at + 1, |units|, ERROR_KEY) <==> IsError(units)
  {
    hide RenderUnits, RenderString, ValidUnits, KeyIs, Holds;
    KeyComparison(text, at, units, OUTPUT_KEY);
    KeyComparison(text, at, units, ERROR_KEY);
  }

  lemma BooleanRead(text: Text, at: nat, v: Json)
    requires ValidJson(v) && Holds(text, at, Render(v))
    ensures ReadBoolean(text, at) ==
      if v.TrueValue? || v.FalseValue? then Some((v.TrueValue?, at + |Render(v)|)) else None
  {
    hide StartsWith, Holds;
    ValueStarts(text, at, v);
    WordStarts(text, at, TRUE_TEXT);
    WordStarts(text, at, FALSE_TEXT);
    if v.TrueValue? || v.FalseValue? {
      WordFound(text, at, Render(v));
    } else {
      FirstIsNotBoolean(v);
    }
  }

  lemma FirstIsNotBoolean(v: Json)
    requires ValidJson(v) && !v.TrueValue? && !v.FalseValue?
    ensures |Render(v)| > 0 && Render(v)[0] != TRUE_TEXT[0] && Render(v)[0] != FALSE_TEXT[0]
  {
    if v.NumberValue? {
      var n := v.number;
      assert RenderNumber(n)[0] == if n.negative then MINUS else n.integer[0];
    }
  }

  lemma MemberTaken(text: Text, at: nat, m: Members, r: Response)
    requires ValidMembers(m) && Holds(text, at, RenderMembers(m))
    ensures SkipSpaces(text, at) == KeyAt(at, m) < |text| && text[KeyAt(at, m)] == QUOTE
    ensures ReadMember(text, KeyAt(at, m), r) ==
      match Take(m.key, m.value, r) case None => None case Some(next) => Some((EndAt(at, m), next))
    ensures EndAt(at, m) <= |text|
    ensures SkipSpaces(text, EndAt(at, m)) == TailAt(at, m) < |text| && text[TailAt(at, m)] == MembersTail(m)[0]
    ensures Holds(text, TailAt(at, m), MembersTail(m))
    ensures at + |RenderMembers(m)| == TailAt(at, m) + |MembersTail(m)|
  {
    hide Render, RenderMembers, RenderString, Spaces, SkipValue, SkipSpaces, Holds, ParseString, ReadBoolean, KeyIs, IsOutput, IsError,
         KeyAt, ColonAt, ValueAt, TailAt, FromColon, MembersTail;
    MemberKey(text, at, m);
    MemberValue(text, at, m);
    KeyMatches(text, KeyAt(at, m), m.key);
    BooleanRead(text, ValueAt(at, m), m.value);
    ValueRead(text, ValueAt(at, m), m.value);
  }

  lemma {:induction false} MembersTaken(text: Text, at: nat, m: Members, r: Response)
    requires ValidMembers(m) && Holds(text, at, RenderMembers(m))
    requires at + |RenderMembers(m)| <= |text| && SkipSpaces(text, at + |RenderMembers(m)|) == |text|
    ensures SkipSpaces(text, at) < |text| && CharAt(text, SkipSpaces(text, at)) != CLOSE_BRACE
    ensures ReadMembers(text, SkipSpaces(text, at), r) == Fold(m, r)
    decreases m
  {
    hide RenderMembers, SkipSpaces, Holds, ReadMember, Take, KeyAt, EndAt, TailAt, MembersTail;
    MemberTaken(text, at, m, r);
    if m.MoreMembers? {
      MoreMembersTail(text, TailAt(at, m), m);
      if Take(m.key, m.value, r).Some? {
        MembersTaken(text, TailAt(at, m) + 1, m.rest, Take(m.key, m.value, r).value);
      }
    } else {
      LastMemberTail(m);
    }
  }

  // ----- Whatever the loop over members accepts is members -----

  lemma MemberRecognised(text: Text, at: nat, r: Response)
    returns (key: seq<Unit>, afterKey: seq<byte>, beforeValue: seq<byte>, value: Json)
    requires at <= |text| && ReadMember(text, at, r).Some?
    ensures ValidUnits(key) && Spaces(afterKey) && Spaces(beforeValue) && ValidJson(value)
    ensures var colon := at + |RenderString(key)| + |afterKey|;
            && Holds(text, at, RenderString(key)) && Holds(text, at + |RenderString(key)|, afterKey)
            && Holds(text, colon, [COLON]) && Holds(text, colon + 1, beforeValue)
            && Holds(text, colon + 1 + |beforeValue|, Render(value))
            && Take(key, value, r).Some?
            && ReadMember(text, at, r).value == (colon + 1 + |beforeValue| + |Render(value)|, Take(key, value, r).value)
  {
    hide Render, RenderString, Spaces, SkipValue, SkipSpaces, Holds, ParseString, ReadBoolean, KeyIs, IsOutput, IsError,
         ValidUnits, ValidJson;
    key, afterKey := KeyFound(text, at);
    var colon := at + |RenderString(key)| + |afterKey|;
    ClosingHolds(text, colon, COLON);
    beforeValue := SpacesFound(text, colon + 1);
    KeyMatches(text, at, key);
    if IsOutput(key) {
      value := BooleanFound(text, colon + 1 + |beforeValue|);
    } else {
      var more;
      more, value := ValueFound(text, colon + 1 + |beforeValue|);
      HoldsJoin(text, colon + 1, beforeValue, more);
      SpacesJoin(beforeValue, more);
      beforeValue := beforeValue + more;
    }
  }

  lemma BooleanFound(text: Text, at: nat) returns (v: Json)
    requires ReadBoolean(text, at).Some?
    ensures ValidJson(v) && Holds(text, at, Render(v)) && (v.TrueValue? || v.FalseValue?)
    ensures ReadBoolean(text, at).value == (v.TrueValue?, at + |Render(v)|)
  {
    v := if StartsWith(text, at, TRUE_TEXT) then TrueValue else FalseValue;
  }

  lemma {:induction false} MembersRecognised(text: Text, at: nat, space: seq<byte>, r: Response)
    returns (m: Members)
    requires Spaces(space) && Holds(text, at, space) && at + |space| <= |text|
    requires ReadMembers(text, at + |space|, r).Some?
    ensures ValidMembers(m) && Holds(text, at, RenderMembers(m)) && at + |RenderMembers(m)| <= |text|
    ensures SkipSpaces(text, at + |RenderMembers(m)|) == |text|
    ensures ReadMembers(text, at + |space|, r) == Fold(m, r)
    decreases |text| - (at + |space|)
  {
    hide Render, RenderMembers, MembersTail, RenderString, Spaces, SkipSpaces, ReadMember, Take, Holds, ValidJson, ValidUnits,
         KeyAt, ColonAt, ValueAt, EndAt, TailAt;
    var key, afterKey, beforeValue, value := MemberRecognised(text, at + |space|, r);
    var end := at + |space| + |RenderString(key)| + |afterKey| + 1 + |beforeValue| + |Render(value)|;
    var after := SpacesFound(text, end);
    var next := end + |after|;
    if CharAt(text, next) == CLOSE_BRACE {
      m := LastMember(space, key, afterKey, beforeValue, value, after);
      ClosingHolds(text, next, CLOSE_BRACE);
      LastMemberTail(m);
    } else {
      ClosingHolds(text, next, COMMA);
      var more := SpacesFound(text, next + 1);
      var rest := MembersRecognised(text, next + 1, more, Take(key, value, r).value);
      m := MoreMembers(space, key, afterKey, beforeValue, value, after, rest);
      JoinMembersTail(text, next, m);
    }
    PlacesOf(at, m);
    JoinMember(text, at, m);
  }

  // ----- The whole response -----

  /** The object and the white space around it, at their positions. */
  lemma DocumentPlaces(text: Text, d: Document)
    requires ValidDocument(d) && RenderDocument(d) == text
    ensures var start, end := |d.before|, |d.before| + |Render(d.body)|;
            && SkipSpaces(text, 0) == start < end <= |text| && CharAt(text, start) == OPEN_BRACE
            && Holds(text, start, Render(d.body)) && SkipSpaces(text, end) == |text|
  {
    hide Spaces, SkipSpaces, Holds, Render, ValidJson;
    var start := |d.before|;
    ObjectStarts(d.body);
    WholeHolds(text);
    HoldsSplit(text, 0, d.before, Render(d.body) + d.after);
    HoldsSplit(text, start, Render(d.body), d.after);
    ValueStarts(text, start, d.body);
    SpacesSkipped(text, 0, d.before);
    SpacesSkipped(text, start + |Render(d.body)|, d.after);
  }

  /** The answer to every text of the grammar, acceptable or not. */
  lemma ParseResponseAnswers(text: Text, d: Document)
    requires ValidDocument(d) && RenderDocument(d) == text
    ensures ParseResponse(text) == if Acceptable(d) then Some(Summary(d)) else None
  {
    hide RenderDocument, RenderMembers, Spaces, SkipSpaces, Holds, ReadMembers, Fold, OutputCount, OutputsBoolean, OutputTrue, HasError;
    var start := |d.before|;
    DocumentPlaces(text, d);
    if d.body.EmptyObject? {
      EmptyRead(text, start, OPEN_BRACE, d.body.space, CLOSE_BRACE);
    } else {
      var m := d.body.members;
      HoldsSplit(text, start, [OPEN_BRACE], RenderMembers(m));
      MembersTaken(text, start + 1, m, Response(false, false, false));
      FoldMeans(m, Response(false, false, false));
    }
  }

  lemma ObjectStarts(v: Json)
    requires v.EmptyObject? || v.Object?
    ensures |Render(v)| > 0 && Render(v)[0] == OPEN_BRACE
  {
  }

  lemma WholeHolds(text: Text)
    ensures Holds(text, 0, text)
  {
  }

  /** Every accepted text is a text of the grammar. */
  lemma ParseResponseRecognises(text: Text) returns (d: Document)
    requires ParseResponse(text).Some?
    ensures ValidDocument(d) && RenderDocument(d) == text
  {
    hide RenderMembers, ValidMembers, Spaces, SkipSpaces, Holds, ReadMembers, Fold, Render, ValidJson;
    var before := SpacesFound(text, 0);
    var start := |before|;
    var body := BodyRecognised(text, start);
    var after := SpacesFound(text, start + |Render(body)|);
    d := Document(before, body, after);
    HoldsJoin(text, start, Render(body), after);
    HoldsJoin(text, 0, before, Render(body) + after);
    HoldsWhole(text, RenderDocument(d));
  }

  /** The object of an accepted response, from its brace on. */
  lemma BodyRecognised(text: Text, start: nat) returns (body: Json)
    requires ParseResponse(text).Some? && start == SkipSpaces(text, 0)
    ensures (body.EmptyObject? || body.Object?) && ValidJson(body) && Holds(text, start, Render(body))
    ensures SkipSpaces(text, start + |Render(body)|) == |text|
  {
    hide RenderMembers, ValidMembers, Spaces, SkipSpaces, Holds, ReadMembers, Fold;
    ClosingHolds(text, start, OPEN_BRACE);
    var space := SpacesFound(text, start + 1);
    if CharAt(text, start + 1 + |space|) == CLOSE_BRACE {
      body := EmptyObject(space);
      EmptyFound(text, start, space, CLOSE_BRACE);
    } else {
      var m := MembersRecognised(text, start + 1, space, Response(false, false, false));
      body := Object(m);
      HoldsJoin(text, start, [OPEN_BRACE], RenderMembers(m));
    }
  }

  lemma HoldsWhole(text: Text, whole: seq<byte>)
    requires Holds(text, 0, whole) && |whole| == |text|
    ensures text == whole
  {
  }

  /** The parser decides the grammar and the side condition on "output", and reports what the text says. */
  lemma ParseResponseIsExact(text: Text, r: Response)
    ensures ParseResponse(text) == Some(r) <==>
      exists d :: ValidDocument(d) && RenderDocument(d) == text && Acceptable(d) && Summary(d) == r
  {
    hide ParseResponse, ValidDocument, RenderDocument, Acceptable, Summary;
    if ParseResponse(text).Some? {
      var d := ParseResponseRecognises(text);
      ParseResponseAnswers(text, d);
    }
    forall d | ValidDocument(d) && RenderDocument(d) == text && Acceptable(d) && Summary(d) == r
      ensures ParseResponse(text) == Some(r)
    {
      ParseResponseAnswers(text, d);
    }
  }
}
