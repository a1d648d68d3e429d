/** The characters of the protocol spelled out, and a device that does what it is asked. */
module ShellyDevices {
  import opened Bytes
  import opened Common
  import opened Texts
  import Decimals
  import CodecTheorems
  import opened ShellyGrammar
  import opened ShellyDriver

  // ----- The characters of the grammar -----

  /** The grammar is spelled in the characters of JSON. */
  lemma GrammarIsJson()
    ensures [QUOTE, BACKSLASH, COMMA, COLON, OPEN_BRACKET, CLOSE_BRACKET, OPEN_BRACE, CLOSE_BRACE] == Ascii("\"\\,:[]{}")
    ensures [MINUS, PLUS, POINT, ZERO] == Ascii("-+.0")
    ensures TRUE_TEXT == Ascii("true") && FALSE_TEXT == Ascii("false") && NULL_TEXT == Ascii("null")
    ensures OUTPUT_KEY == Ascii("output") && ERROR_KEY == Ascii("error")
  {
  }

  /** White space is that of `isspace`, digits are those of `isdigit` and `isxdigit`, and the escapes are the eight of JSON. */
  lemma ClassesAreJson(c: byte)
    ensures IsSpace(c) <==> c in Ascii(" \t\n\r") || c == 0x0b || c == 0x0c
    ensures IsDigit(c) <==> c in Ascii("0123456789")
    ensures IsHex(c) <==> c in Ascii("0123456789") || c in Ascii("ABCDEF") || c in Ascii("abcdef")
    ensures IsEscape(c) <==> c in Ascii("\"\\/bfnrt")
    ensures IsExponentLetter(c) <==> c in Ascii("eE")
  {
    assert Ascii(" \t\n\r") == [0x20, 0x09, 0x0a, 0x0d];
    assert Ascii("0123456789") == [0x30, 0x31, 0x32, 0x33, 0x34, 0x35, 0x36, 0x37, 0x38, 0x39];
    assert Ascii("ABCDEF") == [0x41, 0x42, 0x43, 0x44, 0x45, 0x46];
    assert Ascii("abcdef") == [0x61, 0x62, 0x63, 0x64, 0x65, 0x66];
    assert Ascii("\"\\/bfnrt") == [0x22, 0x5c, 0x2f, 0x62, 0x66, 0x6e, 0x72, 0x74];
    assert Ascii("eE") == [0x65, 0x45];
  }

  // ----- The paths -----

  /** The path that asks for a switch to be set. */
  ghost predicate AsksToSet(path: Text, switchId: byte, on: bool) {
    exists digits: Text :: Decimals.IsNumeral(digits, switchId) &&
      path == Ascii("/rpc/Switch.Set?id=") + digits + Ascii("&on=") + Ascii(if on then "true" else "false")
  }

  /** The path that asks how a switch is set. */
  ghost predicate AsksForStatus(path: Text, switchId: byte) {
    exists digits: Text :: Decimals.IsNumeral(digits, switchId) && path == Ascii("/rpc/Switch.GetStatus?id=") + digits
  }

  lemma PrefixesSpelled()
    ensures Ascii("/rpc/Switch.Set?id=") == SET_PREFIX && Ascii("&on=") == ON_PREFIX && Ascii("/rpc/Switch.GetStatus?id=") == STATUS_PREFIX
    ensures Ascii("true") == TRUE_TEXT && Ascii("false") == FALSE_TEXT
  {
    SetPrefixSpelled();
    StatusPrefixSpelled();
  }

  lemma SetPrefixSpelled()
    ensures Ascii("/rpc/Switch.Set?id=") == SET_PREFIX
  {
  }

  lemma StatusPrefixSpelled()
    ensures Ascii("/rpc/Switch.GetStatus?id=") == STATUS_PREFIX
  {
  }

  lemma PathsAsk(path: Text, switchId: byte, on: bool)
    ensures AsksToSet(path, switchId, on) <==> path == SetPath(switchId, on)
    ensures AsksForStatus(path, switchId) <==> path == StatusPath(switchId)
  {
    hide Ascii, Decimals.Decimal, Decimals.IsNumeral;
    PrefixesSpelled();
    Decimals.DecimalIsNumeral(switchId);
    forall digits: Text | Decimals.IsNumeral(digits, switchId) ensures digits == Decimals.Decimal(switchId) {
      Decimals.NumeralIsDecimal(digits, switchId);
    }
  }

  /** The set path asks for the very value whose rendering under "output" the confirmation then looks for. */
  lemma SetPathEndsInValue(switchId: byte, on: bool)
    ensures var path, value := SetPath(switchId, on), Render(if on then TrueValue else FalseValue);
            |value| + 4 <= |path| && path[|path| - |value| - 4..] == Ascii("&on=") + value
  {
    var path, value := SetPath(switchId, on), Render(if on then TrueValue else FalseValue);
    assert Ascii("&on=") == ON_PREFIX;
    assert path == (SET_PREFIX + Decimals.Decimal(switchId)) + (ON_PREFIX + value);
  }

  // ----- Usable replies -----

  /** A reply is usable exactly if the call succeeded with a 2xx status, the body leaves room for its terminator, and it parses. */
  lemma UsableReplies(reply: Reply)
    ensures Answered(reply) <==>
      && reply.result == Ok && reply.status / 100 == 2 && reply.length <= 511
      && exists d :: ValidDocument(d) && RenderDocument(d) == BodyText(reply) && Acceptable(d) && !Summary(d).hasError
  {
    hide ValidDocument, RenderDocument, Acceptable, Summary, BodyText;
    if Answered(reply) {
      var response :| Answers(reply, response);
    } else {
      forall d | ValidDocument(d) && RenderDocument(d) == BodyText(reply) && Acceptable(d) && !Summary(d).hasError
        ensures !(reply.result == Ok && reply.status / 100 == 2 && reply.length <= 511)
      {
        assert !Answers(reply, Summary(d));
      }
    }
  }

  /** A member of a response without white space. */
  function Member(key: string, value: Json): Document {
    Document([], Object(LastMember([], PlainUnits(Ascii(key)), [], [], value, [])), [])
  }

  function PlainUnits(text: Text): (units: seq<Unit>)
    ensures |units| == |text| && forall i | 0 <= i < |text| :: units[i] == Plain(text[i])
  {
    seq(|text|, i requires 0 <= i < |text| => Plain(text[i]))
  }

  lemma {:induction false} PlainIsItself(text: Text)
    ensures RenderUnits(PlainUnits(text)) == text
    decreases |text|
  {
    if text != [] {
      assert 0 !in text[1..];
      assert PlainUnits(text)[1..] == PlainUnits(text[1..]);
      PlainIsItself(text[1..]);
      assert text == [text[0]] + text[1..];
    }
  }

  /** What a device says when it answers a request. */
  function Said(body: string): Reply {
    Reply(Ok, 200, |body|, Ascii(body))
  }

  /** A device with one switch, at an address, that takes a while to answer. */
  datatype Device = Device(host: Text, port: u16, answersWithinMs: u32, switchId: byte, on: bool)

  /** It does what it is asked, reports how it is set, and knows no other paths; elsewhere, or too early, nobody answers. */
  ghost function Asked(device: Device, call: HttpGet): (Device, Reply) {
    if call.host != device.host || call.port != device.port || call.timeoutMs < device.answersWithinMs then
      (device, Reply(IrrigationResult.Timeout, 0, 0, []))
    else if AsksToSet(call.path, device.switchId, true) then (device.(on := true), Said("{\"was_on\":true}"))
    else if AsksToSet(call.path, device.switchId, false) then (device.(on := false), Said("{\"was_on\":true}"))
    else if AsksForStatus(call.path, device.switchId) then
      (device, Said(if device.on then "{\"output\":true}" else "{\"output\":false}"))
    else (device, Reply(Ok, 404, 0, []))
  }

  lemma SaidIsAnswered(body: string, key: string, value: Json)
    requires ValidUnits(PlainUnits(Ascii(key))) && (value.TrueValue? || value.FalseValue?) && |body| < 100
    requires Ascii(body) == Ascii("{\"") + Ascii(key) + Ascii("\":") + Render(value) + Ascii("}")
    requires Ascii(key) != Ascii("error")
    ensures Answers(Said(body), if Ascii(key) == Ascii("output") then Response(false, true, value.TrueValue?) else Response(false, false, false))
  {
    hide RenderUnits, CString;
    var d, text := Member(key, value), Ascii(body);
    PlainIsItself(Ascii(key));
    GrammarIsJson();
    CodecTheorems.CStringOfText(text);
    RenderedMember(key, value);
    MemberMeans(d.body.members);
    assert ValidJson(d.body) && ValidDocument(d) && Acceptable(d);
    assert BodyText(Said(body)) == text;
  }

  lemma MemberMeans(m: Members)
    requires m.LastMember? && ValidUnits(m.key) && (m.value.TrueValue? || m.value.FalseValue?)
    requires m.before == m.afterKey == m.beforeValue == m.after == []
    ensures ValidMembers(m) && OutputsBoolean(m)
    ensures OutputCount(m) == (if IsOutput(m.key) then 1 else 0)
    ensures HasError(m) <==> IsError(m.key)
    ensures OutputTrue(m) <==> IsOutput(m.key) && m.value.TrueValue?
  {
    hide RenderUnits;
  }

  lemma RenderedMember(key: string, value: Json)
    requires value.TrueValue? || value.FalseValue?
    ensures RenderDocument(Member(key, value)) == Ascii("{\"") + Ascii(key) + Ascii("\":") + Render(value) + Ascii("}")
  {
    hide RenderUnits;
    PlainIsItself(Ascii(key));
    GrammarIsJson();
    var m := Member(key, value).body.members;
    assert Ascii("{\"") == [OPEN_BRACE, QUOTE] && Ascii("\":") == [QUOTE, COLON] && Ascii("}") == [CLOSE_BRACE];
    PlainMember(m);
    var d := Member(key, value);
    assert RenderDocument(d) == [OPEN_BRACE] + RenderMembers(m) by { Surrounded(d); }
    assert RenderMembers(m) == ([QUOTE] + Ascii(key) + [QUOTE]) + ([COLON] + (Render(value) + [CLOSE_BRACE]));
  }

  lemma PlainMember(m: Members)
    requires m.LastMember? && m.before == m.afterKey == m.beforeValue == m.after == []
    ensures RenderMembers(m) == RenderString(m.key) + ([COLON] + (Render(m.value) + [CLOSE_BRACE]))
  {
    hide Render, RenderString;
    assert MembersTail(m) == [CLOSE_BRACE];
    assert FromValue(m) == Render(m.value) + ([] + [CLOSE_BRACE]);
    assert [] + [CLOSE_BRACE] == [CLOSE_BRACE];
    assert FromColon(m) == [COLON] + ([] + FromValue(m));
    assert [] + FromValue(m) == FromValue(m);
    assert FromKey(m) == RenderString(m.key) + ([] + FromColon(m));
    assert [] + FromColon(m) == FromColon(m);
    assert [] + FromKey(m) == FromKey(m);
  }

  lemma Surrounded(d: Document)
    requires d.before == d.after == [] && d.body.Object?
    ensures RenderDocument(d) == [OPEN_BRACE] + RenderMembers(d.body.members)
  {
    hide RenderMembers;
  }

  lemma OutputReplies()
    ensures Answers(Said("{\"output\":true}"), Response(false, true, true))
    ensures Answers(Said("{\"output\":false}"), Response(false, true, false))
  {
    hide Render, Answers, Ascii;
    PlainKey("output");
    TrueSpelled();
    FalseSpelled();
    BooleansRender();
    OutputIsNotError();
    SaidIsAnswered("{\"output\":true}", "output", TrueValue);
    SaidIsAnswered("{\"output\":false}", "output", FalseValue);
  }

  lemma OutputIsNotError()
    ensures Ascii("output") != Ascii("error")
  {
    assert |Ascii("output")| == 6 && |Ascii("error")| == 5;
  }

  lemma TrueSpelled()
    ensures Ascii("{\"output\":true}") == Ascii("{\"") + Ascii("output") + Ascii("\":") + TRUE_TEXT + Ascii("}")
  {
  }

  lemma FalseSpelled()
    ensures Ascii("{\"output\":false}") == Ascii("{\"") + Ascii("output") + Ascii("\":") + FALSE_TEXT + Ascii("}")
  {
  }

  lemma SetReply()
    ensures Answers(Said("{\"was_on\":true}"), Response(false, false, false))
  {
    hide Render, Answers;
    GrammarIsJson();
    PlainKey("was_on");
    assert Ascii("{\"was_on\":true}") == Ascii("{\"") + Ascii("was_on") + Ascii("\":") + TRUE_TEXT + Ascii("}");
    BooleansRender();
    assert Ascii("was_on")[0] == 0x77 && Ascii("output")[0] == 0x6f && Ascii("error")[0] == 0x65;
    SaidIsAnswered("{\"was_on\":true}", "was_on", TrueValue);
  }

  lemma BooleansRender()
    ensures Render(TrueValue) == TRUE_TEXT && Render(FalseValue) == FALSE_TEXT
  {
  }

  lemma PlainKey(key: string)
    requires forall i | 0 <= i < |key| :: 'a' <= key[i] <= 'z' || key[i] == '_'
    ensures ValidUnits(PlainUnits(Ascii(key)))
  {
  }

  /**
   Asked to open or to close, the driver brings an obedient device that answers in time into that state and answers OK; the same
   replies never confirm the other state.
   */
  lemma ObedientDeviceConfirms(driver: ShellyMasterValveDriver, device: Device, output: bool)
    requires driver.configured && device.host == driver.host && device.port == driver.port && device.switchId == driver.switchId
    requires device.answersWithinMs <= driver.timeoutMs
    ensures var (moved, first) := Asked(device, driver.Call(SetPath(driver.switchId, output)));
            var (after, second) := Asked(moved, driver.Call(StatusPath(driver.switchId)));
            && after == device.(on := output)
            && driver.SetResult(output, first, second) == Ok
            && driver.SetResult(!output, first, second) == InternalError
  {
    hide Answers, AsksToSet, AsksForStatus, Said;
    var id := driver.switchId;
    PathsAsk(SetPath(id, output), id, true);
    PathsAsk(SetPath(id, output), id, false);
    PathsAsk(StatusPath(id), id, true);
    PathsAsk(StatusPath(id), id, false);
    PathsFit(id, id, output, !output);
    PathsFit(id, id, true, false);
    PathsFit(id, id, false, true);
    OutputReplies();
    SetReply();
    var (moved, first) := Asked(device, driver.Call(SetPath(id, output)));
    var (after, second) := Asked(moved, driver.Call(StatusPath(id)));
    assert Answers(second, Response(false, true, output));
    OneAnswer(second, Response(false, true, output));
  }

  /** What the answer is when something goes wrong: the transport's own failure, or an internal error for an unusable reply. */
  lemma FailuresMean(driver: ShellyMasterValveDriver, output: bool, first: Reply, second: Reply)
    ensures !driver.configured ==> driver.SetResult(output, first, second) == Rejected
    ensures driver.configured && first.result != Ok ==> driver.SetResult(output, first, second) == first.result
    ensures driver.configured && first.result == Ok && !Answered(first) ==> driver.SetResult(output, first, second) == InternalError
    ensures driver.configured && Answered(first) && second.result != Ok ==> driver.SetResult(output, first, second) == second.result
    ensures driver.configured && Answered(first) && second.result == Ok && !Answered(second) ==>
              driver.SetResult(output, first, second) == InternalError
  {
    UsableReplies(first);
    UsableReplies(second);
    if response :| Answers(second, response) { OneAnswer(second, response); }
  }
}
