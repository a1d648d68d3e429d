/** The Shelly master valve driver: two HTTP requests, of which the second must confirm the first. */
module ShellyDriver {
  import opened Bytes
  import opened Common
  import opened Decimals
  import opened ShellyGrammar
  import opened ShellyParser
  import opened ShellyMethods
  import opened ShellyResponse

  const RESPONSE_CAPACITY: nat := 512

  const HOST_CAPACITY: nat := 64
  const PATH_CAPACITY: nat := 80

  /** "/rpc/Switch.Set?id=", "&on=" and "/rpc/Switch.GetStatus?id=". */
  const SET_PREFIX: Text := [0x2f, 0x72, 0x70, 0x63, 0x2f, 0x53, 0x77, 0x69, 0x74, 0x63, 0x68, 0x2e, 0x53, 0x65, 0x74, 0x3f, 0x69, 0x64, 0x3d]
  const ON_PREFIX: Text := [0x26, 0x6f, 0x6e, 0x3d]
  const STATUS_PREFIX: Text := [0x2f, 0x72, 0x70, 0x63, 0x2f, 0x53, 0x77, 0x69, 0x74, 0x63, 0x68, 0x2e, 0x47, 0x65, 0x74, 0x53, 0x74, 0x61, 0x74, 0x75, 0x73, 0x3f, 0x69, 0x64, 0x3d]

  function SetPath(switchId: byte, on: bool): Text {
    SET_PREFIX + Decimal(switchId) + ON_PREFIX + if on then TRUE_TEXT else FALSE_TEXT
  }

  function StatusPath(switchId: byte): Text {
    STATUS_PREFIX + Decimal(switchId)
  }

  lemma DigitsOfByte(n: byte)
    ensures |Decimal(n)| <= 3
  {
    assert n < 100 ==> n / 10 < 10;
    assert |Decimal(n / 10)| <= 2 by {
      assert n / 10 / 10 < 10;
      assert Decimal(n / 10) == if n / 10 < 10 then [0x30 + n / 10] else Decimal(n / 10 / 10) + [0x30 + n / 10 % 10];
    }
  }

  /** The buffer for paths is never too small, and a path tells which switch it is for and what is asked of it. */
  lemma PathsFit(switchId: byte, other: byte, on: bool, also: bool)
    ensures |SetPath(switchId, on)| < PATH_CAPACITY && |StatusPath(switchId)| < PATH_CAPACITY
    ensures SetPath(switchId, on) == SetPath(switchId, also) ==> on == also
    ensures StatusPath(switchId) == StatusPath(other) ==> switchId == other
    ensures SetPath(switchId, on) != StatusPath(other)
  {
    DigitsOfByte(switchId);
    assert |TRUE_TEXT| != |FALSE_TEXT|;
    if StatusPath(switchId) == StatusPath(other) {
      assert Decimal(switchId) == StatusPath(switchId)[|STATUS_PREFIX|..] && Decimal(other) == StatusPath(other)[|STATUS_PREFIX|..];
      DecimalIsInjective(switchId, other);
    }
    assert SetPath(switchId, on)[12] == 0x53 && StatusPath(other)[12] == 0x47;
  }

  /** One request to a device. */
  datatype HttpGet = HttpGet(host: Text, port: u16, path: Text, timeoutMs: u32)

  /** What a transport call reports: its result, and on success the status, the reported length and the bytes in the buffer. */
  datatype Reply = Reply(result: IrrigationResult, status: int, length: nat, body: seq<byte>)

  /** The characters of a body up to its first NUL, as the parser sees them. */
  function BodyText(reply: Reply): Text {
    CString(if reply.length <= |reply.body| then reply.body[..reply.length] else reply.body)
  }

  /** A usable reply: a success status, a body that fits with its terminator, and a response object without "error". */
  ghost predicate Answers(reply: Reply, response: Response) {
    && reply.result == Ok && 200 <= reply.status < 300 && reply.length < RESPONSE_CAPACITY
    && !response.hasError
    && exists d :: ValidDocument(d) && RenderDocument(d) == BodyText(reply) && Acceptable(d) && Summary(d) == response
  }

  ghost predicate Answered(reply: Reply) {
    exists response :: Answers(reply, response)
  }

  function FailureOf(reply: Reply): IrrigationResult {
    if reply.result != Ok then reply.result else InternalError
  }

  ghost predicate Confirms(reply: Reply, output: bool) {
    exists response :: Answers(reply, response) && response.hasOutput && response.output == output
  }

  /** A transport whose n-th call gives the n-th reply. */
  class Transport {
    const behaviour: nat -> Reply
    var calls: seq<HttpGet>

    constructor (behaviour: nat -> Reply)
      ensures this.behaviour == behaviour && calls == []
    {
      this.behaviour := behaviour;
      calls := [];
    }

    method Get(call: HttpGet) returns (reply: Reply)
      modifies this
      ensures calls == old(calls) + [call] && reply == behaviour(|old(calls)|)
    {
      reply := behaviour(|calls|);
      calls := calls + [call];
    }
  }

  class ShellyMasterValveDriver {
    const transport: Transport
    const host: Text
    const port: u16
    const switchId: byte
    const timeoutMs: u32
    const configured: bool

    /** Configured with a host that fits its buffer, a port and a timeout. */
    constructor (transport: Transport, host: Text, port: u16, switchId: byte, timeoutMs: u32)
      ensures configured <==> host != [] && |host| < HOST_CAPACITY && port != 0 && timeoutMs != 0
      ensures configured ==> this.host == host
      ensures this.transport == transport && this.port == port && this.switchId == switchId && this.timeoutMs == timeoutMs
    {
      this.transport, this.port, this.switchId, this.timeoutMs := transport, port, switchId, timeoutMs;
      var usable := host != [] && |host| < HOST_CAPACITY && port != 0 && timeoutMs != 0;
      this.host := if usable then host else [];
      configured := usable;
    }

    function Call(path: Text): HttpGet {
      HttpGet(host, port, path, timeoutMs)
    }

    method Request(path: Text) returns (result: IrrigationResult, response: Response)
      modifies transport
      ensures transport.calls == old(transport.calls) + [Call(path)]
      ensures var reply := transport.behaviour(|old(transport.calls)|);
              && (result == Ok ==> Answers(reply, response))
              && (result != Ok ==> !Answered(reply) && result == FailureOf(reply))
    {
      hide ParseResponse, ValidDocument, RenderDocument, Acceptable, Summary;
      response := Response(false, false, false);
      var reply := transport.Get(Call(path));
      if reply.result != Ok { return reply.result, response; }
      if reply.status < 200 || reply.status >= 300 || reply.length >= RESPONSE_CAPACITY {
        return InternalError, response;
      }
      var parsed := ParseShellyResponse(BodyText(reply));
      forall r { ParseResponseIsExact(BodyText(reply), r); }
      if parsed.None? || parsed.value.hasError { return InternalError, response; }
      return Ok, parsed.value;
    }

    /** What the two replies make of a set: OK only for a status that reports what was asked for. */
    ghost function SetResult(output: bool, first: Reply, second: Reply): IrrigationResult {
      if !configured then Rejected
      else if !Answered(first) then FailureOf(first)
      else if Confirms(second, output) then Ok
      else if Answered(second) then InternalError
      else FailureOf(second)
    }

    /** An unconfigured driver sends nothing, and an unanswered set request is not followed by another. */
    method SetAndConfirm(output: bool) returns (result: IrrigationResult)
      modifies transport
      ensures var first, second := transport.behaviour(|old(transport.calls)|), transport.behaviour(|old(transport.calls)| + 1);
              && result == SetResult(output, first, second)
              && transport.calls == old(transport.calls) +
                 (if !configured then [] else if !Answered(first) then [Call(SetPath(switchId, output))]
                  else [Call(SetPath(switchId, output)), Call(StatusPath(switchId))])
    {
      hide Answers;
      if !configured { return Rejected; }
      var response;
      result, response := Request(SetPath(switchId, output));
      if result != Ok { return; }
      ghost var reply := transport.behaviour(|transport.calls|);
      result, response := Request(StatusPath(switchId));
      if result == Ok { OneAnswer(reply, response); }
      if result != Ok || !response.hasOutput || response.output != output {
        return if result == Ok then InternalError else result;
      }
      return Ok;
    }

    /** A set is OK exactly when the device confirmed it, and every failure has its own result. */
    lemma ConfirmedExactly(output: bool, first: Reply, second: Reply)
      ensures SetResult(output, first, second) == Ok <==> configured && Answered(first) && Confirms(second, output)
      ensures Confirms(second, output) ==> !Confirms(second, !output)
    {
      hide Answers;
      if response :| Answers(second, response) { OneAnswer(second, response); }
    }
  }

  /** A reply has at most one answer. */
  lemma OneAnswer(reply: Reply, response: Response)
    requires Answers(reply, response)
    ensures forall r :: Answers(reply, r) ==> r == response
  {
    hide ParseResponse, ValidDocument, RenderDocument, Acceptable, Summary;
    ParseResponseIsExact(BodyText(reply), response);
    forall r | Answers(reply, r) ensures r == response {
      ParseResponseIsExact(BodyText(reply), r);
    }
  }
}
