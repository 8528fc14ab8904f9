/** The pure decisions of the broker-side handler: the topics, truncation of
    inbound messages, what a property-set command is answered with, how the
    set-reply document is built, and which device action each property value
    leads to. The handler class in module Mqtt performs them. */
module PropertySet {
  import opened Wrappers
  import opened Strings
  import opened Documents

  /** Thing-model topics of the device "Carrier" in product "wyAD40JBtZ". */
  const PostTopic: string := "$sys/wyAD40JBtZ/Carrier/thing/property/post"
  const SetTopic: string := "$sys/wyAD40JBtZ/Carrier/thing/property/set"
  const SetReplyTopic: string := "$sys/wyAD40JBtZ/Carrier/thing/property/set_reply"

  const DeviceId: string := "Carrier"
  const DeviceName: string := "我的ESP8266设备"

  /** Inbound payloads longer than this are cut and marked. Payload text is
      modelled one character per byte, so the limit counts characters here;
      the marker, 13 characters, is 29 bytes in the device's UTF-8. */
  const MaxMessageLength: nat := 100
  const TruncationMarker: string := "...(消息过长，已截断)"

  const ParseFailureMessage: string := "JSON解析失败"
  const MissingParamsMessage: string := "缺少params参数"
  const SuccessMessage: string := "success"

  // ------------------------------------------------------- inbound messages

  /** The payload text the callback passes on: at most the first
      `MaxMessageLength` bytes, followed by the marker when bytes were cut. */
  function TruncatePayload(payload: string): (r: string)
  {
    if |payload| > MaxMessageLength then payload[..MaxMessageLength] + TruncationMarker
    else payload
  }

  /** A payload within the limit passes unchanged; a longer one keeps exactly
      its first `MaxMessageLength` bytes and ends with the marker, so the text
      handed on is never longer than the limit plus the marker. */
  lemma TruncateKeepsPrefix(payload: string)
    ensures |payload| <= MaxMessageLength ==> TruncatePayload(payload) == payload
    ensures |payload| > MaxMessageLength ==>
      var r := TruncatePayload(payload);
      |r| == MaxMessageLength + |TruncationMarker|
      && r[..MaxMessageLength] == payload[..MaxMessageLength]
      && r[MaxMessageLength..] == TruncationMarker
    ensures |TruncatePayload(payload)| <= MaxMessageLength + |TruncationMarker|
  {
  }

  // ------------------------------------------------------ set-reply documents

  /** What a set command is answered with, before the document is built. */
  datatype ReplyRequest = ReplyRequest(requestId: string, code: int, message: string)

  /** The answer to a decoded command: 400 when it did not parse (with no id),
      400 when `params` is missing (with the decoded id or ""), else 200. */
  function CommandReply(cmd: Command): (r: ReplyRequest)
    ensures r.code == 200 <==> cmd.Decoded? && cmd.params.Some?
    ensures r.code != 200 ==> r.code == 400
    ensures cmd.ParseError? ==> r.requestId == []
    ensures cmd.Decoded? ==> r.requestId == cmd.id.GetOr([])
  {
    match cmd
    case ParseError => ReplyRequest([], 400, ParseFailureMessage)
    case Decoded(id, params) =>
      if params.None? then ReplyRequest(id.GetOr([]), 400, MissingParamsMessage)
      else ReplyRequest(id.GetOr([]), 200, SuccessMessage)
  }

  /** The property pairs a command dispatches, in document order: all of
      `params` when the command is answered 200, and none otherwise. */
  function CommandParams(cmd: Command): (ps: seq<(string, JsonValue)>)
    ensures ps != [] ==> CommandReply(cmd).code == 200
    ensures CommandReply(cmd).code == 200 ==> ps == cmd.params.value
    ensures CommandReply(cmd).code != 200 ==> ps == []
  {
    if cmd.Decoded? && cmd.params.Some? then cmd.params.value else []
  }

  /** The set-reply document. An empty request id is replaced by the decimal
      clock; code 200 carries the fixed message "success" and a data object
      echoing `message`; other codes carry `message` and no data. */
  function BuildReply(requestId: string, code: int, message: string, now: nat): (r: Reply)
    ensures r.id != [] && r.code == code
    ensures r.data.Some? <==> code == 200
  {
    var id := if |requestId| > 0 then requestId else NatToString(now);
    if code == 200 then
      Reply(id, code, SuccessMessage, Some(ReplyData(message, DeviceStatus(DeviceName, now / 1000))))
    else
      Reply(id, code, message, None)
  }

  /** The reply echoes a non-empty request id; otherwise its id reads back as
      the clock value. Code 200 replies echo the message as `data.result`. */
  lemma ReplyIdentity(requestId: string, code: int, message: string, now: nat)
    ensures var r := BuildReply(requestId, code, message, now);
      && (requestId != [] ==> r.id == requestId)
      && (requestId == [] ==> AllDigits(r.id) && DigitsValue(r.id) == now)
      && (code == 200 ==> r.message == SuccessMessage && r.data.value.result == message
                          && r.data.value.deviceStatus.uptime == now / 1000)
      && (code != 200 ==> r.message == message)
  {
    DigitsRoundTrip(now);
  }

  // ---------------------------------------------------------------- dispatch

  datatype Level = Low | High

  /** The effect of one property: a write to the LED pin, a framed packet to
      the co-processor on the serial line, an unknown-property notice, or
      nothing for value types the dispatcher does not handle. */
  datatype Action = WritePin(level: Level) | Packet(frame: string) | Unknown | Ignored

  /** The packet frame `<CYZ:body:CYZ>` the co-processor understands. */
  function Frame(body: string): string {
    "<CYZ:" + body + ":CYZ>"
  }

  /** Recovers the body of a frame; the co-processor's view of a packet. */
  function Unframe(frame: string): Option<string> {
    if |frame| >= 10 && frame[..5] == "<CYZ:" && frame[|frame| - 5..] == ":CYZ>"
    then Some(frame[5..|frame| - 5])
    else None
  }

  lemma FrameRoundTrip(body: string)
    ensures Unframe(Frame(body)) == Some(body)
  {
    var f := Frame(body);
    assert f[..5] == "<CYZ:" && f[|f| - 5..] == ":CYZ>" && f[5..|f| - 5] == body;
  }

  predicate IsLedName(name: string) { name == "LED" || name == "Switch" }

  /** The texts that switch the LED on. */
  predicate IsOnText(value: string) {
    value == "on" || value == "true" || value == "1" || value == "HIGH"
  }

  /** `handleDeviceProperty`: the scalar path. Only the exact names "LED" and
      "Switch" act, and the LED (active low) is driven Low when the value
      means on and High otherwise. */
  function ScalarAction(name: string, value: string): (r: Action)
    ensures r.WritePin? <==> IsLedName(name)
    ensures !IsLedName(name) ==> r == Unknown
    ensures r.WritePin? ==> (r.level == Low <==> IsOnText(value))
  {
    if IsLedName(name) then WritePin(if IsOnText(value) then Low else High) else Unknown
  }

  predicate IsPacketName(name: string) {
    name == "Upload_Data" || name == "Command" || name == "Control"
  }

  /** `handleDeviceProperty_String`: the string path. "Upload_Data" sends the
      upload packet for "Upload_on" and an unknown-command packet otherwise;
      "Command" and "Control" forward the value in a frame. The device prints
      each frame inside a log line with a text prefix; only the frame is
      modelled. */
  function StringAction(name: string, value: string): (r: Action)
    ensures r.Packet? <==> IsPacketName(name)
    ensures !IsPacketName(name) ==> r == Unknown
    ensures name == "Upload_Data" ==>
      Unframe(r.frame) == Some(if value == "Upload_on" then value else "unknown_command")
    ensures name == "Command" || name == "Control" ==> Unframe(r.frame) == Some(value)
  {
    if name == "Upload_Data" then
      var body := if value == "Upload_on" then value else "unknown_command";
      FrameRoundTrip(body);
      Packet(Frame(body))
    else if name == "Command" || name == "Control" then
      FrameRoundTrip(value);
      Packet(Frame(value))
    else
      Unknown
  }

  function BoolText(b: bool): string { if b then "true" else "false" }

  /** `processPropertySetValue`: strings take the string path; integers,
      floats and booleans are rendered as text and take the scalar path; any
      other value is ignored. */
  function RouteValue(name: string, value: JsonValue): Action {
    match value
    case JString(s) => StringAction(name, s)
    case JInt(i) => ScalarAction(name, IntToString(i))
    case JFloat(text) => ScalarAction(name, text)
    case JBool(b) => ScalarAction(name, BoolText(b))
    case JOther => Ignored
  }

  /** The pin is written exactly for the LED names with a scalar value: a
      string value, even "on" for "LED", never reaches the pin. */
  lemma PinWrittenOnlyForLedScalars(name: string, value: JsonValue)
    ensures RouteValue(name, value).WritePin? <==>
      IsLedName(name) && (value.JInt? || value.JFloat? || value.JBool?)
  {
  }

  /** The level an LED property drives, by value type: a boolean is on when
      true, an integer exactly when it is 1, a float when its text means on.
      The device renders a float with two decimals, and text holding a '.'
      never means on, so in practice a float always drives the pin High. */
  lemma LedLevel(name: string, value: JsonValue)
    requires IsLedName(name)
    ensures value.JBool? ==> RouteValue(name, value) == WritePin(if value.b then Low else High)
    ensures value.JInt? ==> RouteValue(name, value) == WritePin(if value.i == 1 then Low else High)
    ensures value.JFloat? ==> RouteValue(name, value) == WritePin(if IsOnText(value.text) then Low else High)
    ensures value.JFloat? && '.' in value.text ==> RouteValue(name, value) == WritePin(High)
  {
    if value.JInt? {
      var t := IntToString(value.i);
      assert IntToString(1) == "1";
      if t == "1" {
        IntToStringInjective(value.i, 1);
      }
      assert t[0] == '-' || IsDigit(t[0]);
      assert IsOnText(t) <==> t == "1";
    }
  }

  /** "Command" and "Control" forward a string value verbatim. */
  lemma ForwardVerbatim(name: string, s: string)
    requires name == "Command" || name == "Control"
    ensures RouteValue(name, JString(s)).Packet?
    ensures Unframe(RouteValue(name, JString(s)).frame) == Some(s)
  {
    FrameRoundTrip(s);
  }
}
