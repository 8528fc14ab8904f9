/** The JSON documents the device exchanges with the broker, as structured
    values. Parsing and serialising them is done by the JSON library and is
    not modelled: a payload on the wire stands for the document it encodes. */
module Documents {
  import opened Wrappers
  import opened Strings

  /** A member value of a decoded document, as the JSON library classifies it
      (`is<const char*>`, `is<int>`, `is<float>`, `is<bool>`); `JOther` is
      null, an array or an object. Float values keep the text the device
      would render for them, which is not modelled further. */
  datatype JsonValue =
    | JString(s: string)
    | JInt(i: int)
    | JFloat(text: string)
    | JBool(b: bool)
    | JOther

  /** An inbound property-set message after decoding: either malformed, or a
      document with an optional string `id` and an optional `params` object
      whose members come in document order. A `params` member that is not an
      object iterates as no members, so the decoder gives `Some([])` for it. */
  datatype Command =
    | ParseError
    | Decoded(id: Option<string>, params: Option<seq<(string, JsonValue)>>)

  /** The value type a telemetry entry is given when it is encoded. */
  datatype TypedValue = IntValue(n: int) | FloatValue(text: string) | StringValue(s: string)

  /** The property-post document: `{"id", "version", "params": {key: {"value"}}}`,
      with the params in buffer order. */
  datatype Telemetry = Telemetry(id: string, version: string, params: seq<(string, TypedValue)>)

  datatype DeviceStatus = DeviceStatus(deviceName: string, uptime: nat)

  datatype ReplyData = ReplyData(result: string, deviceStatus: DeviceStatus)

  /** The set-reply document: `{"id", "code", "message"}` and, only for code
      200, `"data": {"result", "deviceStatus"}`. */
  datatype Reply = Reply(id: string, code: int, message: string, data: Option<ReplyData>)

  /** What a publish carries. */
  datatype Payload =
    | ReplyPayload(reply: Reply)
    | TelemetryPayload(telemetry: Telemetry)
    | HeartbeatPayload(deviceId: string, status: string, timestamp: nat)
}
