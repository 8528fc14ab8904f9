/** The serial-line handler: characters from the co-processor are collected
    into lines; in normal mode a line is a command, in upload mode it is a
    key/value record, `END` (publish the collected records) or `CANCEL`.

    The specification functions describe one character, one line and a whole
    input chunk as transitions of `SerialState`; the `SerialHandler` class
    performs them on its fields and is proved against them. The clock is
    passed in as `now`, and the serial port as the input characters; the
    handler's console output is not modelled. */
module Serial {
  import opened Wrappers
  import opened Strings
  import opened Documents
  import opened KeyValue
  import opened PropertySet
  import Mqtt

  datatype DataReceiveState = NormalMode | UploadDataMode

  /** The handler's own fields. */
  datatype SerialState = SerialState(
    serialBuffer: string,
    currentState: DataReceiveState,
    dataBuffer: seq<KeyValueData>,
    uploadStartTime: nat)

  /** What the handler keeps true: every collected record is marked valid,
      and the upload start time, though assigned, is always cleared again. */
  predicate Inv(s: SerialState) {
    AllValid(s.dataBuffer) && s.uploadStartTime == 0
  }

  // -------------------------------------------------------- line commands

  /** The normal-mode commands, compared case-sensitively after trimming. */
  datatype SerialCommand = UploadData | GetTime | Status | Help | UnknownCommand

  function ParseSerialCommand(line: string): SerialCommand {
    var t := Trim(line);
    if t == "UPLOAD_DATA" then UploadData
    else if t == "GET_TIME" then GetTime
    else if t == "STATUS" then Status
    else if t == "HELP" then Help
    else UnknownCommand
  }

  /** An upload-mode line: `END` and `CANCEL` in any letter case, otherwise
      a record carrying the trimmed text. */
  datatype UploadLine = EndLine | CancelLine | RecordLine(text: string)

  function ParseUploadLine(line: string): UploadLine {
    var t := Trim(line);
    if EqualsIgnoreCase(t, "END") then EndLine
    else if EqualsIgnoreCase(t, "CANCEL") then CancelLine
    else RecordLine(t)
  }

  // ------------------------------------------------------------ transitions

  /** `clearDataBuffer`. */
  function ClearData(s: SerialState): SerialState {
    s.(dataBuffer := [], uploadStartTime := 0)
  }

  /** `processUploadDataCommand`: enter upload mode, stamp the start time,
      then clear the buffer (which zeroes the stamp again). */
  function StartUpload(s: SerialState, now: nat): SerialState {
    ClearData(s.(currentState := UploadDataMode, uploadStartTime := now))
  }

  /** `processSerialCommand`: only `UPLOAD_DATA` changes state; the other
      commands only print. */
  function CommandEffect(s: SerialState, line: string, now: nat): SerialState {
    if ParseSerialCommand(line) == UploadData then StartUpload(s, now) else s
  }

  /** `processKeyValueData`: a valid record is appended, an invalid one is
      dropped. There is no capacity limit. */
  function RecordEffect(s: SerialState, text: string): SerialState {
    var parsed := ParseKeyValue(text);
    if parsed.None? then s
    else s.(dataBuffer := s.dataBuffer + [KeyValueData(parsed.value.key, parsed.value.value, true)])
  }

  /** The result of handling one line: the new state and the property-post
      document published, if any. */
  datatype Step = Step(state: SerialState, upload: Option<Telemetry>)

  /** `processEndCommand`; `linked` says whether a broker handler is set.
      With no records nothing happens (the mode stays upload); with no handler
      nothing happens either; otherwise the records are published once and
      the mode returns to normal. The records are kept in every case. */
  function EndEffect(s: SerialState, linked: bool, now: nat): Step {
    if s.dataBuffer == [] then Step(s, None)
    else if !linked then Step(s, None)
    else Step(s.(currentState := NormalMode), Some(GenerateJsonPayload(s.dataBuffer, now)))
  }

  /** `processCancelCommand`. */
  function CancelEffect(s: SerialState): SerialState {
    ClearData(s).(currentState := NormalMode)
  }

  /** One complete line (terminator included) dispatched by mode. */
  function LineEffect(s: SerialState, line: string, linked: bool, now: nat): Step {
    if s.currentState == UploadDataMode then
      match ParseUploadLine(line)
      case EndLine => EndEffect(s, linked, now)
      case CancelLine => Step(CancelEffect(s), None)
      case RecordLine(t) => Step(RecordEffect(s, t), None)
    else
      Step(CommandEffect(s, line, now), None)
  }

  predicate IsTerminator(c: char) { c == '\n' || c == '\r' }

  /** One character read by `readSerialData`: it is appended to the line
      buffer; on a terminator the buffer is dispatched when it holds more
      than the terminator alone, and is then emptied. */
  function CharEffect(s: SerialState, c: char, linked: bool, now: nat): (r: Step)
    ensures IsTerminator(c) ==> r.state.serialBuffer == []
    ensures !IsTerminator(c) ==> r == Step(s.(serialBuffer := s.serialBuffer + [c]), None)
  {
    var buffer := s.serialBuffer + [c];
    if !IsTerminator(c) then Step(s.(serialBuffer := buffer), None)
    else if |buffer| > 1 then
      var r := LineEffect(s.(serialBuffer := buffer), buffer, linked, now);
      Step(r.state.(serialBuffer := []), r.upload)
    else Step(s.(serialBuffer := []), None)
  }

  function OptionSeq<T>(o: Option<T>): (r: seq<T>)
    ensures |r| <= 1
  {
    if o.Some? then [o.value] else []
  }

  /** The state after a chunk of input, and the documents published for it
      in order. */
  datatype Fed = Fed(state: SerialState, uploads: seq<Telemetry>)

  function Feed(s: SerialState, input: string, linked: bool, now: nat): Fed
    decreases |input|
  {
    if input == [] then Fed(s, [])
    else
      var prior := Feed(s, input[..|input| - 1], linked, now);
      var r := CharEffect(prior.state, input[|input| - 1], linked, now);
      Fed(r.state, prior.uploads + OptionSeq(r.upload))
  }

  /** The broker handler's state after publishing `uploads` to the post topic
      one after the other, without queueing permission. */
  function UploadAll(m: Mqtt.MqttState, uploads: seq<Telemetry>, now: nat): (r: Mqtt.MqttState)
    requires 0 <= m.retry <= Mqtt.ImmediateRetryLimit
    ensures 0 <= r.retry <= Mqtt.ImmediateRetryLimit
    decreases |uploads|
  {
    if uploads == [] then m
    else
      var prior := UploadAll(m, uploads[..|uploads| - 1], now);
      Mqtt.PublishSpec(prior, PostTopic, TelemetryPayload(uploads[|uploads| - 1]), false, now).state
  }

  // ---------------------------------------------------------------- lemmas

  /** Every line transition keeps the handler's invariant. */
  lemma LineKeepsInv(s: SerialState, line: string, linked: bool, now: nat)
    requires Inv(s)
    ensures Inv(LineEffect(s, line, linked, now).state)
  {
    if s.currentState == UploadDataMode && ParseUploadLine(line).RecordLine? {
      var parsed := ParseKeyValue(ParseUploadLine(line).text);
      if parsed.Some? {
        AppendValid(s.dataBuffer, KeyValueData(parsed.value.key, parsed.value.value, true));
      }
    }
  }

  /** So does every input chunk. */
  lemma {:induction false} FeedKeepsInv(s: SerialState, input: string, linked: bool, now: nat)
    requires Inv(s)
    ensures Inv(Feed(s, input, linked, now).state)
    decreases |input|
  {
    if input != [] {
      var prior := Feed(s, input[..|input| - 1], linked, now);
      FeedKeepsInv(s, input[..|input| - 1], linked, now);
      var c := input[|input| - 1];
      if IsTerminator(c) && |prior.state.serialBuffer + [c]| > 1 {
        LineKeepsInv(prior.state.(serialBuffer := prior.state.serialBuffer + [c]),
                     prior.state.serialBuffer + [c], linked, now);
      }
    }
  }

  /** In normal mode a line never publishes, and it changes the state
      exactly when it is `UPLOAD_DATA`; the upload then starts with an empty
      buffer and a start time of 0, whatever the clock says. */
  lemma NormalModeLine(s: SerialState, line: string, linked: bool, now: nat)
    requires s.currentState == NormalMode
    ensures var r := LineEffect(s, line, linked, now);
      && r.upload.None?
      && (r.state != s <==> ParseSerialCommand(line) == UploadData)
      && (ParseSerialCommand(line) == UploadData ==>
            r.state.currentState == UploadDataMode && r.state.dataBuffer == []
            && r.state.uploadStartTime == 0 && r.state.serialBuffer == s.serialBuffer)
  {
  }

  /** White space at the end of a line, such as its terminator, does not
      change how the line is read in either mode. */
  lemma TrailingSpaceIgnored(line: string, c: char)
    requires IsSpace(c)
    ensures ParseSerialCommand(line + [c]) == ParseSerialCommand(line)
    ensures ParseUploadLine(line + [c]) == ParseUploadLine(line)
  {
    TrimDropsTrailingSpace(line, c);
  }

  /** Normal-mode commands are case-sensitive: a line changes the state
      only when its trimmed text is exactly `UPLOAD_DATA`, so `upload_data`
      is an unknown command. */
  lemma CommandsAreCaseSensitive(s: SerialState, line: string, now: nat)
    ensures Trim(line) != "UPLOAD_DATA" ==> CommandEffect(s, line, now) == s
    ensures Trim(line) == "UPLOAD_DATA" ==> CommandEffect(s, line, now) == StartUpload(s, now)
    ensures ParseSerialCommand("upload_data\r") == UnknownCommand
  {
    TrimDropsTrailingSpace("upload_data", '\r');
    TrimUnpadded("upload_data");
  }

  /** Upload-mode keywords are not: any line whose trimmed text equals
      `END` or `CANCEL` up to letter case is that keyword, so `end` ends the
      upload. */
  lemma KeywordsIgnoreCase(line: string)
    ensures EqualsIgnoreCase(Trim(line), "END") ==> ParseUploadLine(line) == EndLine
    ensures EqualsIgnoreCase(Trim(line), "CANCEL") ==> ParseUploadLine(line) == CancelLine
    ensures !EqualsIgnoreCase(Trim(line), "END") && !EqualsIgnoreCase(Trim(line), "CANCEL") ==>
      ParseUploadLine(line) == RecordLine(Trim(line))
    ensures ParseUploadLine("end\n") == EndLine
  {
    assert !EqualsIgnoreCase("END", "CANCEL");
    TrimDropsTrailingSpace("end", '\n');
    TrimUnpadded("end");
  }

  /** A line holding '=' is never taken for `END` or `CANCEL`. */
  lemma SeparatorNotKeyword(t: string, i: nat)
    requires i < |t| && t[i] == '='
    ensures !EqualsIgnoreCase(t, "END") && !EqualsIgnoreCase(t, "CANCEL")
  {
    if |t| == 3 {
      assert ToLower(t[i]) != ToLower("END"[i]);
    }
    if |t| == 6 {
      assert ToLower(t[i]) != ToLower("CANCEL"[i]);
    }
  }

  lemma TrimRecordLine(key: string, value: string, c: char)
    requires ValidKey(key) && Unpadded(value) && IsSpace(c)
    ensures Trim(key + "=" + value + [c]) == key + "=" + value
  {
    var t := key + "=" + value;
    assert !IsSpace(key[0]) by {
      KeyCharsEverywhere(key);
      assert IsKeyChar(key[0]);
    }
    assert Unpadded(t) by {
      assert t[0] == key[0];
      assert t[|t| - 1] == if value == [] then '=' else value[|value| - 1];
    }
    assert key + "=" + value + [c] == t + [c];
    TrimDropsTrailingSpace(t, c);
    TrimUnpadded(t);
  }

  /** In upload mode, a line `key=value` is read as a record carrying
      exactly that text. */
  lemma RecordLineRead(key: string, value: string, c: char)
    requires ValidKey(key) && Unpadded(value) && IsTerminator(c)
    ensures ParseUploadLine(key + "=" + value + [c]) == RecordLine(key + "=" + value)
  {
    var t := key + "=" + value;
    TrimRecordLine(key, value, c);
    assert t[|key|] == '=';
    SeparatorNotKeyword(t, |key|);
  }

  /** In upload mode, the line `key=value` (with any terminator) appends
      exactly the record (key, value), valid, at the back of the buffer,
      however many records it already holds. */
  lemma RecordLineAppends(s: SerialState, key: string, value: string, c: char, linked: bool, now: nat)
    requires s.currentState == UploadDataMode
    requires ValidKey(key) && Unpadded(value) && IsTerminator(c)
    ensures LineEffect(s, key + "=" + value + [c], linked, now)
      == Step(s.(dataBuffer := s.dataBuffer + [KeyValueData(key, value, true)]), None)
  {
    RecordLineRead(key, value, c);
    KeyValueRoundTrip(key, value, '=');
    RecordLineEffect(s, key + "=" + value + [c], key + "=" + value, Parsed(key, value, '='), linked, now);
  }

  lemma RecordLineEffect(s: SerialState, line: string, t: string, p: Parsed, linked: bool, now: nat)
    requires s.currentState == UploadDataMode
    requires ParseUploadLine(line) == RecordLine(t) && ParseKeyValue(t) == Some(p)
    ensures LineEffect(s, line, linked, now)
      == Step(s.(dataBuffer := s.dataBuffer + [KeyValueData(p.key, p.value, true)]), None)
  {
  }

  /** A malformed record line leaves the state unchanged. */
  lemma BadRecordIgnored(s: SerialState, line: string, linked: bool, now: nat)
    requires s.currentState == UploadDataMode
    requires ParseUploadLine(line).RecordLine?
    requires ParseKeyValue(Trim(line)).None?
    ensures LineEffect(s, line, linked, now) == Step(s, None)
  {
    assert ParseUploadLine(line) == RecordLine(Trim(line));
    assert RecordEffect(s, Trim(line)) == s;
  }

  /** `END`: with no records, or with no broker handler, nothing changes;
      otherwise exactly one document holding the records is published and
      the mode returns to normal. The records are never cleared. */
  lemma EndCases(s: SerialState, line: string, linked: bool, now: nat)
    requires s.currentState == UploadDataMode && ParseUploadLine(line) == EndLine
    ensures var r := LineEffect(s, line, linked, now);
      && r.state.dataBuffer == s.dataBuffer
      && (s.dataBuffer == [] || !linked ==> r == Step(s, None))
      && (s.dataBuffer != [] && linked ==>
            r.state == s.(currentState := NormalMode)
            && r.upload == Some(GenerateJsonPayload(s.dataBuffer, now)))
  {
  }

  /** `CANCEL` empties the buffer and returns to normal mode; the same line
      again is then an unknown command and changes nothing. */
  lemma CancelTwice(s: SerialState, line: string, linked: bool, now: nat)
    requires s.currentState == UploadDataMode && ParseUploadLine(line) == CancelLine
    ensures var r := LineEffect(s, line, linked, now);
      && r == Step(s.(currentState := NormalMode, dataBuffer := [], uploadStartTime := 0), None)
      && LineEffect(r.state, line, linked, now) == Step(r.state, None)
  {
    var t := Trim(line);
    assert EqualsIgnoreCase(t, "CANCEL");
    assert t != "UPLOAD_DATA" && t != "GET_TIME" && t != "HELP";
    assert ToLower(t[0]) == ToLower("CANCEL"[0]);
  }

  // ------------------------------------------------------- line splitting

  lemma FeedLast(s: SerialState, input: string, c: char, linked: bool, now: nat)
    ensures var prior := Feed(s, input, linked, now);
      var r := CharEffect(prior.state, c, linked, now);
      Feed(s, input + [c], linked, now) == Fed(r.state, prior.uploads + OptionSeq(r.upload))
  {
    assert (input + [c])[..|input|] == input;
  }

  /** Characters without a terminator only accumulate in the line buffer. */
  lemma {:induction false} FeedNoTerminator(s: SerialState, input: string, linked: bool, now: nat)
    requires forall k :: 0 <= k < |input| ==> !IsTerminator(input[k])
    ensures Feed(s, input, linked, now) == Fed(s.(serialBuffer := s.serialBuffer + input), [])
    decreases |input|
  {
    if input != [] {
      var init := input[..|input| - 1];
      FeedNoTerminator(s, init, linked, now);
      assert input == init + [input[|input| - 1]];
      FeedLast(s, init, input[|input| - 1], linked, now);
      assert s.serialBuffer + init + [input[|input| - 1]] == s.serialBuffer + input;
    }
  }

  /** A line typed on an empty line buffer and ended by a terminator is
      dispatched once, with the terminator, and leaves the buffer empty; a
      bare terminator dispatches nothing. */
  lemma FeedLine(s: SerialState, line: string, c: char, linked: bool, now: nat)
    requires s.serialBuffer == [] && IsTerminator(c)
    requires forall k :: 0 <= k < |line| ==> !IsTerminator(line[k])
    ensures line == [] ==> Feed(s, line + [c], linked, now) == Fed(s, [])
    ensures line != [] ==>
      var r := LineEffect(s.(serialBuffer := line + [c]), line + [c], linked, now);
      Feed(s, line + [c], linked, now) == Fed(r.state.(serialBuffer := []), OptionSeq(r.upload))
  {
    FeedNoTerminator(s, line, linked, now);
    FeedLast(s, line, c, linked, now);
    TerminatorAfterLine(s, line, c, linked, now);
  }

  /** The terminator that ends a line typed on an empty line buffer: with no
      line it only leaves the buffer empty; otherwise it dispatches the line
      with the terminator and empties the buffer. */
  lemma TerminatorAfterLine(s: SerialState, line: string, c: char, linked: bool, now: nat)
    requires s.serialBuffer == [] && IsTerminator(c)
    ensures var s1 := s.(serialBuffer := s.serialBuffer + line);
      line == [] ==> CharEffect(s1, c, linked, now) == Step(s, None)
    ensures var s1 := s.(serialBuffer := s.serialBuffer + line);
      var r := LineEffect(s.(serialBuffer := line + [c]), line + [c], linked, now);
      line != [] ==>
        && CharEffect(s1, c, linked, now) == Step(r.state.(serialBuffer := []), r.upload)
        && [] + OptionSeq(r.upload) == OptionSeq(r.upload)
  {
    assert s.serialBuffer + line == line;
  }

  /** The '\n' of a "\r\n" pair dispatches nothing: a chunk ending in
      "\r\n" has the effect of the same chunk ending in "\r". */
  lemma FeedCrLf(s: SerialState, input: string, linked: bool, now: nat)
    ensures Feed(s, input + ['\r', '\n'], linked, now) == Feed(s, input + ['\r'], linked, now)
  {
    assert input + ['\r', '\n'] == (input + ['\r']) + ['\n'];
    FeedLast(s, input + ['\r'], '\n', linked, now);
    FeedLast(s, input, '\r', linked, now);
  }

  /** Publishing a sequence of documents one after another. */
  lemma UploadAllStep(m: Mqtt.MqttState, uploads: seq<Telemetry>, extra: Option<Telemetry>, now: nat)
    requires 0 <= m.retry <= Mqtt.ImmediateRetryLimit
    ensures var prior := UploadAll(m, uploads, now);
      UploadAll(m, uploads + OptionSeq(extra), now)
        == UploadAll(prior, OptionSeq(extra), now)
  {
    if extra.Some? {
      assert (uploads + [extra.value])[..|uploads|] == uploads;
      assert [extra.value][..0] == [];
    } else {
      assert uploads + [] == uploads;
    }
  }

  /** One more character of a chunk, for the state and for what the broker
      handler ends up with. */
  lemma FeedStep(s: SerialState, input: string, i: nat, linked: bool, now: nat, m: Mqtt.MqttState)
    requires i < |input| && 0 <= m.retry <= Mqtt.ImmediateRetryLimit
    ensures var prior := Feed(s, input[..i], linked, now);
      var r := CharEffect(prior.state, input[i], linked, now);
      && Feed(s, input[..i + 1], linked, now).state == r.state
      && UploadAll(m, Feed(s, input[..i + 1], linked, now).uploads, now)
           == UploadAll(UploadAll(m, prior.uploads, now), OptionSeq(r.upload), now)
  {
    var prior := Feed(s, input[..i], linked, now);
    assert input[..i + 1] == input[..i] + [input[i]];
    FeedLast(s, input[..i], input[i], linked, now);
    UploadAllStep(m, prior.uploads, CharEffect(prior.state, input[i], linked, now).upload, now);
  }

  /** While the broker link is down, END's publish queues nothing (it is
      made without queueing permission) and leaves the broker handler's
      state unchanged. With the link up a failed send is still queued by
      `publish` itself. */
  lemma {:induction false} UploadWhileDisconnected(m: Mqtt.MqttState, uploads: seq<Telemetry>, now: nat)
    requires 0 <= m.retry <= Mqtt.ImmediateRetryLimit && !m.env.connected
    ensures UploadAll(m, uploads, now) == m
    decreases |uploads|
  {
    if uploads != [] {
      UploadWhileDisconnected(m, uploads[..|uploads| - 1], now);
      Mqtt.PublishWhileDisconnected(m, PostTopic, TelemetryPayload(uploads[|uploads| - 1]), false, now);
    }
  }

  // ---------------------------------------------------------------- handler

  class SerialHandler {
    var serialBuffer: string
    var currentState: DataReceiveState
    var dataBuffer: seq<KeyValueData>
    var uploadStartTime: nat
    var mqttHandler: Mqtt.MqttHandler?

    ghost function State(): SerialState
      reads this
    {
      SerialState(serialBuffer, currentState, dataBuffer, uploadStartTime)
    }

    ghost predicate Valid()
      reads this, mqttHandler
    {
      Inv(State()) && (mqttHandler != null ==> mqttHandler.Valid())
    }

    constructor ()
      ensures Valid()
      ensures State() == SerialState([], NormalMode, [], 0) && mqttHandler == null
    {
      serialBuffer := [];
      currentState := NormalMode;
      dataBuffer := [];
      uploadStartTime := 0;
      mqttHandler := null;
    }

    method SetMqttHandler(handler: Mqtt.MqttHandler?)
      requires handler != null ==> handler.Valid()
      requires Inv(State())
      modifies this
      ensures Valid() && mqttHandler == handler && State() == old(State())
    {
      mqttHandler := handler;
    }

    method GetCurrentState() returns (st: DataReceiveState)
      ensures st == currentState
    {
      return currentState;
    }

    method GetDataBufferCount() returns (n: nat)
      ensures n == |dataBuffer|
    {
      return |dataBuffer|;
    }

    method HasDataToUpload() returns (b: bool)
      ensures b <==> dataBuffer != []
    {
      return |dataBuffer| > 0;
    }

    /** The document END would publish now, without changing anything. */
    method GetJsonPayload(now: nat) returns (t: Telemetry)
      requires Valid()
      ensures t == GenerateJsonPayload(dataBuffer, now)
      ensures |t.params| == |dataBuffer|
    {
      PayloadMatchesRecords(dataBuffer);
      return GenerateJsonPayload(dataBuffer, now);
    }

    method ClearDataBuffer()
      modifies this
      ensures State() == ClearData(old(State())) && mqttHandler == old(mqttHandler)
    {
      dataBuffer := [];
      uploadStartTime := 0;
    }

    method ClearUploadedData()
      requires Valid()
      modifies this
      ensures Valid() && State() == ClearData(old(State())) && mqttHandler == old(mqttHandler)
    {
      ClearDataBuffer();
    }

    method ProcessUploadDataCommand(now: nat)
      requires Valid()
      modifies this
      ensures Valid() && State() == StartUpload(old(State()), now) && mqttHandler == old(mqttHandler)
    {
      currentState := UploadDataMode;
      uploadStartTime := now;
      ClearDataBuffer();
    }

    method ProcessSerialCommand(command: string, now: nat)
      requires Valid()
      modifies this
      ensures Valid() && State() == CommandEffect(old(State()), command, now)
      ensures mqttHandler == old(mqttHandler)
    {
      var t := Trim(command);
      if t == "UPLOAD_DATA" {
        ProcessUploadDataCommand(now);
      }
    }

    method ProcessKeyValueData(data: string)
      requires Valid()
      modifies this
      ensures Valid() && State() == RecordEffect(old(State()), data) && mqttHandler == old(mqttHandler)
    {
      var valid, key, value, separator := ValidateKeyValueFormat(data);
      if !valid {
        assert RecordEffect(State(), data) == State();
        return;
      }
      var record := KeyValueData(key, value, true);
      AppendValid(dataBuffer, record);
      ghost var s := State();
      dataBuffer := dataBuffer + [record];
      assert RecordEffect(s, data) == State();
    }

    method ProcessCancelCommand()
      requires Valid()
      modifies this
      ensures Valid() && State() == CancelEffect(old(State())) && mqttHandler == old(mqttHandler)
    {
      ClearDataBuffer();
      currentState := NormalMode;
    }

    method ProcessEndCommand(now: nat)
      requires Valid()
      modifies this, mqttHandler
      ensures Valid() && mqttHandler == old(mqttHandler)
      ensures var r := EndEffect(old(State()), mqttHandler != null, now);
        && State() == r.state
        && (mqttHandler != null ==>
              mqttHandler.State() == UploadAll(old(mqttHandler.State()), OptionSeq(r.upload), now))
    {
      if |dataBuffer| == 0 {
        return;
      }
      var payload := GenerateJsonPayload(dataBuffer, now);
      if mqttHandler == null {
        return;
      }
      var ok := mqttHandler.Publish(PostTopic, TelemetryPayload(payload), now);
      currentState := NormalMode;
      assert [payload][..0] == [];
    }

    /** The dispatch `readSerialData` performs for one complete line. */
    method DispatchLine(line: string, now: nat)
      requires Valid()
      modifies this, mqttHandler
      ensures Valid() && mqttHandler == old(mqttHandler)
      ensures var r := LineEffect(old(State()), line, mqttHandler != null, now);
        && State() == r.state
        && (mqttHandler != null ==>
              mqttHandler.State() == UploadAll(old(mqttHandler.State()), OptionSeq(r.upload), now))
    {
      if currentState == UploadDataMode {
        var trimmed := Trim(line);
        if EqualsIgnoreCase(trimmed, "END") {
          ProcessEndCommand(now);
        } else if EqualsIgnoreCase(trimmed, "CANCEL") {
          ProcessCancelCommand();
        } else {
          ProcessKeyValueData(trimmed);
        }
      } else {
        ProcessSerialCommand(line, now);
      }
    }

    /** `readSerialData` over the characters available on the port. */
    method ReadSerialData(input: string, now: nat)
      requires Valid()
      modifies this, mqttHandler
      ensures Valid() && mqttHandler == old(mqttHandler)
      ensures var r := Feed(old(State()), input, mqttHandler != null, now);
        && State() == r.state
        && (mqttHandler != null ==> mqttHandler.State() == UploadAll(old(mqttHandler.State()), r.uploads, now))
    {
      ghost var linked := mqttHandler != null;
      ghost var s0 := State();
      ghost var m0 := if linked then mqttHandler.State() else Mqtt.MqttState([], 0, Mqtt.Env(false, [], [], High));
      var i := 0;
      while i < |input|
        invariant 0 <= i <= |input|
        invariant Valid() && mqttHandler == old(mqttHandler) && linked == (mqttHandler != null)
        invariant 0 <= m0.retry <= Mqtt.ImmediateRetryLimit
        invariant State() == Feed(s0, input[..i], linked, now).state
        invariant linked ==> mqttHandler.State() == UploadAll(m0, Feed(s0, input[..i], linked, now).uploads, now)
      {
        var c := input[i];
        FeedStep(s0, input, i, linked, now, m0);
        serialBuffer := serialBuffer + [c];
        if IsTerminator(c) {
          if |serialBuffer| > 1 {
            DispatchLine(serialBuffer, now);
          }
          serialBuffer := [];
        }
        i := i + 1;
      }
      assert input[..i] == input;
    }
  }
}
