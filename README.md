# ESP8266 OneNET agent — a Dafny model of its two handlers

The firmware links a serial co-processor to the OneNET IoT platform over MQTT.
Two classes do the work, and this project models both:

- `MqttHandler` publishes messages. A failed send is retried at once, up to a
  counter limit, and copies are kept in a retry queue of at most 10 entries.
  A periodic pass over that queue resends due entries with a flat 5 s backoff
  and a ceiling of 3 attempts. The handler also answers property-set commands
  from the platform: it publishes a set-reply document, then acts on each
  property (the LED pin, or a `<CYZ:…:CYZ>` packet to the co-processor).
- `SerialHandler` reads the co-processor's serial line character by
  character. Lines drive a two-state machine. In normal mode a line is a
  command; `UPLOAD_DATA` enters upload mode. In upload mode a line is a
  `key=value` / `key:value` record, `END` (publish the records as a
  property-post document whose values are typed Int, Float or String) or
  `CANCEL`.

Modules:

- `Wrappers`: the optional value used where the source reports absence.
- `Strings`: the Arduino `String` operations the handlers use (trim, indexOf,
  equalsIgnoreCase, decimal rendering and `toInt`).
- `Documents`: the JSON documents as structured values.
- `PropertySet`: the topics and the pure decisions of the property-set path
  (truncation, reply building, value routing).
- `KeyValue`: the record parser, the value classifiers and the post document.
- `Mqtt`: the `MqttHandler` class.
- `Serial`: the `SerialHandler` class.

The MQTT client is an oracle. `Env` holds:

- the link flag;
- a script of send outcomes (delivered, failed, or failed with the link lost),
  consumed only while the link is up; a send while it is down fails;
- a trace of the send attempts and property dispatches that happened;
- the LED level.

The clock is a `nat` parameter, and the serial port is the input string.

Each class is proved against pure specification functions:

- `PublishSpec` for `publish`;
- `Drain` for `processMessageQueue`;
- `HandleSpec` for `handlePropertySetCommand`;
- `LineEffect` and `Feed` for the serial side.

The lemmas state what the code promises about those functions.

The model follows the code as written, including these behaviours:

- `END` never clears the record buffer;
- `END` with no records stays in upload mode;
- no capacity is enforced on the record buffer (`MAX_DATA_BUFFER_SIZE` is never checked);
- a string value such as `"on"` for `LED` never reaches the pin;
- set replies are published without queueing permission;
- `uploadStartTime` is always 0 after `UPLOAD_DATA`, because `clearDataBuffer` runs after the assignment;
- a failing `publish` can queue up to four copies of the same message, one per attempt, each
  due a second later than the one before (the re-attempts run after `delay(1000)`);
- `processMessageQueue` runs on every loop tick whether or not the link is up, so while it is
  down every due entry fails and uses up a retry.

## Model

| member | source | states |
|---|---|---|
| Strings.TrimStartCuts | src/SerialHandler.cpp:31-32 | trimming the front removes only white space, and what is left is a suffix of the input |
| Strings.TrimIdempotent | src/SerialHandler.cpp:55 | trimming an already trimmed string changes nothing |
| Strings.TrimDropsTrailingSpace | src/SerialHandler.cpp:31-32 | a trailing white-space character, such as a line terminator, never survives trimming |
| Strings.IndexOf | src/SerialHandler.cpp:99-100 | `indexOf` gives -1 exactly when the character is absent, else an index holding it |
| Strings.IndexOfFirst | src/SerialHandler.cpp:99-100 | the index `indexOf` gives is the first occurrence |
| Strings.DigitsRoundTrip | src/MqttHandler.cpp:191 | the decimal rendering of the clock reads back as the clock value |
| Strings.ToIntRoundTrip | src/SerialHandler.cpp:218-219 | `toInt` of `String(i)` is `i` for every integer |
| Strings.IntToStringInjective | src/MqttHandler.cpp:293-295 | distinct integers render to distinct texts |
| PropertySet.TruncateKeepsPrefix | src/MqttHandler.cpp:224-229 | a payload of at most 100 bytes passes unchanged; a longer one keeps exactly its first 100 bytes followed by the marker |
| PropertySet.CommandReply | src/MqttHandler.cpp:251-266 | code 200 exactly when the document parsed and has `params`, else 400; a parse error gets an empty id, a decoded document its `id` or "" |
| PropertySet.CommandParams | src/MqttHandler.cpp:261-272 | properties are dispatched only when the reply is 200, and then they are exactly the `params` members; any other reply dispatches none |
| PropertySet.BuildReply | src/MqttHandler.cpp:185-208 | the reply keeps the code, always has an id, and has a `data` object exactly for code 200 |
| PropertySet.ReplyIdentity | src/MqttHandler.cpp:188-207 | a non-empty request id is echoed, an empty one becomes the decimal clock; code 200 says "success" and echoes the message as `data.result` with uptime `now / 1000`; other codes carry the message |
| PropertySet.FrameRoundTrip | src/MqttHandler.cpp:339-349 | the body of a `<CYZ:…:CYZ>` packet is recovered from the frame |
| PropertySet.PinWrittenOnlyForLedScalars | src/MqttHandler.cpp:283-320 | the pin is written exactly for the names `LED`/`Switch` with an int, float or bool value; a string value never reaches the pin |
| PropertySet.ScalarAction | src/MqttHandler.cpp:314-327 | the pin is written exactly for `LED`/`Switch`, LOW exactly when the text is `on`, `true`, `1` or `HIGH`; any other name is an unknown property |
| PropertySet.StringAction | src/MqttHandler.cpp:329-359 | a packet is sent exactly for `Upload_Data`, `Command` and `Control`; `Upload_Data` frames `Upload_on` for that value and `unknown_command` for any other, `Command`/`Control` frame the value; any other name is an unknown property |
| PropertySet.LedLevel | src/MqttHandler.cpp:291-317 | for `LED`/`Switch` the pin goes LOW for `true`, for the integer 1, and for a float whose text means on; otherwise it goes HIGH. A float's text holds a `.` (the device prints two decimals), so a float always drives it HIGH |
| PropertySet.ForwardVerbatim | src/MqttHandler.cpp:347-350 | `Command`/`Control` forward a string value verbatim in a packet |
| KeyValue.KeyCharsEverywhere | src/SerialHandler.cpp:126-132 | the prefix-wise key scan accepts exactly when every character is a letter, digit, `_`, `-` or `.` |
| KeyValue.ParseKeyValue | src/SerialHandler.cpp:97-135 | an accepted line has a non-empty key in the key alphabet, an unpadded value, and separator `=` or `:` |
| KeyValue.ValidateKeyValueFormat | src/SerialHandler.cpp:97-135 | the scanning method accepts exactly the lines the specification accepts, and returns the same key, value and separator |
| KeyValue.ValidateExtracts | src/SerialHandler.cpp:99-117 | an accepted line is split at its first `=` when that index is positive, else at its first `:`; key and value are the trimmed text on either side |
| KeyValue.ValidateRejects | src/SerialHandler.cpp:103-123 | a line with no separator at a positive index is rejected, and so is one whose trimmed key (before the `=`, or before the `:` when `=` is not used) is invalid |
| KeyValue.KeyValueRoundTrip | src/SerialHandler.cpp:97-135 | `key=value` with a valid key and an unpadded value parses back to exactly that key and value; so does `key:value` when the value holds no `=` |
| KeyValue.IsInteger | src/SerialHandler.cpp:244-251 | true exactly for a non-empty run of digits and `-` |
| KeyValue.IsFloat | src/SerialHandler.cpp:253-264 | true exactly for a text of more than one character with one `.` and otherwise only digits and `-` |
| KeyValue.IntegerNotFloat | src/SerialHandler.cpp:244-264 | no value is both an integer and a float |
| KeyValue.TypeValue | src/SerialHandler.cpp:218-227 | a value is typed Int exactly when it is integer text, Float exactly when it is float text and not integer text, else String |
| KeyValue.TypeValueOfInteger | src/SerialHandler.cpp:218-219 | the decimal text of any integer is typed as that integer |
| KeyValue.TypeValueExamples | src/SerialHandler.cpp:216-227 | "3" is typed Int 3, "1.5" Float, "x" String |
| KeyValue.AppendValid | src/SerialHandler.cpp:148-152 | appending a record marked valid keeps every record valid |
| KeyValue.GenerateJsonPayload | src/SerialHandler.cpp:202-207 | the post document has a non-empty id and version "1.0" |
| KeyValue.PayloadMatchesRecords | src/SerialHandler.cpp:214-229 | with every record valid, `params` has one entry per record, in buffer order, with the record's key and typed value |
| Mqtt.PublishSpec | src/MqttHandler.cpp:94-143 | whatever happens, the retry counter left behind is within 0..3 |
| Mqtt.PublishWhileDisconnected | src/MqttHandler.cpp:95-112 | disconnected: without queueing permission the call fails and changes nothing; with it, a full queue (10) rejects the message; otherwise exactly one entry (retry count 0, due 1000 ms later) is appended and the call succeeds |
| Mqtt.PublishDelivered | src/MqttHandler.cpp:114-117 | connected and delivered: success, the counter is reset to 0, the queue is untouched, and one attempt is traced |
| Mqtt.RequeueFresh | src/MqttHandler.cpp:121-132 | after a failed send the queue stays within 10 entries and well formed, and gains exactly one fresh entry for this message, first due 2000 ms later, when there is room, and none when it is full |
| Mqtt.PublishKeepsWf | src/MqttHandler.cpp:94-143 | publishing keeps the counter in 0..3, the queue within 10 entries and every entry below the retry ceiling |
| Mqtt.PublishPreservesQueue | src/MqttHandler.cpp:94-143 | publishing removes nothing from the queue and appends only fresh entries (retry count 0) of this message |
| Mqtt.SendExtends | src/MqttHandler.cpp:114 | one client publish appends exactly its own attempt to the trace and leaves the LED alone |
| Mqtt.PublishSendsBounded | src/MqttHandler.cpp:114-141 | one call makes at most `4 - counter` attempts, and at least one while the link is up, all of this message; it sends nothing else and leaves the LED alone |
| Mqtt.PublishOkMeaning | src/MqttHandler.cpp:94-143 | a call succeeds exactly when it queued the message while disconnected or one of its attempts was delivered |
| Mqtt.PublishExhausted | src/MqttHandler.cpp:118-140 | with the link up and every send failing, a call from counter c makes exactly `4 - c` attempts, fails, resets the counter to 0, keeps the old queue as a prefix, and queues one copy per attempt while there is room, the i-th due `2000 + 1000·i` ms after the call's clock |
| Mqtt.Visit | src/MqttHandler.cpp:71-90 | an entry not yet due is kept unchanged; a due one is sent once, and dropped when delivered or when its incremented count reaches 3, else kept with the count incremented and due 5000 ms from now |
| Mqtt.PassKeepsOrder | src/MqttHandler.cpp:70-91 | a pass keeps no more entries than it visits, and the survivors keep their original relative order |
| Mqtt.VisitTrace | src/MqttHandler.cpp:71-72 | a visit appends to the trace only the attempt of a due entry, and leaves the LED alone |
| Mqtt.PassSendsDueOnce | src/MqttHandler.cpp:70-91 | a pass only appends to the trace, sends each due entry exactly once in queue order and nothing else, and leaves the LED alone |
| Mqtt.VisitOffline | src/MqttHandler.cpp:71-86 | while the link is down a due entry's send fails without touching the link state or the outcome script; the entry uses up one retry and is dropped at the ceiling |
| Mqtt.OfflineEntryDropped | src/MqttHandler.cpp:62-92 | a lone queued message is never delivered while the link stays down: three passes, each at least the backoff after the last, make three failed attempts and drop it |
| Mqtt.PassKeepsNotDue | src/MqttHandler.cpp:88-90 | an entry that is not due survives the pass unchanged |
| Mqtt.PassIdle | src/MqttHandler.cpp:62-91 | a pass over entries none of which is due, such as an empty queue, changes neither the queue nor the client |
| Mqtt.PassWellFormed | src/MqttHandler.cpp:78-86 | a pass never grows the queue, and every entry it keeps has a retry count below 3 |
| Mqtt.PassAdvance | src/MqttHandler.cpp:70-91 | erasing the current entry, or overwriting it, as its visit says, extends the pass over the original queue by one entry |
| Mqtt.VisitAt | src/MqttHandler.cpp:71-90 | the loop body for one entry: the pass over the original queue advances by one entry, and the iterator moves past the entry only when it was kept |
| Mqtt.RetryPass | src/MqttHandler.cpp:70-91 | the erase-in-place loop leaves exactly the queue and the client of one pass |
| Mqtt.DispatchAllRecords | src/MqttHandler.cpp:272-280 | dispatch records one event per property, in document order, with its routed action, and sends nothing |
| Mqtt.HandleRepliesFirst | src/MqttHandler.cpp:245-281 | while the link is up every command gets one reply (at least 1 and at most 4 attempts to the set-reply topic) before any dispatch, and while it is down the reply is dropped with no attempt and nothing else of the handler changes; 400 with the clock as id on a parse error, 400 with the decoded id without `params`, otherwise 200 followed by every property in order; the handler's invariant is kept |
| Mqtt.MqttHandler.constructor | src/MqttHandler.cpp:4-10 | a new handler has an empty queue and a zero counter |
| Mqtt.MqttHandler.GetQueueSize | include/MqttHandler.h:53 | the queue length, with nothing changed |
| Mqtt.MqttHandler.Publish | src/MqttHandler.cpp:94-143 | the method's result and new state are those of `PublishSpec` (with `queued` defaulting to false), and the invariant is kept |
| Mqtt.MqttHandler.ProcessMessageQueue | src/MqttHandler.cpp:62-92 | the new queue and client are those of one pass over the old queue; the counter is untouched; the invariant is kept |
| Mqtt.MqttHandler.SendHeartbeat | src/MqttHandler.cpp:166-180 | nothing happens while disconnected; otherwise the heartbeat is published to the post topic without queueing permission |
| Mqtt.MqttHandler.SendPropertySetResponse | src/MqttHandler.cpp:185-217 | the reply document is published to the set-reply topic without queueing permission |
| Mqtt.MqttHandler.ProcessPropertySetValue | src/MqttHandler.cpp:283-309 | the property is recorded with its routed action and that action is applied to the client; nothing else changes |
| Mqtt.MqttHandler.HandlePropertySetCommand | src/MqttHandler.cpp:245-281 | the new state is that of `HandleSpec`: the reply first, then every property in document order |
| Mqtt.MqttHandler.MqttCallback | src/MqttHandler.cpp:219-243 | a message on the set topic is truncated, decoded and handled; any other topic changes nothing |
| Serial.CharEffect | src/SerialHandler.cpp:22-49 | a non-terminator is appended to the line buffer and nothing else happens; a terminator always leaves the line buffer empty |
| Serial.LineKeepsInv | src/SerialHandler.cpp:30-45 | every line keeps all records valid and the upload start time at 0 |
| Serial.FeedKeepsInv | src/SerialHandler.cpp:20-52 | so does every input chunk |
| Serial.NormalModeLine | src/SerialHandler.cpp:54-95 | in normal mode a line never publishes and changes the state exactly when it is `UPLOAD_DATA`, which enters upload mode with no records and a start time of 0 |
| Serial.TrailingSpaceIgnored | src/SerialHandler.cpp:31-32 | a line terminator does not change how a line is read in either mode |
| Serial.CommandsAreCaseSensitive | src/SerialHandler.cpp:54-85 | a normal-mode line changes the state exactly when its trimmed text is `UPLOAD_DATA`, letter case included, so `upload_data` is an unknown command |
| Serial.KeywordsIgnoreCase | src/SerialHandler.cpp:31-41 | an upload-mode line whose trimmed text equals `END` or `CANCEL` in any letter case is that keyword, and any other line is a record of its trimmed text; so `end` is the END keyword |
| Serial.SeparatorNotKeyword | src/SerialHandler.cpp:35-41 | a line holding `=` is never taken for `END` or `CANCEL` |
| Serial.RecordLineRead | src/SerialHandler.cpp:31-41 | in upload mode a terminated `key=value` line is read as a record carrying exactly `key=value` |
| Serial.RecordLineAppends | src/SerialHandler.cpp:137-156 | that line appends exactly the record (key, value, valid) at the back of the buffer, however full it is |
| Serial.BadRecordIgnored | src/SerialHandler.cpp:142-145 | a malformed record line leaves the state unchanged |
| Serial.EndCases | src/SerialHandler.cpp:158-190 | `END` never clears the records; with none, or with no broker handler, nothing changes; otherwise exactly one document of the records is published and the mode returns to normal |
| Serial.CancelTwice | src/SerialHandler.cpp:192-200 | `CANCEL` empties the records, zeroes the start time and returns to normal mode; the same line again is an unknown command and changes nothing |
| Serial.FeedNoTerminator | src/SerialHandler.cpp:22-25 | characters without a terminator only accumulate in the line buffer |
| Serial.FeedLine | src/SerialHandler.cpp:27-49 | a terminated line on an empty buffer is dispatched once, terminator included, and leaves the buffer empty; a bare terminator dispatches nothing |
| Serial.FeedCrLf | src/SerialHandler.cpp:27-48 | the `\n` of `\r\n` dispatches nothing |
| Serial.UploadWhileDisconnected | src/SerialHandler.cpp:181 | while the link is down, END's publish queues nothing and leaves the broker handler unchanged |
| Serial.SerialHandler.constructor | src/SerialHandler.cpp:6-11 | a new handler is in normal mode with empty buffers, a zero start time and no broker handler |
| Serial.SerialHandler.SetMqttHandler | include/SerialHandler.h:64 | sets the broker handler and changes nothing else |
| Serial.SerialHandler.GetCurrentState | include/SerialHandler.h:60 | the current mode |
| Serial.SerialHandler.GetDataBufferCount | include/SerialHandler.h:62 | the number of records |
| Serial.SerialHandler.HasDataToUpload | include/SerialHandler.h:66 | true exactly when there are records |
| Serial.SerialHandler.GetJsonPayload | include/SerialHandler.h:68 | the document `generateJsonPayload` gives, with one entry per record, and nothing changes |
| Serial.SerialHandler.ClearDataBuffer | src/SerialHandler.cpp:235-238 | the records are emptied and the start time zeroed, nothing else |
| Serial.SerialHandler.ClearUploadedData | include/SerialHandler.h:70 | the same as `clearDataBuffer`, keeping the invariant |
| Serial.SerialHandler.ProcessUploadDataCommand | src/SerialHandler.cpp:87-95 | upload mode, no records, start time 0 |
| Serial.SerialHandler.ProcessSerialCommand | src/SerialHandler.cpp:54-85 | only a trimmed, case-sensitive `UPLOAD_DATA` changes the state |
| Serial.SerialHandler.ProcessKeyValueData | src/SerialHandler.cpp:137-156 | an accepted line appends its record; a rejected one changes nothing |
| Serial.SerialHandler.ProcessCancelCommand | src/SerialHandler.cpp:192-200 | the records are emptied, the start time zeroed, and the mode set to normal |
| Serial.SerialHandler.ProcessEndCommand | src/SerialHandler.cpp:158-190 | the state is that of `END`, and the broker handler has published exactly the documents `END` publishes |
| Serial.SerialHandler.DispatchLine | src/SerialHandler.cpp:28-47 | one complete line is handled as its mode says, for both handlers |
| Serial.SerialHandler.ReadSerialData | src/SerialHandler.cpp:20-52 | after a chunk of input, the state is that of the chunk read character by character, and the broker handler has published that chunk's documents in order |

## Left out

- Serial console output and `ESP.getFreeHeap` are left out: they do not change any modelled state.
- Mqtt.PublishSpec: the `delay(1000)` before a re-attempt is modelled as a clock exactly 1000 ms later; the time the sends themselves take is not modelled.
- `init`, `connect`, `subscribe`, `isConnected`, the destructor and the WiFi query behind `STATUS` are thin client wrappers; the `connected` flag of the client oracle stands in for them.
- `GET_TIME`, `STATUS` and `HELP` only print; the model treats them as lines that change nothing.
- The user callback set by `setUserCallback` is foreign code; it is not modelled.
- `lastPublishAttempt` is assigned in the constructor and never read; it is not modelled.
- JSON parsing and serialisation are done by a library; documents are structured values, and the decoder is a parameter of `MqttCallback`.
- How the JSON library merges repeated keys in the post document is not modelled: every record appears in `params`.
- Floating point is not modelled: a float value keeps its text, `toFloat` is not computed, and a float property reaches the LED decision as the text the device would print for it; `String(float)` prints two decimals, so that text never means on.
- The device writes each `<CYZ:…:CYZ>` packet inside a log line with a text prefix; only the frame is modelled.
- `millis()` is the `now` parameter, sampled once per call. Its 32-bit wrap-around is not modelled.
- `toInt` is modelled on unbounded integers; the 32-bit range of `long` is not modelled.
- The empty-payload branch in `processEndCommand` cannot be taken, because a post document is never empty text; it is not modelled.
- `handleDeviceProperty_Int` and `handleDeviceProperty_Float` are never called; they are not modelled.
- src/main.cpp, src/Time_t.cpp and include/Time_t.h (the main loop, reconnects, NTP time) are not part of this model.
- Mqtt.MqttHandler.ProcessMessageQueue: the in-place pass over the queue runs on a local copy that is written back, which is observably the same for a single-threaded handler.
- Mqtt.PublishSpec: its own contract states only the counter bound; what a call does is stated by the lemmas after it.
- KeyValue.GenerateJsonPayload: its own contract states only the id and the version; the params are stated by `PayloadMatchesRecords`.
