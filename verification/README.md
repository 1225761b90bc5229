# Verification of the IoT client SDK behind the firmware

This project models, in Dafny, the parts of the AWS IoT device SDK that the firmware builds on, and proves what
they are for. Each part has a specification on values (functions), theorems about it (lemmas), and, where the source
updates objects or arrays, a class or a method over arrays proved to compute the specification.

| files | part |
|---|---|
| Basics | options and minima |
| Jsmn, JsmnParser | the jsmn tokenizer as a step function, and as the object that fills a token array |
| JsonGrammar | JSON texts as trees, and the characters they are spelled with, written from RFC 8259 alone |
| JsonText, JsmnTree, JsmnLexer, JsmnStack, JsmnResume, JsmnBuilds | the tokens of a tree; round trip, lexical scans, acceptance and codes, resumption, dry runs; the two builds compared |
| JsonLookup, JobsJson | the key lookup on the flat token array; the truncating writer and two request serializers |
| RemainingLength, MqttCodec | the remaining-length field; CONNECT, PUBLISH, SUBSCRIBE, UNSUBSCRIBE |
| TopicFilter | the topic matcher |
| PacketReader, ReaderCodes | the resumable packet reader, and the codes of its calls |
| ClientState, Callbacks | the state word and its compare-and-set; re-entrant calls from message callbacks |
| TickTimer | countdowns over the wrapping 32-bit tick counter |
| YieldModel, YieldMachine | the yield loop: keep-alive, back-off, reconnecting, resubscribing |
| YieldRuns, CalmScripts, YieldOutcome, BackOffRuns, BackOffWitnesses, ReconnectOutcome | what holds of it over whole runs |
| Shadow | the acknowledgement wait list and the reference-counted subscriptions |

How the environment enters. The network is a byte stream with a schedule (PacketReader) or a script of results; the
application's callbacks and disconnect handler are scripts of calls, nested to any depth; the clock is a parameter;
whether the broker accepts a request is a parameter. Theorems hold for every script unless a condition is named. A
network read stores and reports the bytes that arrived even when it times out; the ESP port leaves the count unset in
that case, so this is an assumption about the network layer. Mutex operations succeed and `destroy` returns SUCCESS.
Where a network read fails in yield, the code is one the network layer has (a timeout, an error, a fatal SSL error).

Terms. A *settled* state is one in which no operation waits to leave: connected and idle, resubscribing, disconnected
(by error or manually), or pending reconnect. Callbacks are *calm* when, if they disconnect, they
do not open a connection afterwards; an attempt is calm when all its callbacks are. A shadow run is
*orderly* when unsubscribes succeed, two records are free whenever a new pair is needed, and counts stay below 255.

What is false of the code, with the exact condition or a concrete input:

- a text resumed after stopping inside a primitive that the new text lengthens (`JsmnResume.ResumeOnMoreText`, if and only
  if; a text in `JsmnResume.ResumedNumber`);
- the two tokenizer builds on a closing bracket that closes nothing (`JsmnBuilds.BuildsAgreeExactly`, if and only if; a text
  in `JsmnTree.BuildsDisagreeElsewhere`);
- an absent key looked up with no late enough slot behind the object (`JsonLookup.FindTokenInObject`, if and only if; a text
  and an array in `JsonLookup.AbsentKeyOverruns`);
- the length pre-check, for a body longer than the remaining-length field can say (`MqttCodec.PacketFits`, if and only if; a
  body in `MqttCodec.PreCheckTooSmall`);
- a CONNECT with a password and no user name, and a SUBSCRIBE or UNSUBSCRIBE with dup set or no topic, are packets the
  standard rejects (`MqttCodec.ConnectRoundTrip`, `MqttCodec.SubscribeRoundTrip`, `MqttCodec.UnsubscribeRoundTrip`);
- the payload length of a received publication with no room for its identifier (`MqttCodec.PayloadEndsWithPacket`, if and
  only if; a packet in `MqttCodec.PayloadLengthWraps`);
- `#` matching its parent level, and `+` and `#` matching an empty level, which section 4.7 of MQTT 3.1.1 asks for
  (`TopicFilter.WalkExactly`, if and only if; filters and names in `TopicFilter.NarrowerWitnesses`);
- a packet whose header and remaining length together, but not the latter alone, reach the buffer size: it is not discarded
  exactly (`PacketReader.DiscardsExactlyWhenLong`, if and only if; a stream in `PacketReader.NextByteLost`);
- NETWORK_ATTEMPTING_RECONNECT after a callback disconnects during the attempt (`ReconnectOutcome.AttemptingExactly`, if and
  only if; a round in `ReconnectOutcome.DroppedWhileResubscribing`);
- a manual disconnect made by a callback, when a later turn of the same yield handles a loss
  (`ReconnectOutcome.DropSurvivesTurn`, if and only if; a yield in `ReconnectOutcome.DropOverwritten`);
- the reconnect time-out when the doubled wait does not fit 32 bits (`BackOffRuns.WaitWraps`, if and only if);
- the wait before a reconnect round, where no loss is on record or MIN * 2^k does not fit 32 bits (`BackOffRuns.ObeysExactly`,
  if and only if; runs in `BackOffWitnesses.ReconnectWithoutLoss`, for the first, and `BackOffWitnesses.NestedRoundWraps`, for
  the second, which calm attempts and 2*MAX < 2^32 rule out by `BackOffRuns.BackOffInEveryRun`);
- expiry polled a whole turn of the counter late (`TickTimer.ExpiryExactly`, if and only if; a timer in
  `TickTimer.ExpiryCanBeMissed`);
- a shadow request accepted without room for its topics, or counted past 255 (`Shadow.HeardExactlyWithRoom`,
  `Shadow.CountWraps`, if and only if).

## Model

| member | source | states |
|---|---|---|
| `JsmnParser.Parser.constructor` | components/esp-aws-iot/aws-iot-device-sdk-embedded-C/external_libs/jsmn/jsmn.c:339-343 | a fresh parser is the start state of the step function |
| `JsmnParser.Parser.AllocToken` | components/esp-aws-iot/aws-iot-device-sdk-embedded-C/external_libs/jsmn/jsmn.c:36-49 | hands out the next slot, reset, or -1 without touching anything when all slots are taken |
| `JsmnParser.Parser.ParsePrimitive` | components/esp-aws-iot/aws-iot-device-sdk-embedded-C/external_libs/jsmn/jsmn.c:65-109 | scans to the end of the primitive and adds its token; every failure puts `pos` back and leaves the tokens alone |
| `JsmnParser.Parser.ParseString` | components/esp-aws-iot/aws-iot-device-sdk-embedded-C/external_libs/jsmn/jsmn.c:114-176 | the same for strings with escapes: the token spans the body, an illegal escape is INVAL, a missing quote PART, and `pos` is put back on failure |
| `JsmnParser.Parser.CloseByScan` | components/esp-aws-iot/aws-iot-device-sdk-embedded-C/external_libs/jsmn/jsmn.c:235-259 | closing a bracket by scanning the token array backwards: the last open token is closed if it has the right type, and the one open before it becomes the superior |
| `JsmnParser.Parser.CloseByLinks` | components/esp-aws-iot/aws-iot-device-sdk-embedded-C/external_libs/jsmn/jsmn.c:216-234 | closing a bracket by following parent indices |
| `JsmnParser.Parser.Parse` | components/esp-aws-iot/aws-iot-device-sdk-embedded-C/external_libs/jsmn/jsmn.c:181-333 | the loop over the text, filling the token array in place, computes exactly the outcome of the step function, and touches no slot beyond the last token |
| `JsmnTree.ParseDocument` | components/esp-aws-iot/aws-iot-device-sdk-embedded-C/external_libs/jsmn/jsmn.c:181-333 | tree round trip: for every JSON value tree printed as RFC 8259 text with any white space, and enough slots, parsing returns the node count and leaves exactly the pre-order token list of the tree, with types, spans and sizes, in both builds |
| `JsmnTree.ParseTerminated` | components/esp-aws-iot/aws-iot-device-sdk-embedded-C/external_libs/jsmn/jsmn.c:188-188 | the same for such a text followed by a NUL and anything |
| `JsonGrammar.RfcPrimitives` | components/esp-aws-iot/aws-iot-device-sdk-embedded-C/external_libs/jsmn/jsmn.c:305-313 | every number of RFC 8259 section 6 and the three literal names are among the bare words the tree round trip covers |
| `JsmnLexer.WordExactly` | components/esp-aws-iot/aws-iot-device-sdk-embedded-C/external_libs/jsmn/jsmn.c:65-109 | for every text, the scan of a bare word ends at the first white space, comma, colon, closing bracket or end of the text, if all before it is printable, and fails exactly at a character before that which is not |
| `JsmnLexer.StringExactly` | components/esp-aws-iot/aws-iot-device-sdk-embedded-C/external_libs/jsmn/jsmn.c:114-176 | for every text, the scan of a string finds its closing quote exactly where a legal body of RFC 8259 section 7 ends, and fails exactly where such a body is followed by a backslash that begins no escape |
| `JsmnTree.BuildsAgree` | components/esp-aws-iot/aws-iot-device-sdk-embedded-C/external_libs/jsmn/jsmn.c:216-259 | on every document the parent-links build and the backward-scan build return the same code and tokens of the same types, spans and sizes |
| `JsmnBuilds.BuildsAgreeExactly` | components/esp-aws-iot/aws-iot-device-sdk-embedded-C/external_libs/jsmn/jsmn.c:216-259 | for every text and any number of slots, the two builds return the same code, position and tokens of the same types and spans if and only if the parent-links build never comes to a closing bracket, while no bracket is open, that its climb lets pass; where it does, the default build returns INVAL |
| `JsmnBuilds.BuildsAgreeOnInnerColons` | components/esp-aws-iot/aws-iot-device-sdk-embedded-C/external_libs/jsmn/jsmn.c:216-259 | in particular they agree on every text, well-formed or not, each of whose colons comes while a bracket is open |
| `JsmnTree.BuildsDisagreeElsewhere` | components/esp-aws-iot/aws-iot-device-sdk-embedded-C/external_libs/jsmn/jsmn.c:216-259 | a text on which they part |
| `JsmnStack.ScanSimulatesStack` | components/esp-aws-iot/aws-iot-device-sdk-embedded-C/external_libs/jsmn/jsmn.c:188-332 | for every input, at every loop head the open tokens in index order are the stack of a push-down automaton over the brackets read so far |
| `JsmnStack.AcceptsExactly` | components/esp-aws-iot/aws-iot-device-sdk-embedded-C/external_libs/jsmn/jsmn.c:181-333 | for every input, parsing succeeds if and only if the text is lexically sound, its brackets outside strings and primitives form a balanced word, and its nodes fit; it then returns their number |
| `JsmnStack.CodesExactly` | components/esp-aws-iot/aws-iot-device-sdk-embedded-C/external_libs/jsmn/jsmn.c:181-333 | for every text and number of slots the code returned is the verdict of the automaton: the number of nodes, or -1 when they do not fit, -2 for an illegal character or a bracket that closes nothing, -3 for a text that ends too early, whichever is met first |
| `JsmnStack.TokensNested` | components/esp-aws-iot/aws-iot-device-sdk-embedded-C/external_libs/jsmn/jsmn.c:188-332 | at every loop head starts strictly increase, spans are pairwise nested or disjoint, and the sum of the sizes plus the tokens allocated under no superior is the number of tokens |
| `JsmnStack.OutcomeIsHead` | components/esp-aws-iot/aws-iot-device-sdk-embedded-C/external_libs/jsmn/jsmn.c:188-332 | the state any call leaves is one of its loop heads, so that these invariants hold of every outcome |
| `JsmnResume.ResumeAfterNoMem` | components/esp-aws-iot/aws-iot-device-sdk-embedded-C/external_libs/jsmn/jsmn.c:94-102 | after NOMEM a second call with a larger array that starts with the same tokens ends as one call with that array; spare slots change nothing |
| `JsmnResume.ResumeOnMoreText` | components/esp-aws-iot/aws-iot-device-sdk-embedded-C/external_libs/jsmn/jsmn.c:186-201 | calling again on any extension of the text gives the result and tokens of one call on the whole if and only if the first call did not stop inside a primitive that the extension lengthens |
| `JsmnResume.ResumedNumber` | components/esp-aws-iot/aws-iot-device-sdk-embedded-C/external_libs/jsmn/jsmn.c:186-201 | "1" and then "12": two tokens, where one call on "12" has one |
| `JsmnResume.DryRunSizes` | components/esp-aws-iot/aws-iot-device-sdk-embedded-C/external_libs/jsmn/jsmn.c:194-214 | a parse that returns n has a dry run that returns n; after a dry run of n, n slots never give NOMEM and fewer never get past NOMEM or INVAL |
| `JsonLookup.FindTokenInArray` | components/esp-aws-iot/aws-iot-device-sdk-embedded-C/src/aws_iot_json_utils.c:215-242 | the nested pointer loops compute the lookup function |
| `JsonLookup.FindTokenInObject` | components/esp-aws-iot/aws-iot-device-sdk-embedded-C/src/aws_iot_json_utils.c:215-242 | on an object of a parsed document it returns the value of the first member with the key and never one nested in a value; without such a member it returns NULL if and only if the object is empty or a later slot starts at or past the end of the last value, and otherwise runs off the array |
| `JsonLookup.AbsentKeyOverruns` | components/esp-aws-iot/aws-iot-device-sdk-embedded-C/src/aws_iot_json_utils.c:215-242 | an object of one member in an array of just its three tokens: looking up another key runs off it |
| `JobsJson.PutTwice` | components/esp-aws-iot/aws-iot-device-sdk-embedded-C/src/aws_iot_jobs_json.c:37-58 | two truncated prints, the second behind the first, leave what one print of both leaves |
| `JobsJson.SerializeState.Print` | components/esp-aws-iot/aws-iot-device-sdk-embedded-C/src/aws_iot_jobs_json.c:37-58 | over any number of calls the total is the length of everything printed and the buffer holds what one snprintf of it all would leave: as much as fits, then NUL, and nothing at or after the buffer size |
| `JobsJson.SerializeUpdate` | components/esp-aws-iot/aws-iot-device-sdk-embedded-C/src/aws_iot_jobs_json.c:88-127 | returns the length of the whole request text and leaves it, truncated, in the buffer; an unknown status gives -1 and an untouched buffer |
| `JobsJson.SerializeStartNext` | components/esp-aws-iot/aws-iot-device-sdk-embedded-C/src/aws_iot_jobs_json.c:170-193 | the same for start-next requests |
| `JobsJson.UpdateTextIsTree` | components/esp-aws-iot/aws-iot-device-sdk-embedded-C/src/aws_iot_jobs_json.c:88-127 | the text of an update request is the RFC 8259 text of a tree with one member per field set, statusDetails nested as the caller spelled it |
| `JobsJson.LongDenotes` | components/esp-aws-iot/aws-iot-device-sdk-embedded-C/src/aws_iot_jobs_json.c:76-78 | a printed number has a sign exactly when it is negative, and digits without leading zeros that denote it |
| `JobsJson.StatusRoundTrip` | components/esp-aws-iot/aws-iot-device-sdk-embedded-C/src/aws_iot_jobs_types.c:31-75 | every status that has a name is the one read back from that name and from no other text; only the unset and the unknown status have none |
| `JobsJson.UpdateRoundTrip` | components/esp-aws-iot/aws-iot-device-sdk-embedded-C/src/aws_iot_jobs_json.c:88-127 | print, tokenize, look up: for every legal update request and every key, the lookup on the root finds the value the request has for that key, and no other key, in particular none nested in statusDetails |
| `JobsJson.StartNextRoundTrip` | components/esp-aws-iot/aws-iot-device-sdk-embedded-C/src/aws_iot_jobs_json.c:170-193 | the same for start-next requests, the empty one included |
| `JobsJson.SerializeAndFind` | components/esp-aws-iot/aws-iot-device-sdk-embedded-C/src/aws_iot_jobs_json.c:88-127 | all of it in place: the buffer the serializer leaves, tokenized by the parser object and searched by the lookup method, gives the value the request has for the key, or NULL if it has none |
| `RemainingLength.WriteLenToBuffer` | components/esp-aws-iot/aws-iot-device-sdk-embedded-C/src/aws_iot_mqtt_client_common_internal.c:57-73 | writes the base-128 code of the length and changes nothing else |
| `RemainingLength.DecodeFromBuffer` | components/esp-aws-iot/aws-iot-device-sdk-embedded-C/src/aws_iot_mqtt_client_common_internal.c:84-108 | the decoding loop computes the decoding function |
| `RemainingLength.DecodeEncoded` | components/esp-aws-iot/aws-iot-device-sdk-embedded-C/src/aws_iot_mqtt_client_common_internal.c:57-108 | wherever a code stands in a buffer it decodes to its number if the number fits the field, and to an error otherwise |
| `RemainingLength.EncodeLength` | components/esp-aws-iot/aws-iot-device-sdk-embedded-C/src/aws_iot_mqtt_client_common_internal.c:57-73 | one to four bytes for every number the field can hold, at the bounds of section 2.2.3 of MQTT 3.1.1 |
| `RemainingLength.DecodeBound` | components/esp-aws-iot/aws-iot-device-sdk-embedded-C/src/aws_iot_mqtt_client_common_internal.c:84-108 | no buffer decodes to more than 268435455 or takes more than four bytes |
| `RemainingLength.FinalLengthIsEnough` | components/esp-aws-iot/aws-iot-device-sdk-embedded-C/src/aws_iot_mqtt_client_common_internal.c:117-130 | the pre-check is the exact packet length, plus one at 127, 16383 and 2097151 |
| `RemainingLength.FinalLengthEnoughIff` | components/esp-aws-iot/aws-iot-device-sdk-embedded-C/src/aws_iot_mqtt_client_common_internal.c:117-130 | short of the 32-bit limit it is enough if and only if the length fits the field |
| `MqttCodec.PacketFits` | components/esp-aws-iot/aws-iot-device-sdk-embedded-C/src/aws_iot_mqtt_client_common_internal.c:117-130 | so where the pre-check passes, the packet fits the buffer unless its body is longer than the field can say and the buffer exactly five bytes longer than the body |
| `MqttCodec.PreCheckTooSmall` | components/esp-aws-iot/aws-iot-device-sdk-embedded-C/src/aws_iot_mqtt_client_common_internal.c:117-130 | a body of 268435456 bytes: the pre-check counts one byte less than the packet has |
| `MqttCodec.SerializePublish` | components/esp-aws-iot/aws-iot-device-sdk-embedded-C/src/aws_iot_mqtt_client_publish.c:87-133 | writes exactly header, length code and body, never past txBufLen, and leaves a buffer that is too short alone |
| `MqttCodec.SerializeSubscribe` | components/esp-aws-iot/aws-iot-device-sdk-embedded-C/src/aws_iot_mqtt_client_subscribe.c:58-103 | the same for SUBSCRIBE with any number of topics |
| `MqttCodec.SerializeUnsubscribe` | components/esp-aws-iot/aws-iot-device-sdk-embedded-C/src/aws_iot_mqtt_client_unsubscribe.c:56-93 | the same for UNSUBSCRIBE with any number of topics |
| `MqttCodec.SerializeConnect` | components/esp-aws-iot/aws-iot-device-sdk-embedded-C/src/aws_iot_mqtt_client_connect.c:145-239 | the same for CONNECT, with the two refusals of inconsistent parameters |
| `MqttCodec.ConnectSize` | components/esp-aws-iot/aws-iot-device-sdk-embedded-C/src/aws_iot_mqtt_client_connect.c:108-135 | the length pre-pass of CONNECT is the length of the body written |
| `MqttCodec.PublishRoundTrip` | components/esp-aws-iot/aws-iot-device-sdk-embedded-C/src/aws_iot_mqtt_client_publish.c:87-133 | deserializing a serialized publication recovers dup, QoS, retain, the id at QoS 1, the topic, and the payload in place |
| `MqttCodec.DeserializePublishFrom` | components/esp-aws-iot/aws-iot-device-sdk-embedded-C/src/aws_iot_mqtt_client_publish.c:295-354 | the cursor over the receive buffer computes the deserializing function, errors included |
| `MqttCodec.PayloadEndsWithPacket` | components/esp-aws-iot/aws-iot-device-sdk-embedded-C/src/aws_iot_mqtt_client_publish.c:295-354 | the payload reported ends where the packet does if and only if the QoS is 0 or the identifier is there; otherwise its length is 2^32 less the bytes missing |
| `MqttCodec.PayloadLengthWraps` | components/esp-aws-iot/aws-iot-device-sdk-embedded-C/src/aws_iot_mqtt_client_publish.c:343-349 | a packet of seven bytes reported with a payload of 4294967294 |
| `MqttCodec.RejectionsExactly` | components/esp-aws-iot/aws-iot-device-sdk-embedded-C/src/aws_iot_mqtt_client_publish.c:316-341 | which received packets are rejected, and with what code; every other one is received |
| `MqttCodec.SubscribeRoundTrip` | components/esp-aws-iot/aws-iot-device-sdk-embedded-C/src/aws_iot_mqtt_client_subscribe.c:58-103 | a decoder written from section 3.8 of MQTT 3.1.1 recovers id, topics and QoS, and rejects the packet exactly when dup is set or there is no topic |
| `MqttCodec.UnsubscribeRoundTrip` | components/esp-aws-iot/aws-iot-device-sdk-embedded-C/src/aws_iot_mqtt_client_unsubscribe.c:56-93 | the same from section 3.10 |
| `MqttCodec.ConnectRoundTrip` | components/esp-aws-iot/aws-iot-device-sdk-embedded-C/src/aws_iot_mqtt_client_connect.c:145-239 | a decoder written from section 3.1 recovers every parameter, and rejects the packet exactly when a password comes without a user name |
| `TopicFilter.IsTopicMatched` | components/esp-aws-iot/aws-iot-device-sdk-embedded-C/src/aws_iot_mqtt_client_common_internal.c:497-531 | the two-pointer loop computes the walk function |
| `TopicFilter.WalkIsMatches` | components/esp-aws-iot/aws-iot-device-sdk-embedded-C/src/aws_iot_mqtt_client_common_internal.c:497-531 | for every well-formed filter and every name the loop decides the rule by levels: literals equal, + one non-empty level, a final # one or more levels of which the first is not empty |
| `TopicFilter.NeverWider` | components/esp-aws-iot/aws-iot-device-sdk-embedded-C/src/aws_iot_mqtt_client_common_internal.c:494-531 | the client never matches more than section 4.7 of MQTT 3.1.1 |
| `TopicFilter.NarrowerExactly` | components/esp-aws-iot/aws-iot-device-sdk-embedded-C/src/aws_iot_mqtt_client_common_internal.c:494-531 | for every filter with # only last and every name it matches exactly what section 4.7 does, except where a wildcard meets an empty level and where # meets its parent level |
| `TopicFilter.WalkExactly` | components/esp-aws-iot/aws-iot-device-sdk-embedded-C/src/aws_iot_mqtt_client_common_internal.c:497-531 | the same of the character loop itself |
| `TopicFilter.NarrowerWitnesses` | components/esp-aws-iot/aws-iot-device-sdk-embedded-C/src/aws_iot_mqtt_client_common_internal.c:497-531 | both exceptions happen: "a/+" on "a/", "a/#" on "a/" and on "a" |
| `PacketReader.Client.ReadWrapperInto` | components/esp-aws-iot/aws-iot-device-sdk-embedded-C/src/aws_iot_mqtt_client_common_internal.c:362-391 | reads only what is missing from the buffer and keeps what arrived, whatever the outcome |
| `PacketReader.Client.DecodePacketRemainingLen` | components/esp-aws-iot/aws-iot-device-sdk-embedded-C/src/aws_iot_mqtt_client_common_internal.c:392-420 | the streaming length decoder computes the step function over partial reads |
| `PacketReader.Client.ReadPacketInto` | components/esp-aws-iot/aws-iot-device-sdk-embedded-C/src/aws_iot_mqtt_client_common_internal.c:422-492 | the whole reader computes the step function on buffer, index and network |
| `PacketReader.LengthDecodes` | components/esp-aws-iot/aws-iot-device-sdk-embedded-C/src/aws_iot_mqtt_client_common_internal.c:392-420 | the streaming decoder agrees with the buffer decoder on the stream, and holds no byte past the field unless it held it before |
| `PacketReader.ReadPacketIsFaithful` | components/esp-aws-iot/aws-iot-device-sdk-embedded-C/src/aws_iot_mqtt_client_common_internal.c:422-492 | a call delivers exactly the bytes of the next packet of the stream or keeps all of them for the next call; of a packet with a remaining length of at least the buffer it discards exactly its bytes or fails |
| `ReaderCodes.HeadCodes` | components/esp-aws-iot/aws-iot-device-sdk-embedded-C/src/aws_iot_mqtt_client_common_internal.c:362-447 | the first byte of header or length field that does not come decides the code, by the connection and by whether it is the first byte of the packet |
| `ReaderCodes.CallCodes` | components/esp-aws-iot/aws-iot-device-sdk-embedded-C/src/aws_iot_mqtt_client_common_internal.c:422-492 | the codes of a call, from bytes held, stream and schedule: nothing to read if and only if nothing is held and the first read brings nothing from a sound connection; a length error if and only if the field is too long and all there; and, of a packet that fits, a read error if and only if the connection breaks before header and length field are complete, FAILURE if and only if its body is cut short, and the packet if and only if all of it comes |
| `PacketReader.DiscardsTooMuch` | components/esp-aws-iot/aws-iot-device-sdk-embedded-C/src/aws_iot_mqtt_client_common_internal.c:450-473 | of a packet whose remaining length is shorter than the buffer but which does not fit with its header, a call that gets through the discarding loop takes the difference too many bytes |
| `PacketReader.DiscardsExactlyWhenLong` | components/esp-aws-iot/aws-iot-device-sdk-embedded-C/src/aws_iot_mqtt_client_common_internal.c:450-473 | so once a packet that does not fit has been discarded, the reader stands at the next one if and only if the remaining length was at least the buffer |
| `PacketReader.NextByteLost` | components/esp-aws-iot/aws-iot-device-sdk-embedded-C/src/aws_iot_mqtt_client_common_internal.c:450-473 | a packet of seven bytes in a buffer of six: a byte of the next packet is lost |
| `PacketReader.CallsAddUp` | components/esp-aws-iot/aws-iot-device-sdk-embedded-C/src/aws_iot_mqtt_client_common_internal.c:422-492 | over any number of calls, the packets delivered followed by the packets still in the stream are the packets of the stream |
| `PacketReader.ChunkIndependent` | components/esp-aws-iot/aws-iot-device-sdk-embedded-C/src/aws_iot_mqtt_client_common_internal.c:362-492 | two readers of the same byte stream under any two schedules deliver lists of which one continues the other, and the same list when no packet is left |
| `PacketReader.WholePacketDelivered` | components/esp-aws-iot/aws-iot-device-sdk-embedded-C/src/aws_iot_mqtt_client_common_internal.c:422-492 | a packet that is all there and fits is delivered by the next call whose reads are not cut short |
| `Callbacks.Client.SetClientState` | components/esp-aws-iot/aws-iot-device-sdk-embedded-C/src/aws_iot_mqtt_client.c:132-165 | the compare-and-set on the state word |
| `Callbacks.Client.DisconnectClient` | components/esp-aws-iot/aws-iot-device-sdk-embedded-C/src/aws_iot_mqtt_client_connect.c:532-563 | disconnect passes through DISCONNECTING to DISCONNECTED_MANUALLY, or puts the state back if it fails |
| `Callbacks.Client.DeliverMessage` | components/esp-aws-iot/aws-iot-device-sdk-embedded-C/src/aws_iot_mqtt_client_common_internal.c:546-571 | delivery brackets the callbacks with two compare-and-sets; the method computes the delivery function for every tree of nested calls |
| `Callbacks.Client.WaitForRead` | components/esp-aws-iot/aws-iot-device-sdk-embedded-C/src/aws_iot_mqtt_client_common_internal.c:725-747 | messages are delivered until one delivery fails |
| `Callbacks.Client.Perform` | components/esp-aws-iot/aws-iot-device-sdk-embedded-C/src/aws_iot_mqtt_client_publish.c:245-278 | publish, and in the same shape subscribe and unsubscribe: refused unless idle or inside a callback, and the found state restored only if nobody changed it |
| `Callbacks.PeacefulDelivery` | components/esp-aws-iot/aws-iot-device-sdk-embedded-C/src/aws_iot_mqtt_client_common_internal.c:546-571 | with no disconnect anywhere in the tree of calls, delivery returns with the state it found, and every yield, connect and reconnect inside is refused |
| `Callbacks.PeacefulCommandRestores` | components/esp-aws-iot/aws-iot-device-sdk-embedded-C/src/aws_iot_mqtt_client_publish.c:256-277 | likewise for publish, subscribe and unsubscribe, which then return their own result |
| `Callbacks.DeliveryUnwinds` | components/esp-aws-iot/aws-iot-device-sdk-embedded-C/src/aws_iot_mqtt_client_common_internal.c:546-571 | delivery restores the found state if and only if no disconnect succeeded below it; otherwise it reports the change and leaves the state exactly as the callbacks left it |
| `Callbacks.CommandUnwinds` | components/esp-aws-iot/aws-iot-device-sdk-embedded-C/src/aws_iot_mqtt_client_publish.c:256-277 | likewise for publish, subscribe and unsubscribe at any depth |
| `Callbacks.CommandCodes` | components/esp-aws-iot/aws-iot-device-sdk-embedded-C/src/aws_iot_mqtt_client_publish.c:245-278 | the code of publish, subscribe and unsubscribe in each of the fourteen states; a refused one makes no nested call, and success comes only from the two states that are not refused, without a disconnect below, and with the own result SUCCESS |
| `Callbacks.CommandDelivers` | components/esp-aws-iot/aws-iot-device-sdk-embedded-C/src/aws_iot_mqtt_client_common_internal.c:725-747 | a command that is not refused delivers every message that arrives while it waits, up to one below which a disconnect succeeds |
| `Callbacks.DisconnectCodes` | components/esp-aws-iot/aws-iot-device-sdk-embedded-C/src/aws_iot_mqtt_client_connect.c:532-563 | the outcome of disconnect in each of the fourteen states |
| `Callbacks.ConnectCodes` | components/esp-aws-iot/aws-iot-device-sdk-embedded-C/src/aws_iot_mqtt_client_connect.c:456-459 | in which states connect goes on, and its refusal in the others |
| `Callbacks.ReconnectCodes` | components/esp-aws-iot/aws-iot-device-sdk-embedded-C/src/aws_iot_mqtt_client_connect.c:574-590 | likewise attempt_reconnect, with its two refusals |
| `Callbacks.YieldCodes` | components/esp-aws-iot/aws-iot-device-sdk-embedded-C/src/aws_iot_mqtt_client_yield.c:279-302 | likewise yield, with its three |
| `Callbacks.DropIsFinal` | components/esp-aws-iot/aws-iot-device-sdk-embedded-C/src/aws_iot_mqtt_client.c:132-165 | if the callbacks open no connection again, the client is manually disconnected when all have returned |
| `TickTimer.ExpiryIsSound` | components/esp-aws-iot/port/timer.c:35-56 | however often the 32-bit counter wrapped, a countdown that reads as expired has run its time |
| `TickTimer.ExpiryExactly` | components/esp-aws-iot/port/timer.c:35-56 | it reads as expired if and only if the elapsed time modulo 2^32 reaches the timeout, so within one turn of the counter if and only if the elapsed time does |
| `TickTimer.ExpiryCanBeMissed` | components/esp-aws-iot/port/timer.c:35-50 | beyond one turn it is not exact, on a concrete timer |
| `TickTimer.Timer.HasExpired` | components/esp-aws-iot/port/timer.c:35-50 | the poll, and the one-tick sleep on a repeated poll within a tick |
| `TickTimer.Timer.CountdownMs` | components/esp-aws-iot/port/timer.c:52-56 | starts a countdown of whole ticks |
| `TickTimer.Timer.CountdownSec` | components/esp-aws-iot/port/timer.c:68-73 | exact up to (2^32 - 1) / 1000 seconds, wrapping beyond |
| `TickTimer.Timer.LeftMs` | components/esp-aws-iot/port/timer.c:58-66 | the product does not wrap, it is zero if and only if the timer has expired, and waiting that long and no less is waiting until expiry |
| `YieldModel.YieldFor` | components/esp-aws-iot/aws-iot-device-sdk-embedded-C/src/aws_iot_mqtt_client_yield.c:273-320 | whatever the network, the callbacks and the disconnect handler do, a yield that is not refused leaves one of the five settled states, never YIELD_IN_PROGRESS, and keeps the record sound |
| `YieldOutcome.WellEnded` | components/esp-aws-iot/aws-iot-device-sdk-embedded-C/src/aws_iot_mqtt_client_yield.c:273-320 | for every script: a yield that is not refused and reports SUCCESS or NETWORK_RECONNECTED leaves the client connected and idle |
| `YieldOutcome.QuietYieldSucceeds` | components/esp-aws-iot/aws-iot-device-sdk-embedded-C/src/aws_iot_mqtt_client_yield.c:273-320 | conversely, a yield of a connected, idle client in whose rounds no callback disconnects, no read breaks and no loss is due by script and timers reports SUCCESS and leaves it so |
| `YieldOutcome.YieldExactly` | components/esp-aws-iot/aws-iot-device-sdk-embedded-C/src/aws_iot_mqtt_client_yield.c:273-320 | state and code of every yield of such a client with calm callbacks and handlers, told from the script and its keep-alive fields: what the first round with trouble brings, or success |
| `YieldOutcome.ServedTurnExactly` | components/esp-aws-iot/aws-iot-device-sdk-embedded-C/src/aws_iot_mqtt_client_yield.c:200-271 | one turn while connected, told in the same way: a disconnect, a failed read, a loss with and without auto-reconnect, or none of them |
| `YieldOutcome.RoundExactly` | components/esp-aws-iot/aws-iot-device-sdk-embedded-C/src/aws_iot_mqtt_client_yield.c:78-113 | one reconnect round, told in the same way: code, state, interval and timer before the wait is over, after success, and after failure |
| `YieldOutcome.ConnectedExactly` | components/esp-aws-iot/aws-iot-device-sdk-embedded-C/src/aws_iot_mqtt_client_connect.c:452-485 | an accepted connection is idle and starts keep-alive anew from the moment of the CONNACK |
| `YieldOutcome.LossHandled` | components/esp-aws-iot/aws-iot-device-sdk-embedded-C/src/aws_iot_mqtt_client_yield.c:230-262 | for every disconnect handler: what a turn makes of a handled loss, by the state the handler left and auto-reconnect |
| `YieldOutcome.RefusalsExactly` | components/esp-aws-iot/aws-iot-device-sdk-embedded-C/src/aws_iot_mqtt_client_yield.c:279-302 | in each of the fourteen states: the refusals of connect, attempt_reconnect and yield, which change nothing |
| `YieldOutcome.DisconnectExactly` | components/esp-aws-iot/aws-iot-device-sdk-embedded-C/src/aws_iot_mqtt_client_connect.c:532-563 | disconnect in each of the fourteen states |
| `YieldOutcome.ResubscribeRefused` | components/esp-aws-iot/aws-iot-device-sdk-embedded-C/src/aws_iot_mqtt_client_subscribe.c:389-416 | the two refusals of resubscribe |
| `YieldModel.Act` | components/esp-aws-iot/aws-iot-device-sdk-embedded-C/src/aws_iot_mqtt_client_yield.c:200-320 | every application call, nested to any depth, keeps time, table and record sound and leaves the state unchanged or settled |
| `YieldModel.HandleDisconnect` | components/esp-aws-iot/aws-iot-device-sdk-embedded-C/src/aws_iot_mqtt_client_yield.c:53-75 | success if and only if the handler brought the client back to idle; settled in any case |
| `YieldRuns.PingTimeOutIsSound` | components/esp-aws-iot/aws-iot-device-sdk-embedded-C/src/aws_iot_mqtt_client_yield.c:115-178 | in every run a ping time-out is declared only when the latest PINGREQ was sent at least the keep-alive interval earlier in true time, with no PINGRESP or connection since, however often the counter wrapped |
| `YieldRuns.KeepAliveExactly` | components/esp-aws-iot/aws-iot-device-sdk-embedded-C/src/aws_iot_mqtt_client_yield.c:115-178 | in every reachable state, while the counter does not come round, an unanswered PINGREQ is declared lost exactly when the keep-alive interval has passed since it was sent, and the next PINGREQ is due exactly one interval after the last PINGREQ or CONNACK, whatever the disconnect handler then does |
| `BackOffRuns.RoundsWait` | components/esp-aws-iot/aws-iot-device-sdk-embedded-C/src/aws_iot_mqtt_client_yield.c:78-113 | for every script, setting and initial state: every reconnect round that comes after a loss, and after k failures since, has waited MIN * 2^k, in 32 bits, from that loss or failure, and that wait is at most MAX |
| `BackOffRuns.IntervalIs` | components/esp-aws-iot/aws-iot-device-sdk-embedded-C/src/aws_iot_mqtt_client_yield.c:102-108 | and the interval kept after any script with a loss on record is MIN * 2^k in 32 bits |
| `BackOffRuns.ObeysExactly` | components/esp-aws-iot/aws-iot-device-sdk-embedded-C/src/aws_iot_mqtt_client_yield.c:78-113 | from a client as initialised, by any script: a round has waited its full MIN * 2^k, with no wrap, if and only if a loss is on record and MIN * 2^k fits 32 bits; with no loss on record it has not waited at all |
| `BackOffRuns.NeverGivesUp` | components/esp-aws-iot/aws-iot-device-sdk-embedded-C/src/aws_iot_mqtt_client_yield.c:222-228 | and before any loss the interval stays 0 and no yield times out, however often it fails |
| `BackOffRuns.BackOffInEveryRun` | components/esp-aws-iot/aws-iot-device-sdk-embedded-C/src/aws_iot_mqtt_client_yield.c:78-113 | if the attempts of the rounds of every yield are calm, MIN <= MAX and 2*MAX < 2^32, whatever the handlers, the other callbacks and the application do: the round after k failures since a loss has waited MIN * 2^k from that loss or failure, and there are at most floor(log2(MAX/MIN)) + 1 failures |
| `BackOffRuns.TimedOutForGood` | components/esp-aws-iot/aws-iot-device-sdk-embedded-C/src/aws_iot_mqtt_client_yield.c:222-228 | after any such run with a loss on record: once that many failures have happened, and only then, the interval exceeds MAX, and the yield of a reconnecting client times out at once and changes nothing but time |
| `BackOffRuns.WaitWraps` | components/esp-aws-iot/aws-iot-device-sdk-embedded-C/src/aws_iot_mqtt_client_yield.c:102-108 | without 2*MAX < 2^32: the doubled wait is right if and only if it fits 32 bits, and the time-out is reported if and only if it fits and exceeds MAX |
| `BackOffWitnesses.ReconnectWithoutLoss` | components/esp-aws-iot/aws-iot-device-sdk-embedded-C/src/aws_iot_mqtt_client_connect.c:565-599 | a fresh client whose application calls attempt_reconnect, in vain, and yields: a round is tried with no wait |
| `BackOffWitnesses.NestedRoundWraps` | components/esp-aws-iot/aws-iot-device-sdk-embedded-C/src/aws_iot_mqtt_client_yield.c:78-113 | a run within the limits in which a round is tried, after a loss, with no wait: a callback of the attempt before it had reopened and yielded |
| `ReconnectOutcome.DueRoundExactly` | components/esp-aws-iot/aws-iot-device-sdk-embedded-C/src/aws_iot_mqtt_client_yield.c:78-113 | a due reconnect round with the link up that returns NETWORK_ATTEMPTING_RECONNECT leaves the client reconnecting if and only if no callback it reached disconnected, and manually disconnected otherwise, if such a callback opens no connection afterwards |
| `ReconnectOutcome.AttemptingExactly` | components/esp-aws-iot/aws-iot-device-sdk-embedded-C/src/aws_iot_mqtt_client_yield.c:273-320 | likewise any yield that returns NETWORK_ATTEMPTING_RECONNECT, from any state, with any limits, earlier rounds, reads and disconnect handlers: what matters are the callbacks the attempt of its last round reaches |
| `ReconnectOutcome.DroppedWhileResubscribing` | components/esp-aws-iot/aws-iot-device-sdk-embedded-C/src/aws_iot_mqtt_client_connect.c:565-599 | a round in which one does: a disconnect while a SUBACK is awaited |
| `ReconnectOutcome.DropSurvivesTurn` | components/esp-aws-iot/aws-iot-device-sdk-embedded-C/src/aws_iot_mqtt_client_yield.c:200-271 | a turn that finds the client manually disconnected leaves it so if and only if its read is not fatal and its keep-alive, by the timers, the time the read and its callbacks take and the PINGRESPs they meet, does not time out or fail to send; a loss overwrites the disconnect |
| `ReconnectOutcome.DropSurvivesYield` | components/esp-aws-iot/aws-iot-device-sdk-embedded-C/src/aws_iot_mqtt_client_yield.c:200-320 | so the disconnect stays in force through all the turns left of a yield if and only if none of them brings a loss |
| `ReconnectOutcome.DropOverwritten` | components/esp-aws-iot/aws-iot-device-sdk-embedded-C/src/aws_iot_mqtt_client_yield.c:200-320 | a yield in which a callback disconnects, a later read fails, and the client is left pending reconnect |
| `CalmScripts.CalmResubscribe` | components/esp-aws-iot/aws-iot-device-sdk-embedded-C/src/aws_iot_mqtt_client_subscribe.c:389-431 | with calm callbacks, or none reached that disconnects: resubscribing succeeds and restores IDLE if and only if nothing is left to do, which is if and only if every SUBSCRIBE that has to be sent is answered; otherwise the client stays resubscribing unless a callback reached while a SUBACK was awaited disconnected |
| `YieldRuns.ResubscriptionAddsUp` | components/esp-aws-iot/aws-iot-device-sdk-embedded-C/src/aws_iot_mqtt_client_subscribe.c:325-431 | for every script, one resubscription shrinks what is left to do by exactly the SUBACKs accepted, or, after a loss inside it, starts again from the whole table |
| `YieldRuns.ResubscriptionsAddUp` | components/esp-aws-iot/aws-iot-device-sdk-embedded-C/src/aws_iot_mqtt_client_subscribe.c:325-431 | for every script, state and setting: across a whole run with any number of retries, handlers left to do and SUBACKs accepted since the last loss make up the table |
| `YieldRuns.ResentOnlyAfterLoss` | components/esp-aws-iot/aws-iot-device-sdk-embedded-C/src/aws_iot_mqtt_client_subscribe.c:344-383 | in every run, a handler whose SUBACK was accepted is sent again only after a loss in between |
| `YieldRuns.ResubscribedAll` | components/esp-aws-iot/aws-iot-device-sdk-embedded-C/src/aws_iot_mqtt_client_subscribe.c:389-431 | for every script and state: resubscribing succeeds only with no handler below the first free slot left to do |
| `YieldRuns.ReconnectedAll` | components/esp-aws-iot/aws-iot-device-sdk-embedded-C/src/aws_iot_mqtt_client_connect.c:565-599 | so does attempt_reconnect report NETWORK_RECONNECTED |
| `YieldRuns.RoundResubscribedAll` | components/esp-aws-iot/aws-iot-device-sdk-embedded-C/src/aws_iot_mqtt_client_yield.c:78-113 | and a reconnect round, which then goes on with the yield |
| `YieldMachine.Client.SetClientState` | components/esp-aws-iot/aws-iot-device-sdk-embedded-C/src/aws_iot_mqtt_client.c:132-165 | the compare-and-set on the client object |
| `YieldMachine.Client.ConnectClient` | components/esp-aws-iot/aws-iot-device-sdk-embedded-C/src/aws_iot_mqtt_client_connect.c:452-485 | connect, with the messages that precede the CONNACK, computes the connect function in place |
| `YieldMachine.Client.AttemptToReconnect` | components/esp-aws-iot/aws-iot-device-sdk-embedded-C/src/aws_iot_mqtt_client_connect.c:565-599 | connect unless connected, then resubscribe |
| `YieldMachine.Client.FreeMessageHandlerIndex` | components/esp-aws-iot/aws-iot-device-sdk-embedded-C/src/aws_iot_mqtt_client_subscribe.c:173-185 | the first slot without a handler |
| `YieldMachine.Client.ResubscribeHandlers` | components/esp-aws-iot/aws-iot-device-sdk-embedded-C/src/aws_iot_mqtt_client_subscribe.c:325-387 | the resubscribing loop over the handler array |
| `YieldMachine.Client.ResubscribeAll` | components/esp-aws-iot/aws-iot-device-sdk-embedded-C/src/aws_iot_mqtt_client_subscribe.c:389-431 | moves to RESUBSCRIBE_IN_PROGRESS and back to idle only on success |
| `YieldMachine.Client.OnDisconnect` | components/esp-aws-iot/aws-iot-device-sdk-embedded-C/src/aws_iot_mqtt_client_yield.c:53-75 | disconnect, DISCONNECTED_ERROR, handler |
| `YieldMachine.Client.OnReconnectDue` | components/esp-aws-iot/aws-iot-device-sdk-embedded-C/src/aws_iot_mqtt_client_yield.c:78-113 | the reconnect round with doubling and time-out |
| `YieldMachine.Client.KeepConnectionAlive` | components/esp-aws-iot/aws-iot-device-sdk-embedded-C/src/aws_iot_mqtt_client_yield.c:115-178 | sends PINGREQ, waits for PINGRESP, declares the loss |
| `YieldMachine.Client.StartReconnecting` | components/esp-aws-iot/aws-iot-device-sdk-embedded-C/src/aws_iot_mqtt_client_yield.c:243-256 | interval back to MIN, delay timer started, marks cleared |
| `YieldMachine.Client.ReadCycle` | components/esp-aws-iot/aws-iot-device-sdk-embedded-C/src/aws_iot_mqtt_client_common_internal.c:636-700 | one read: delivery, PINGRESP or failure |
| `YieldMachine.Client.InternalYield` | components/esp-aws-iot/aws-iot-device-sdk-embedded-C/src/aws_iot_mqtt_client_yield.c:200-271 | the do/while loop |
| `YieldMachine.Client.YieldClient` | components/esp-aws-iot/aws-iot-device-sdk-embedded-C/src/aws_iot_mqtt_client_yield.c:273-320 | the refusals, the loop, and the compare-and-set back to idle |
| `Shadow.TopicInjective` | components/esp-aws-iot/aws-iot-device-sdk-embedded-C/src/aws_iot_shadow_records.c:143-169 | different things, actions or answers have different topics, whatever characters the thing names contain |
| `Shadow.ShadowRecords.GetNextFreeIndexOfSubscriptionList` | components/esp-aws-iot/aws-iot-device-sdk-embedded-C/src/aws_iot_shadow_records.c:132-141 | the first free record, marked used, or -1 |
| `Shadow.ShadowRecords.FindIndexOfSubscriptionList` | components/esp-aws-iot/aws-iot-device-sdk-embedded-C/src/aws_iot_shadow_records.c:238-248 | the first record in use with the topic, or -1 |
| `Shadow.ShadowRecords.IsSubscriptionPresent` | components/esp-aws-iot/aws-iot-device-sdk-embedded-C/src/aws_iot_shadow_records.c:304-330 | true if and only if both topics are held |
| `Shadow.ShadowRecords.SubscribeToShadowActionAcks` | components/esp-aws-iot/aws-iot-device-sdk-embedded-C/src/aws_iot_shadow_records.c:332-385 | both records or neither; with fewer than two free records it changes nothing and still reports SUCCESS |
| `Shadow.ShadowRecords.IncrementSubscriptionCnt` | components/esp-aws-iot/aws-iot-device-sdk-embedded-C/src/aws_iot_shadow_records.c:387-403 | counts both topics up, in eight bits, and takes over the stickiness |
| `Shadow.ShadowRecords.UnsubscribeFromAcceptedAndRejected` | components/esp-aws-iot/aws-iot-device-sdk-embedded-C/src/aws_iot_shadow_records.c:250-288 | counts both topics down, or drops them at their last count unless sticky |
| `Shadow.ShadowRecords.AckStatus` | components/esp-aws-iot/aws-iot-device-sdk-embedded-C/src/aws_iot_shadow_records.c:180-236 | the first waiter with the client token is released |
| `Shadow.ShadowRecords.HandleExpiredResponseCallbacks` | components/esp-aws-iot/aws-iot-device-sdk-embedded-C/src/aws_iot_shadow_records.c:457-471 | every overdue waiter is released, in order |
| `Shadow.ShadowRecords.GetNextFreeIndexOfAckWaitList` | components/esp-aws-iot/aws-iot-device-sdk-embedded-C/src/aws_iot_shadow_records.c:425-442 | the first free waiter, if any |
| `Shadow.ShadowRecords.InternalAction` | components/esp-aws-iot/aws-iot-device-sdk-embedded-C/src/aws_iot_shadow_actions.c:32-76 | finds a waiter, subscribes or counts up, publishes, and only then waits |
| `Shadow.StepKeeps` | components/esp-aws-iot/aws-iot-device-sdk-embedded-C/src/aws_iot_shadow_records.c:180-471 | every request, answer and time-out keeps both topics of every pair held alike, with a count of at least the number waiting |
| `Shadow.SubscriptionsOutliveWaiters` | components/esp-aws-iot/aws-iot-device-sdk-embedded-C/src/aws_iot_shadow_records.c:213-288 | in every orderly run both topics of every waiting request are subscribed, with equal counts of at least the number waiting on them |
| `Shadow.LastAnswerRemovesBoth` | components/esp-aws-iot/aws-iot-device-sdk-embedded-C/src/aws_iot_shadow_records.c:250-288 | with no sticky request and no failed publish the counts are the numbers waiting, so the last answer or time-out removes both records |
| `Shadow.HeardExactlyWithRoom` | components/esp-aws-iot/aws-iot-device-sdk-embedded-C/src/aws_iot_shadow_actions.c:47-73 | a tracked request that returns SUCCESS has its pair subscribed if and only if it was there already or two records were free |
| `Shadow.CountWraps` | components/esp-aws-iot/aws-iot-device-sdk-embedded-C/src/aws_iot_shadow_records.c:387-403 | counting up covers the new waiter if and only if the count was below 255 |
| `Shadow.AskCode` | components/esp-aws-iot/aws-iot-device-sdk-embedded-C/src/aws_iot_shadow_actions.c:32-76 | a tracked request succeeds if and only if a waiter is free, the publish succeeds, and its pair is there, has no room or is accepted; an untracked one if and only if the publish does |
| `Shadow.AskWaits` | components/esp-aws-iot/aws-iot-device-sdk-embedded-C/src/aws_iot_shadow_actions.c:69-76 | a tracked request that succeeds takes the first free waiter, with its token, pair and timeout; otherwise no waiter changes |
| `Shadow.AnswerExactly` | components/esp-aws-iot/aws-iot-device-sdk-embedded-C/src/aws_iot_shadow_records.c:213-231 | an answer frees the first waiter in use with its client token and no other, and changes nothing if there is none; one request fewer is outstanding on that pair, whose two topics are counted down or ended as the unsubscribes fare |
| `Shadow.ReleaseLook` | components/esp-aws-iot/aws-iot-device-sdk-embedded-C/src/aws_iot_shadow_records.c:250-288 | releasing a pair counts its two topics down, ends them at their last count if not sticky and the unsubscribe succeeds, and leaves every other subscription as it was |
| `Shadow.SweepExactly` | components/esp-aws-iot/aws-iot-device-sdk-embedded-C/src/aws_iot_shadow_records.c:457-471 | a sweep frees exactly the waiters in use whose timers have expired |
| `Shadow.SweptExactly` | components/esp-aws-iot/aws-iot-device-sdk-embedded-C/src/aws_iot_shadow_records.c:457-471 | so, within one turn of the counter, a request is given up exactly when its timeout has run in true time |

## Left out

- JsmnParser.Parser.Parse: positions and counts are unbounded integers; texts of 2^31 characters or more, where the C
  `int` fields overflow, are not distinguished. JSMN_STRICT is not modelled; a NUL ends the text.
- JsonLookup.FindTokenInArray: reading past the last slot is a result of its own (`Overrun`) in the lookup function and
  excluded by the method, since the C code then reads memory it does not own.
- JobsJson.SerializeState.Print: a call is given its formatted text; vsnprintf's own formatting is not modelled, nor totals
  beyond the C `int`.
- JobsJson.SerializeAndFind: for a key the request does not have, a slot behind the tokens must start at or past the end of
  the text, as otherwise the lookup runs off the array (JsonLookup.FindTokenInObject).
- JsmnBuilds.BuildsAgreeExactly: sizes are not compared off the well-formed documents.
- RemainingLength.DecodeFromBuffer: the buffer holds the whole field, since the C loop has no bound and would read past it.
- MqttCodec.SerializePublish: the dup parameter is a flag; acknowledgements, PINGREQ and DISCONNECT packets, and CONNACK
  and SUBACK contents are not modelled. Bodies of 2^32 - 6 bytes or more are excluded, and those longer than 268435455 bytes in
  a buffer exactly five bytes longer, where the C code writes one byte past txBufLen.
- MqttCodec.SerializeSubscribe: the same two kinds of bodies are excluded.
- MqttCodec.SerializeUnsubscribe: the same two kinds of bodies are excluded.
- MqttCodec.PublishRoundTrip: bodies longer than 268435455 bytes are excluded; what is written then no reader accepts
  (RemainingLength.DecodeEncoded).
- MqttCodec.DeserializePublishFrom: the buffer holds the packet its length announces, as the comment over the C function
  asks.
- PacketReader.ReadPacketIsFaithful: packets whose header and remaining length together reach the buffer size while the
  remaining length alone does not are outside this statement; PacketReader.DiscardsTooMuch says what becomes of them.
- PacketReader.DiscardsExactlyWhenLong: of a packet of remaining length 0, which is this long only in a buffer of five bytes,
  a first read that is cut short is not taken as having got through, although the code reports it as such.
- ReaderCodes.CallCodes: the codes of reads that fail while a packet that does not fit is being discarded are not told apart.
- YieldOutcome.YieldExactly: a yield that loses the connection with rounds to go is left open there; each of its further rounds is
  decided by YieldOutcome.RoundExactly.
- Callbacks.Client.WaitForRead: the timer and the awaited packet type are folded into the script and the result code.
- Callbacks.Client.Perform: publish, subscribe and unsubscribe share one method, as their handling of the state is the
  same. What an opening call inside a callback does when it is not refused is an arbitrary settled state; that connect,
  reconnect and yield end in one is proved of the full model (YieldModel.Act).
- YieldModel.Act: commands made from callbacks are not repeated in the yield scripts, since by Callbacks.CommandUnwinds
  they leave the state as the calls nested in them do. The handler table keeps its entries: subscribing and unsubscribing
  during a run are not part of these scripts.
- YieldModel.YieldFor: the yield timer is represented by the number of rounds in the script; timers inside connect and
  resubscribe by the outcomes given. The counter of network disconnects is not kept.
- BackOffRuns.BackOffInEveryRun: attempts of a yield's own rounds whose callbacks open a connection after disconnecting are
  outside; BackOffRuns.RoundsWait and BackOffRuns.ObeysExactly cover them.
- ReconnectOutcome.DueRoundExactly: a callback that disconnects during the attempt and opens a connection afterwards is
  outside, as it leaves the client in whatever settled state it brings it to. The interval is at most MAX, as yield has tested.
- ReconnectOutcome.DropSurvivesTurn: callbacks and disconnect handlers that open a connection are outside, as they end the
  disconnect themselves.
- Shadow.ShadowRecords.SubscribeToShadowActionAcks: the clean-up unsubscribe of a refused pair and the settling wait have no
  effect on the tables and are left out.
- Shadow.ShadowRecords.HandleExpiredResponseCallbacks: the application's time-out callback is left out.
- Shadow.ShadowRecords.InternalAction: extracting the client token and testing for a callback are one given flag.
- Shadow.ShadowRecords.AckStatus: the client token is given, as extracted from the payload; application callbacks do not
  call back into the tables, and the version number bookkeeping is not modelled.
- Shadow.TopicInjective: topics are not truncated; thing names are assumed to fit their buffers.
- The describe and client-token-only serializers, the number and string value parsers, and the shadow document builder:
  library formatting.
- Argument checks for NULL pointers: Dafny references that are not marked nullable cannot be NULL.
- TLS, sockets, threads, mutexes, FreeRTOS queues, Wi-Fi, PPP, flash storage and peripherals of the firmware.
