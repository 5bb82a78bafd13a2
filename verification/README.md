# A verified model of grpc-tools

grpc-tools is a set of programs around gRPC traffic: a proxy forwards RPCs, grpc-dump records
them, grpc-fixture answers a client from a recording, grpc-replay sends a recording again and
compares the answers. This project models what these programs do step by step and proves what
they keep, in five groups of modules.

**Forwarding and recording.** `Forwarding` is a transition system for one proxied RPC: client,
backend, four FIFO queues, the two forwarding goroutines with their one-slot error channels, the
select loop, the recorder and the dump interceptor. `ForwardingSafety` proves its invariant and
what a user can rely on; `ForwardingOutcome` explains the result of every run by the steps in
which something failed, and shows that any exchange can go through; `CausalLog` proves that the
log, and what is dumped of it, is a linear extension of the causal order of the two endpoints.
`Recorder` has the recording stream itself and the name an RPC is recorded under.

**Fixture and replay.** `Recordings` says what a loaded dump means as a list of message
sequences. `FixtureTrie` builds the heap of tree nodes in place and refines that list.
`Interceptor` is the tree-walking server, `Replayer` the client, and `ReplayProduct` their product
over FIFO queues, in which the condition for every replay to end in OK is exact. `Encoder` is the
chain of resolvers both sides share.

**Unknown fields.** `Wire` parses the protobuf wire format ("Message Structure" in the Protocol
Buffers Encoding specification), `WireTheorems` proves it the inverse of a serializer, and
`WireGrammar` that it accepts exactly the messages of the format's grammar. `Enrichment` guesses a
schema for the fields a descriptor lacks, `Builder` does the same by updating builders in place,
`EnrichmentTheorems` proves what that does to each field number, `EnrichmentExact` when the second
decode succeeds and what it knows then, `EnrichmentSuccess` when the enrichment itself succeeds
and what it adds, and `Decoder` is the decoder around it.

**Connections.** `PeekConn` is the peeking connection over arrays and short reads, `Tunnel` the
half-close protocol of forwarded connections, `Mux` the way of every connection through the
listeners, `MuxHistory` what became of each, told by the steps of the run, and `ConnPool` the
connection cache under interleaving.

`Messages` holds the values they share.

Where the code and its comments disagree the model follows the code. `encode.go` announces a
default resolver that always succeeds, but adds none, so encoding can fail. The listener behind
the TLS queue is meant to let non-HTTP connections pass by, but a TLS connection no longer tells
its destination, so all of them are handed to the server. And `grpc_handler.go` takes every
io.EOF from the client's side for the happy end of its stream, also when it comes from a send.
The pattern for HTTP methods in `tls_mux.go` anchors only the first of them at the start of the
connection; the other two are found anywhere in the first eight bytes.

Five properties do not hold without a condition, and the condition is exact.

- A nil result of the handler does not mean that the backend was given every request
  (`NilDoesNotCoverRequests`): in any run it was given every logged one if and only if no send to
  it has failed or is under way (`RequestsAreCoveredUnlessASendFailed`).
- Enrichment can spoil a decode, with or without a change of wire type
  (`RepeatsCanSpoilADecode`, `RepeatedMessagesCanSpoilADecode`): for every message it succeeds if
  and only if the message fits what is guessed from its own first occurrences
  (`EnrichmentIsDecided`, `DecodingIsDecided`).
- A connection that arrives at the mux may never be routed. In every reachable state it can still
  be if and only if it is not `Doomed` (`RoutedUnlessDoomed`), and there are runs for each of the
  reasons: nobody takes errors out of the error channels, so one that is full holds up a goroutine
  with a failed peek (`FullErrorsBlockAHandler`) and also, after an error of accepting, the only
  goroutine that accepts connections, whatever these have to say (`FullErrorsBlockTheAcceptor`);
  and the plain server stops for good when a second peek fails, after which the plain queue fills
  up (`AFullQueueBlocksAHandler`).
- A tunnel finishes if and only if at most one of its ends is a peeker over a connection without
  half-close (`FinishesUnlessBothCount`). The source never builds one where both are, since its
  far end always comes from a dial.
- An RPC is loaded and replayed under the name it was recorded with if and only if that name is a
  service and a method, each after a slash (`RecordedUnderItsName`): of a name with more slashes
  only the first two parts are recorded.

## Model

| member | source | states |
|---|---|---|
| CausalLog.LogIsALinearExtension | grpc-dump/dump/recorded_server_stream.go:43-74 | in every run and at every moment, a message on which a logged message depends through any chain of sends and reads at the two endpoints is in the log, at an earlier position |
| CausalLog.DumpIsALinearExtension | grpc-dump/dump/dump_interceptor.go:58-82 | the same for the list that is dumped, even while a goroutine still runs: it is causally closed and causally ordered |
| CausalLog.LogHoldsTheMessages | grpc-dump/dump/recorded_server_stream.go:43-74 | the position of the k-th message of a side holds exactly the k-th payload that side emitted |
| CausalLog.EveryRunIsCausal | grpc-proxy/grpc_handler.go:142-190 | record after receive, record before send and forward after receive together put everything a sender had read before its message into the log before that message |
| CausalLog.StepIsCausal | grpc-proxy/grpc_handler.go:142-190 | each single step of an endpoint, a goroutine or the handler keeps the causal invariant |
| CausalLog.ChainIsLogged | grpc-dump/dump/recorded_server_stream.go:43-74 | direct precedence in the log composes along chains of any length |
| ForwardingSafety.EveryRunIsSafe | grpc-proxy/grpc_handler.go:64-95 | the invariant that ties queues, goroutines, channels, select loop, log and dump together holds in every reachable state |
| ForwardingSafety.EachSideSeesAPrefix | grpc-proxy/grpc_handler.go:142-190 | what each side has read is a prefix of the log of the other side's messages, which is a prefix of what that side emitted; headers go out at most once and before the first response is read |
| ForwardingSafety.MessagesAreConserved | grpc-proxy/grpc_handler.go:142-190 | in every run what each endpoint emitted is exactly what the other one read, what is queued, and at most one message that the goroutine holds or has lost, in this order |
| ForwardingSafety.NilMeansEverythingForwarded | grpc-proxy/grpc_handler.go:83-93 | a nil return means that the backend ended with status OK and that every backend message was forwarded, and dumped |
| ForwardingSafety.NobodyBlocks | grpc-proxy/grpc_handler.go:61-95 | the last return of the handler is unreachable in every interleaving, a goroutine with an error to report can always report it, a selecting handler can always take a report that is there, and the handler never waits for a goroutine that is gone |
| ForwardingSafety.DumpIsAFixedPrefix | grpc-dump/dump/dump_interceptor.go:58-82 | while the dump is decoded no step changes the log, and once written the dump is a prefix of whatever the log becomes |
| ForwardingSafety.NilDoesNotCoverRequests | grpc-proxy/grpc_handler.go:70-74 | a run with a nil return in which a send to the backend failed with io.EOF, after the backend had ended the RPC, and the backend was given strictly less than the log has from the client |
| ForwardingSafety.RequestsAreCoveredUnlessASendFailed | grpc-proxy/grpc_handler.go:174-190 | in every run the backend was given all logged requests if and only if no step of the run is a failed send to it and none is under way, and all emitted ones if and only if in addition none waits to be logged |
| ForwardingSafety.LostOnlyByFailedSends | grpc-proxy/grpc_handler.go:183-186 | in every run the goroutine has lost a message if and only if one of its sends has failed |
| ForwardingOutcome.TheResultIsTheFailureTaken | grpc-proxy/grpc_handler.go:67-95 | in every run, over its steps alone: the handler has returned if and only if it has taken the report of the backend's side, or one from the client's side that is not io.EOF; the result is nil if and only if the report it took from the backend's side is io.EOF, and an error if and only if that error is what the side it took failed with; the sending side has been closed if and only if io.EOF was taken from the client's side |
| ForwardingOutcome.EveryRunIsExplained | grpc-proxy/grpc_handler.go:142-190 | in every run each goroutine's report, once there is one, is the error of the step in which it failed, whether it is still in the channel or has been taken |
| ForwardingOutcome.S2CFailsOnce | grpc-proxy/grpc_handler.go:174-190 | in every run the goroutine from the client to the backend fails at most once, so its error is determined by the steps |
| ForwardingOutcome.C2SFailsOnce | grpc-proxy/grpc_handler.go:142-172 | the same for the goroutine from the backend to the client |
| ForwardingOutcome.AnythingCanFail | grpc-proxy/grpc_handler.go:142-190 | in every reachable state a goroutine that receives or sends, and is not kept from it by the dump, can fail with any error |
| ForwardingOutcome.SendsEndWithTheBackend | grpc-proxy/grpc_handler.go:183-186 | a send to the backend has failed with io.EOF only in runs in which the backend has ended the RPC |
| ForwardingOutcome.TheDumpIsTheLogAtTheLock | grpc-dump/dump/dump_interceptor.go:56-82 | in every run the list that is being decoded or has been written is the log as it was when the interceptor took the lock |
| ForwardingOutcome.TheEndMeansEverythingWasSaid | grpc-proxy/grpc_handler.go:70-74 | in every run in which receiving from the client has ended with io.EOF the client has closed its side, and everything it said is in the log and was given to the backend |
| ForwardingOutcome.EveryExchangeCanGoThrough | grpc-proxy/grpc_handler.go:64-95 | for every sequence of client and server messages, and whether or not the client closes its side in the end, there is a run that passes everything through in this order, the close included, ends with a nil result and dumps exactly that sequence |
| Recorder.RecordedServerStream.SendMsg | grpc-dump/dump/recorded_server_stream.go:43-57 | the message is logged as the server's whether or not the send succeeds, a nil message as the empty one, and is passed on as it came |
| Recorder.RecordedServerStream.RecvMsg | grpc-dump/dump/recorded_server_stream.go:59-74 | a message is logged as the client's exactly when it was received |
| Recorder.RecordedServerStream.SendHeader | grpc-dump/dump/recorded_server_stream.go:22-27 | headers are joined to those recorded before, whether or not sending succeeds |
| Recorder.RecordedServerStream.SetHeader | grpc-dump/dump/recorded_server_stream.go:29-34 | the same for headers that are only set |
| Recorder.RecordedServerStream.SetTrailer | grpc-dump/dump/recorded_server_stream.go:36-41 | trailers replace those recorded before and are passed on to the wrapped stream |
| Recorder.JoinIsAMonoid | grpc-dump/dump/recorded_server_stream.go:22-34 | headers recorded by several calls are the same in whatever grouping they are joined, and a call without headers changes nothing |
| Recorder.UseRecorder | grpc-dump/dump/recorded_server_stream.go:43-74 | after any sequence of calls the log filtered to the client is what was received, filtered to the server what was attempted, what was delivered is a subsequence of that, and the log has only grown |
| Recorder.RecordedServerStream.DumpMessages | grpc-dump/dump/dump_interceptor.go:70-77 | decoding fills in every message in place and changes no event, no order and no length |
| Recorder.RecordedUnderItsName | grpc-dump/dump/dump_interceptor.go:56-62 | the name under which a recorded RPC is loaded and replayed is the one it was called by if and only if that is a service and a method without slashes, each after a slash; and then those are what is recorded |
| Recordings.FollowingCharacterised | grpc-fixture/fixture/load.go:49-63 | the continuations of a path are exactly the recorded ones, without repetition, and ordered by the recording that first has them |
| Recordings.FirstFollowingIsEarliest | grpc-fixture/fixture/load.go:49-63 | the first continuation is that of the earliest recording that shares the path and goes on |
| Recordings.ReloadChangesNothing | grpc-fixture/fixture/load.go:40-66 | loading a sequence that is stored already, or a prefix of one, changes no path and no order |
| FixtureTrie.MatchesWithLeaf | grpc-fixture/fixture/load.go:56-63 | appending one leaf to an index of the recordings yields the index of the recordings in which the newest has grown by that event, at every place |
| FixtureTrie.MatchesWhenFound | grpc-fixture/fixture/load.go:49-55 | when the child exists the same index already fits the grown recordings |
| FixtureTrie.MatchesWithRoot | grpc-fixture/fixture/load.go:40-43 | an RPC without messages adds at most the root of its stream |
| FixtureTrie.MatchesAfterReload | grpc-fixture/fixture/load.go:40-66 | loading an RPC that is stored leaves the index as it was: every place and every order of children |
| FixtureTrie.IndexIsUnique | grpc-fixture/fixture/load.go:12-18 | a list of recordings has only one trie: which places have a node and what follows at each is determined |
| FixtureTrie.PlaceIsItsPath | grpc-fixture/fixture/load.go:14-18 | a node's place and its stream name with its root-to-node path determine each other |
| FixtureTrie.Fixture.ReadsRecordings | grpc-fixture/fixture/load.go:40-66 | in the heap the children of a node carry exactly the recorded continuations of its path, in order, each at its own place |
| FixtureTrie.Fixture.PathsAreThePrefixes | grpc-fixture/fixture/load.go:40-66 | in the heap the root-to-node paths are exactly the prefixes of the recorded sequences: the empty one leads to the root of its stream, any other to a child of its parent |
| FixtureTrie.Fixture.SiblingsDiffer | grpc-fixture/fixture/load.go:49-63 | siblings differ in origin or bytes |
| FixtureTrie.Fixture.SubtreesDisjoint | grpc-fixture/fixture/load.go:56-63 | subtrees that do not contain each other share no heap node |
| FixtureTrie.Fixture.FindChild | grpc-fixture/fixture/load.go:49-55 | the search finds the child for a message exactly when the index has that message there |
| FixtureTrie.Fixture.AppendChild | grpc-fixture/fixture/load.go:56-63 | the heap update keeps all nodes linked and adds exactly one fresh node, last among its siblings |
| FixtureTrie.Fixture.Descend | grpc-fixture/fixture/load.go:44-66 | one round of the inner loop keeps the heap a trie of the recordings while the newest recording grows by the message |
| FixtureTrie.Fixture.OpenStream | grpc-fixture/fixture/load.go:40-43 | a stream has a root from its first RPC on, and the heap stays a trie of the recordings |
| FixtureTrie.Fixture.LoadRpc | grpc-fixture/fixture/load.go:30-67 | one RPC appends one recording of its encoded messages, all of them or those before the first that cannot be encoded, and success says which; if they are stored already, the heap keeps the same nodes at the same places with the same children |
| FixtureTrie.Fixture.LoadMessages | grpc-fixture/fixture/load.go:43-66 | the inner loop does that below the root of a stream, and no node changes if the last place it reaches was there before |
| FixtureTrie.LoadFixture | grpc-fixture/fixture/load.go:21-70 | the loaded heap is the trie of the whole dump, and loading fails exactly when some message of some RPC cannot be encoded |
| Interceptor.ServeFollowsRecordings | grpc-fixture/fixture/fixture_interceptor.go:18-66 | whatever the client does the exchange is a prefix of a recorded RPC and takes only moves the recordings dictate; it completes if and only if something has been exchanged and no recording goes on, and that is after a whole recorded RPC; its length is bounded by the longest recording |
| Interceptor.ServeConsumesClient | grpc-fixture/fixture/fixture_interceptor.go:25-60 | the exchange uses the client's messages in order, all of them when receiving fails, and stops without a match exactly at a message that is not recorded there |
| Interceptor.ServeIsMonotone | grpc-fixture/fixture/fixture_interceptor.go:20-38 | a client that sends more, or stays longer, sees the same beginning of the exchange, and the same whole if it had completed |
| Interceptor.PlayedToTheEnd | grpc-fixture/fixture/fixture_interceptor.go:18-66 | a recording whose server messages are determined and that no other recording extends is exchanged as a whole and completes, with any client that sends its messages and takes the answers |
| Interceptor.AllFromServer | grpc-fixture/fixture/fixture_interceptor.go:20-23 | the scan tells whether there are continuations and all of them are the server's |
| Interceptor.Round | grpc-fixture/fixture/fixture_interceptor.go:18-60 | one round over the heap makes the move the recordings dictate and arrives at the node of the longer path |
| Interceptor.Walk | grpc-fixture/fixture/fixture_interceptor.go:18-66 | the loop from the root on terminates with the outcome and exchange of the specification, completion at a leaf included, and sends exactly its server messages |
| Interceptor.Intercept | grpc-fixture/fixture/fixture_interceptor.go:11-67 | the heap walk terminates and its outcome, exchange and sent messages are those of the specification over the recordings; it completes after exactly the messages of a recording that the client plays and that can be played to its end; only an unknown method is refused at once |
| ReplayProduct.ReplayIsAlwaysOK | grpc-replay/replay/replay.go:79-106 | in every interleaving of replayer and fixture a replayable RPC meets nothing but OK, is never stuck before that, and takes a bounded number of steps |
| ReplayProduct.ReplayableIsExact | grpc-replay/replay/replay.go:79-106 | replaying a stored RPC can end in OK if and only if its origins are known and each of its server messages is the first of nothing but server messages saved at that point |
| ReplayProduct.WholeDumpReplaysExactlyWhenDeterminate | grpc-replay/replay/replay.go:47-107 | all RPCs of a dump replay to OK if and only if the server was determinate: where recordings share a prefix and one goes on with a server message, all that go on do so with the same |
| ReplayProduct.OKOnlyIfReplayable | grpc-replay/replay/replay.go:98-106 | one run that ends in OK is enough to know the condition holds |
| ReplayProduct.RunsStayInStep | grpc-fixture/fixture/fixture_interceptor.go:18-66 | in every run the fixture is behind by queued client messages or ahead by queued server messages, send and receive errors never occur while replaying, and the steps left shrink with each step |
| ReplayProduct.Progress | grpc-replay/replay/replay.go:91-97 | a replayer that waits for a server message of a replayable RPC has a fixture that can move |
| ReplayProduct.FixtureStepsLikeInterceptor | grpc-fixture/fixture/fixture_interceptor.go:18-66 | the fixture of the product takes the step and comes to the end that the interceptor does on the same queue |
| ReplayProduct.FixtureTakesWhatItHears | grpc-fixture/fixture/fixture_interceptor.go:42-60 | what the fixture takes from the queue in a step is what it has heard, or the one message that matches nothing |
| Replayer.Exchange | grpc-replay/replay/replay.go:85-105 | one recorded message is sent or received and compared, and anything else ends with the verdict that fits |
| Replayer.ReplayRpc | grpc-replay/replay/replay.go:79-106 | what was sent and received are the encodings of the recorded messages in order, OK is reported exactly when none is left, and any other result is explained by the first message that could not be exchanged |
| Replayer.ProductReplaysLikeExchange | grpc-replay/replay/replay.go:85-105 | the replayer in the product with the fixture sends, receives and stops as the replayer over a stream does |
| Replayer.LoaderAndReplayerAgree | grpc-replay/replay/replay.go:80-83 | the messages the replayer works with are those the loader stored for the same RPC |
| Replayer.DumpReplaysAgainstItsFixture | grpc-replay/replay/replay.go:47-107 | any RPC of a dump with a determinate server, replayed against the fixture loaded from that dump, meets nothing but OK and is never stuck |
| Encoder.EncodingIsDecided | internal/proto_decoder/encode.go:32-86 | in terms of the steps of the resolvers alone: the bytes are those of the first resolver, in the order of the list, whose whole pipeline succeeds, or else the raw ones when present, or else there is an error |
| Encoder.FirstSuccessDecides | internal/proto_decoder/encode.go:54-86 | the recursive search finds bytes if and only if the pipeline of some resolver leads to them and that of no earlier one to any |
| Encoder.AttemptProduces | internal/proto_decoder/encode.go:60-82 | one attempt gives bytes exactly if the resolver has a descriptor, the human readable form has a JSON form, that is a message of the descriptor, and the message has these bytes |
| Encoder.EncodeFromHumanReadable | internal/proto_decoder/encode.go:54-86 | the loop with its early return gives bytes exactly if a resolver leads to them and no earlier one to any, and an error when there is none |
| Encoder.Encode | internal/proto_decoder/encode.go:32-52 | the four cases of which forms are present come to the specified encoding, said of the pipeline alone |
| Wire.Parse | internal/proto_decoder/unknown_message.go:161-168 | the records of a message never weigh more than its bytes, which bounds every recursion into nested payloads |
| Wire.NestedIsSmaller | internal/proto_decoder/unknown_message.go:165-174 | a nested payload is strictly shorter than the message around it |
| WireTheorems.ParseIsExact | internal/proto_decoder/unknown_message.go:24-28 | parsing the serialization of any storable records, groups included, returns them |
| WireTheorems.ParsedIsStorable | internal/proto_decoder/unknown_message.go:24-28 | parsing yields nothing else: values fit 64 bits, fixed payloads have their size, a group holds a message |
| WireTheorems.ReserializingKeepsTheMessage | internal/proto_decoder/unknown_message.go:161-168 | any bytes that parse have a canonical form that parses to the same message |
| WireTheorems.RecordIsLocal | internal/proto_decoder/unknown_message.go:161-168 | scanning a record depends only on the bytes it says it used |
| WireGrammar.ParseDecidesTheGrammar | internal/proto_decoder/unknown_message.go:161-168 | parsing gives records exactly if the bytes are a message of the wire format made of these records, canonical or not: varints of up to ten bytes, the wire type of each payload in its tag, groups up to an end tag of their number; so wire types 6 and 7 and stray end tags are refused |
| Enrichment.Decode | internal/proto_decoder/decode.go:63-69 | each wire field lands in exactly one decoded field, in order, with its number and its payload, and decoding does not add weight |
| EnrichmentExact.EnrichmentIsDecided | internal/proto_decoder/unknown_message.go:45-131 | for every message: if enrichment succeeds, decoding under the enriched descriptor succeeds if and only if the message fits itself as the sample; then nothing known has changed, no unknown field is left at any depth if and only if the message covers itself, and enriching once more adds nothing |
| EnrichmentExact.EnrichedDecode | internal/proto_decoder/unknown_message.go:45-131 | the same conditions, field by field, for any message decoded under a descriptor that was enriched from another one |
| EnrichmentExact.EnrichedIsFixed | internal/proto_decoder/unknown_message.go:45-131 | whenever the second decode succeeds, the enriched descriptor is a fixed point: no field is unknown at the top, and every nested descriptor was already enriched from the records that are decoded for it |
| EnrichmentExact.BodyIsDecoded | internal/proto_decoder/unknown_message.go:82-100 | the nested message that is inspected, the first of a repeated field or all occurrences merged, is the decode of the corresponding wire records |
| EnrichmentExact.RegularFits | internal/proto_decoder/unknown_message.go:138 | messages whose nested messages and message-like unknown fields occur once, and whose other unknown fields do not change their wire type, fit and cover themselves |
| EnrichmentExact.AtMostOnceIsRegular | internal/proto_decoder/unknown_message.go:45-131 | messages in which every field number occurs at most once at every level are such messages |
| EnrichmentExact.EnrichedField | internal/proto_decoder/unknown_message.go:52-128 | each single wire field, known, nested or unknown, decodes again exactly if it fits the sample, keeps what was known, and is complete exactly if the sample covers it |
| EnrichmentExact.EnrichedUnknown | internal/proto_decoder/unknown_message.go:137-186 | an unknown field decodes under the type guessed from the first of its number exactly if it fits: a scalar by its form, a guessed message by recursion |
| EnrichmentSuccess.EnrichSucceedsExactly | internal/proto_decoder/unknown_message.go:45-131 | for every decoded message, whatever the order of the loops: the enrichment succeeds if and only if each unknown number is one that a field may have, its generated name is not in use, a type can be guessed from its first occurrence, and every nested message that is present can be enriched |
| EnrichmentSuccess.GuessesKeepTheWireType | internal/proto_decoder/unknown_message.go:133-191 | a message is guessed exactly from bytes that parse as one and are not all printable; any other guess is a scalar type of the wire type the payload came with |
| EnrichmentSuccess.WhatIsAdded | internal/proto_decoder/unknown_message.go:52-71 | the field for an unknown number is named after the message and the number, is repeated if and only if the number occurs again, and has the type guessed from its first occurrence |
| EnrichmentSuccess.DigitsAreDecimal | internal/proto_decoder/unknown_message.go:53 | the number in a generated name is its decimal numeral, without leading zeros |
| EnrichmentSuccess.BodiesAreMerged | internal/proto_decoder/unknown_message.go:82-87 | the value of a message field that is not repeated is that of all its occurrences, one after the other |
| EnrichmentSuccess.TheFirstBodyCounts | internal/proto_decoder/unknown_message.go:88-100 | of a repeated message field the first occurrence is inspected |
| EnrichmentTheorems.DecodeIsPointwise | internal/proto_decoder/decode.go:63-69 | a message decodes if and only if each of its fields does, and then to just those |
| EnrichmentTheorems.FieldAfter | internal/proto_decoder/unknown_message.go:52-128 | what both loops together do to a single field number: added with its guessed type, enriched in place, or left alone |
| EnrichmentTheorems.AddUnknownAddsEach | internal/proto_decoder/unknown_message.go:52-71 | the first loop adds exactly the unknown field numbers, each under its generated name, and touches no other field |
| EnrichmentTheorems.EnrichNestedEnrichesEach | internal/proto_decoder/unknown_message.go:74-128 | the second loop replaces exactly the descriptors of the nested messages that are present |
| EnrichmentTheorems.EnrichedNumbers | internal/proto_decoder/unknown_message.go:45-131 | the enriched descriptor has exactly the field numbers it had and the unknown ones |
| EnrichmentTheorems.GuessedDepthIsBounded | internal/proto_decoder/unknown_message.go:137-186 | guessed messages nest no deeper than the message they were guessed from is long |
| EnrichmentTheorems.GeneratedNamesAreDistinct | internal/proto_decoder/unknown_message.go:53 | different paths of field numbers below one message never get the same generated name, at any depth |
| Builder.EnrichMessage | internal/proto_decoder/unknown_message.go:45-131 | the update of the builder in place succeeds exactly when the specified enrichment does and leaves its fields, and the file gains exactly the names of the guessed messages |
| Builder.AddUnknownFields | internal/proto_decoder/unknown_message.go:52-71 | the loop over unknown fields adds the specified ones although the file it checks names against grows on the way |
| Builder.EnrichNestedFields | internal/proto_decoder/unknown_message.go:74-128 | the loop over known fields replaces the specified descriptors |
| Builder.DetectUnknownFieldType | internal/proto_decoder/unknown_message.go:137-191 | the guessed type is the specified one, and the file gains a name exactly when that type is a new message |
| Decoder.DecodeMessage | internal/proto_decoder/decode.go:42-70 | the message is decoded, record by record, with the descriptor of the first resolver that has one, or with that of a message without fields, enriched if enrichment works; bytes that do not parse are an error |
| Decoder.EnrichDecodeDescriptor | internal/proto_decoder/unknown_message.go:23-43 | bytes that do not parse or of which a record does not decode are an error; otherwise enrichment through builders succeeds exactly when each unknown field can be added and each nested one refined, and has the fields of the specified enrichment |
| Decoder.Unmarshal | internal/proto_decoder/decode.go:63-69 | decoding gives a message exactly if the bytes parse and every record decodes under the descriptor, and then what each record decodes to, in order |
| Decoder.Resolve | internal/proto_decoder/decode.go:45-53 | the loop over the resolvers ends with the descriptor of the first that has one, or with that of a message without fields |
| Decoder.OriginNamesReturn | internal/dump.go:29-34 | the stored name of an origin gives that origin back, and only "client" and "server" name the two sides |
| Decoder.ResolvesToOne | internal/proto_decoder/decode.go:45-53 | the resolved descriptor is unique |
| Decoder.DecodingIsDecided | internal/proto_decoder/decode.go:55-69 | for every message: the decoder succeeds if and only if the plain decode does and either enrichment fails or the message fits what is guessed from it; if enrichment fails the result is the plain decode, otherwise what was known is the same and nothing is unknown if and only if the message covers itself |
| Decoder.EnrichmentIsHarmless | internal/proto_decoder/decode.go:55-69 | for a message whose nested and message-like fields occur once and whose other unknown fields keep their wire type, the decoder succeeds if and only if the plain decode does, and leaves nothing unknown if enrichment works |
| Decoder.RepeatsCanSpoilADecode | internal/proto_decoder/unknown_message.go:138 | only the first occurrence is inspected: a message with a string and then a number in the same field, whose plain decode succeeds and whose enriched decode fails |
| Decoder.RepeatedMessagesCanSpoilADecode | internal/proto_decoder/unknown_message.go:138-174 | the same without a change of wire type, whatever scalar fields accept: the first occurrence happens to parse as a message and the second does not |
| PeekConn.Peeker.Read | internal/peekconn/peeker.go:80-100 | a read through a stack of peekers, into any part of any buffer, moves bytes from the front of the stream to the buffer and changes nothing else of either; if more was read ahead than there is room for, the room is filled without a failure and the connection at the bottom is left alone; otherwise all of that comes, the bottom is read exactly once into the rest of the room, and the read fails if and only if that one does |
| PeekConn.Peeker.PeekMatch | internal/peekconn/peeker.go:65-78 | a first peek makes one read and fails if and only if that fails or gives less than was asked for; after a successful one the stream is what it was and the match was on its first bytes; a short or failed one leaves the bytes that arrived followed by zeros; a second one is refused without reading |
| PeekConn.PaddingShows | internal/peekconn/peeker.go:69-76 | a peek is invisible if and only if all its bytes arrived |
| PeekConn.ReadRepeatedly | internal/peekconn/peeker.go:80-100 | any sequence of reads with any buffer sizes, together with what is still to come, is the stream, and it gives at least what was read ahead or fills all the buffers |
| PeekConn.Peeker.OriginalDestination | internal/peekconn/peeker.go:55-62 | the destination seen at the top of a stack of peekers is that of the connection at its bottom |
| Tunnel.ClosedOnceAndLast | internal/tlsmux/forward_connection.go:14-44 | in every run no wait group goes below zero, no connection or half is closed twice, none is closed while a copy needs it, and what a copy that did not fail had to deliver has been delivered by then |
| Tunnel.DoneMeansClosed | internal/tlsmux/forward_connection.go:14-44 | when everybody is done each end has been closed exactly once, as a whole or half by half as it can |
| Tunnel.SomebodyGoesOn | internal/peekconn/peeker.go:30-49 | once both copies have ended somebody can always go on until everybody is done |
| Tunnel.EveryStepCounts | internal/tlsmux/forward_connection.go:14-44 | and every step then brings the end closer, whoever takes it |
| Tunnel.Finishes | internal/tlsmux/forward_connection.go:14-44 | so every run in which both copies have ended can be continued to one in which everybody is done |
| Tunnel.FinishesUnlessBothCount | internal/peekconn/peeker.go:40-49 | a tunnel can finish if and only if its ends are not both peekers over connections without half-close, and then also without a failure, with everything copied |
| Tunnel.HalfClosesArePassedOn | internal/tlsmux/forward_connection.go:15-44 | in every reachable state in which one direction is still being copied: the end of the other can be passed on as a half-close before this one ends if and only if the end it goes to closes halves for real and the other one offers to |
| Tunnel.CopiesEndAsTheyDo | internal/tlsmux/forward_connection.go:40-44 | in every run a direction is being copied until its copy ends, once, and has failed if and only if it ended so |
| Tunnel.EveryRunIsSafe | internal/tlsmux/forward_connection.go:14-44 | counts, closes and delivered bytes agree with where the goroutines stand in every reachable state |
| Tunnel.TcpLikeCountsOrHalves | internal/tlsmux/forward_connection.go:48-52 | a connection passes for TCP-like exactly when it closes halves for real or counts, never both, however many peekers are stacked |
| Mux.ConnectionsAreConserved | internal/tlsmux/tls_mux.go:54-79 | in every run each connection that arrived is in exactly one place until it is routed, then in exactly one place until its fate; it goes to the plain queue unless its first peek found a TLS handshake, and otherwise to the TLS queue or past the servers as its destination and the certificate say; it is handed to the server if it came with TLS or without a destination, and otherwise only if its stream looks like HTTP |
| Mux.HttpIsAMethodEarlyOn | internal/tlsmux/tls_mux.go:167-171 | a second peek finds HTTP if and only if the stream has eight bytes and starts with CONNECT or has POST, or PRI with a space after it, among them |
| Mux.TheStreamDecides | internal/tlsmux/tls_mux.go:177-224 | in every run, for every connection from a redirect in the plain queue: what it says is what it sent, but for zeros where the first peek fell short; it is handed to the server only if that is HTTP, and bounced, or lost to the dial, only if it has eight bytes and is not |
| MuxHistory.OutcomesDecide | internal/tlsmux/tls_mux.go:136-150 | in every run, over its steps alone: a connection is forwarded if and only if its dial succeeded and closed if and only if it failed; behind the plain queue it is bounced, lost to a dial error or lost to a peek error if and only if that dial or peek ended so |
| MuxHistory.ShortPeeksAreRemembered | internal/tlsmux/tls_mux.go:66-70 | in every run the number of bytes that a failed first peek got is that of the step in which it failed |
| MuxHistory.AnythingMayCome | internal/tlsmux/tls_mux.go:66-70 | in every reachable state a first peek can still fail with some number of bytes if and only if that is at most three and at most what there is, and a dial can come to either end |
| MuxHistory.NoChannelOverflows | internal/tlsmux/tls_mux.go:50-53 | in every run no channel holds more than 128 connections or errors |
| MuxHistory.TheServerStopsAtAFailure | internal/tlsmux/tls_mux.go:189-193 | in every run the plain server has stopped if and only if some second peek failed for good |
| MuxHistory.QueuesKeepTheirOrder | internal/tlsmux/tls_mux.go:32-39 | in every run each queue holds what was routed to it, in order, but for the first ones, as many as were accepted from it |
| MuxHistory.FateUnlessBarred | internal/tlsmux/tls_mux.go:177-224 | in every reachable state, for every connection that was put into a queue and every fate: it can still meet that fate, or has met it, if and only if it is not barred from it by what it says, by another fate, by the peek it has passed, or by a server that has stopped |
| Mux.DecisionsStay | internal/tlsmux/tls_mux.go:177-224 | no step changes a route or a fate once decided |
| Mux.RoutedUnlessDoomed | internal/tlsmux/tls_mux.go:54-79 | in every reachable state a connection that arrived can still be routed, or is, if and only if it is not doomed: with the error channel full, the accepting goroutine has an error for it before it comes to the connection, or the connection has failed its first peek and not yet reported it or has too few bytes to succeed; or the plain queue is full, its server has stopped, and the connection has not come with TLS |
| Mux.CanBeRouted | internal/tlsmux/tls_mux.go:54-79 | the continuation of any run that routes a connection which is not doomed, through the accepting goroutine, its own goroutine and the listeners that make room |
| Mux.EveryRunCountsErrors | internal/tlsmux/tls_mux.go:54-70 | in every run the second error channel lags behind the first by exactly the goroutines between the two sends, that of accepting included, so it is never the one that blocks |
| Mux.FullErrorsBlockAHandler | internal/tlsmux/tls_mux.go:67-70 | some run fills the error channel, which nobody empties, and leaves a goroutine with a failed peek whose connection no continuation of the run ever routes |
| Mux.FullErrorsBlockTheAcceptor | internal/tlsmux/tls_mux.go:54-61 | for every connection, whatever it says: some run fills the error channel and then fails to accept, so that the connection waits and no continuation of the run ever routes it |
| Mux.AFullQueueBlocksAHandler | internal/tlsmux/tls_mux.go:189-202 | some run stops the plain server by a failed second peek, fills the plain queue and leaves a connection for it that no continuation of the run ever routes |
| Mux.StepIsSafe | internal/tlsmux/tls_mux.go:109-150 | each step of listener, goroutine, queue or bouncer keeps every connection conserved and well routed |
| ConnPool.LatestAdditionIsCached | internal/connPool.go:29-40 | after any additions a lookup gives the one that was last for its destination, and additions for one destination do not show at another |
| ConnPool.ConnPool.AddConn | internal/connPool.go:36-40 | exactly one entry of the cache is set |
| ConnPool.ConnPool.GetClientConn | internal/connPool.go:42-59 | an undisturbed call returns a connection to its destination, dialling only on a miss, and leaves it cached unless the dial failed |
| ConnPool.ReturnedConnectionsLeadThere | internal/connPool.go:42-59 | in every interleaving a returned connection was dialled for the destination of its call, and no call dials twice |
| ConnPool.OutcomesAreTold | internal/connPool.go:42-59 | in every interleaving a call fails if and only if its dial did, has a connection of its own if and only if its dial succeeded, and returns that once it has added it |
| ConnPool.CacheHasTheLastAddition | internal/connPool.go:29-40 | in every interleaving the cache has for each destination the connection of the call that added one for it last |
| ConnPool.CacheHasOnlyAdditions | internal/connPool.go:29-40 | and none for a destination for which no call has added one |
| ConnPool.CachedCallsNeverDial | internal/connPool.go:42-59 | from any reachable state on keys are never removed and a call that starts once its destination is cached never dials |
| ConnPool.ConcurrentMissesDialTwice | internal/connPool.go:42-59 | two calls that miss together dial twice, return different connections, and the one added last stays cached |

## Left out

- Sockets, HTTP and HTTP/2 servers, TLS handshakes and grpc-web: foreign libraries. A stream is a pair of message queues, a connection a stream of bytes, and a certificate a predicate on host names.
- The protobuf and JSON libraries: the steps of a resolver pipeline in `Encoder` and the acceptance of a scalar payload in `Enrichment` are arbitrary deterministic partial functions. The one assumption on the latter is `Sound`: a scalar field accepts its own wire type, also a string field with bytes that are not UTF-8.
- JSON decoding of a dump file: loading and replaying start from the parsed list of RPCs. A dump that cannot be read or parsed is an error before anything modelled here.
- Empty client messages between dump and loader: only server messages have nil turned into the empty message when they are recorded, so no claim is made that an empty client message survives the JSON form.
- Timestamps, RPC metadata apart from the recorder's headers and trailers, and the printing of results.
- `calculateDestination`, the loop check and the client context of the proxy: plumbing before the RPC is forwarded. Multi-hop loop detection is not claimed: `internal/marker/loop.go` formats the whole header and splits it without trimming.
- Trailers and cancellation in `Forwarding`: a cancelled stream shows up as a failing send or receive, which can happen at any time. Messages are values, as the no-op codec hands over a fresh slice for each.
- ForwardingSafety.NilMeansEverythingForwarded: assumes that `Header`, `SendHeader` and the server stream's `SendMsg` never fail with a bare io.EOF, which the gRPC library promises; a client stream's `SendMsg` may, once the backend has ended the RPC.
- Replayer.DumpReplaysAgainstItsFixture: the transport between replayer and fixture is a FIFO queue in each direction that loses nothing and fails only after one side has ended the stream.
- The descriptors of `grpc-replay` and `grpc-fixture`: where the source builds the resolver for descriptor files from the list of proto roots instead, the model takes whatever list of resolvers results.
- Enrichment.Decode: map fields and fields of group type are not modelled, unknown groups are, and a field number of 0 makes a message malformed.
- Enrichment.Enrich: a descriptor is a finite tree, so a declared message type that contains itself, directly or through others, has no value in the model.
- Enrichment.AddField: the library's own validation when a descriptor is built is limited to field numbers and to name clashes among the fields of a message and the messages of a file.
- Replayer.ReplayRpc: one RPC of the replay. The loop around it goes on with the next RPC after a mismatch and ends with an error after any other failure, also when no connection can be made.
- The order in which unknown fields are visited: in the source it is that of a hash map. It matters to no result, since the names generated for different fields are different.
- PeekConn.Peeker.Read: a read of the connection at the bottom gives something or fails whenever there is room, as network connections do; a read of nothing without an error is not modelled.
- The wait group of a peeker as a field of the class in `PeekConn`: closing is modelled in `Tunnel`, where the waiting happens.
- Tunnel.Finishes: a copy that never ends holds a tunnel open; nothing is claimed about when copies end.
- Mux: the once-started goroutine of the proxy's listener, which holds at most one connection or one error at a time; the model lets any number wait and accepting fail at any time. What happens to a connection after it was handed to a server is left out. One whose bounce fails is not closed by the source, and the model records that as a fate of its own.
- Mux: the end of the program. `Start` returns once one of its servers has stopped; what the other goroutines do until the program is gone is modelled as if there were no hurry.
- Command line flags, logging, system proxy settings, certificate detection and generated code.
