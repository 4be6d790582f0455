# A verified model of the DYAD UCX performance tester

One server and N clients exchange START, TRANSFER and STOP requests over a request/reply socket; in every TRANSFER the
client sends its worker address in base64, the server decodes it, connects to it and sends its buffer over a tag-matched
channel. The project models the protocol, both programs, the backend state they drive, and the base64 codec the address
goes through, and proves that they work for every number of clients, every number of iterations, every interleaving,
every address and every alphabet.

These results join the parts:

- `Handoff.AddressHandoff`: what a client encodes is what the server decodes, followed by at most two zero bytes.
  `Invariant.HandleTransferRequest` uses it to show that every TRANSFER is sent to the worker of the client that asked.
- `ServerLog.LogReplays` and `ClientModel.ClientReplays`: in every run of the whole system the server is where serving its
  log one request at a time leads, and each client is where it gets on its own from what was sent to it.
- `Interleavings.RunsExactly` and `Logs.LogsExactly`: the runs that all this is about are all there are, and the system's
  logs are exactly those it should have.
- `Processes.ServerProcess` and `Processes.ClientProcess`: the two programs, as classes with loops and fields, fed with
  the messages of a run of the system, end without a throw in the states that the system has.

## How the files are arranged

| files | content |
|---|---|
| `Wrappers`, `Bytes` | option and result types; bytes, `Splice` and `Repeat` on sequences |
| `Base64Maps`, `Base64Rfc4648` | the codec's tables: how they are built, when they are inverse, the pregenerated ones |
| `Base64Groups`, `Base64` | one 24-bit group; encoder and decoder on sequences, and what they compute, bit by bit |
| `Base64Vectors` | the test vectors of RFC 4648, and strings that are not encodings |
| `Base64Laws`, `Base64Lengths` | round trips, canonical strings, block structure; the length formulas modulo 2^64 |
| `Base64InPlace`, `Base64Writes` | encoder and decoder as loops writing caller-supplied arrays; what the decoder writes and how far |
| `Messages`, `Handoff` | requests, replies, the parameters of a run; the address from client to server |
| `ServerModel`, `ServerCases`, `Protocol` | the server's handling of a request, and every case of it; server, clients and channels as a transition system |
| `Invariant`, `Progress` | the inductive invariant; deadlock freedom and termination |
| `History`, `ServerLog` | what clients did and the server received so far; the shape of the log; the table |
| `ProtocolTheorems` | what holds of every run |
| `Interleavings`, `Logs` | exactly which step sequences are runs, and which logs they end with |
| `Schedules` | runs that can be made to happen: finishing any run, missing the barrier, two payloads in flight |
| `Backend`, `ServerProgram`, `ClientModel`, `ClientProgram` | the backend, the server and the client as classes with mutable state |
| `Processes` | the two programs, and the runs of the system they belong to |

## Assumptions

A run has at least one client, the MPI world is exactly the N clients, and their ranks are 0 to N-1. Server and clients are
given the same `data_size`, as README.md:58-59 of the repository asks. Calls into ZeroMQ, UCX, MPI and `malloc` succeed,
and messages keep their order on one connection; a STOP that was sent is delivered although nobody waits for its reply. A
polling loop is one step that is enabled when the thing polled for is there. An address blob followed by at most two zero
bytes resolves to the same worker (UCX addresses carry their own length). Whether a send may complete before the receiver
has matched it is the parameter `eager` of a run; unless it is mentioned, results hold for both. An object has at most
2^63 - 1 bytes, and the buffers given to one call of the codec do not overlap.

## Where the code and its documentation differ

The model follows the code.

- src/base64/base64.h:121 says that decoding a quartet returns the number of bytes; it returns 0.
- src/base64/base64.h:106-107 lists only EOVERFLOW and EDOM for the whole decoder; a final group of one letter sets EINVAL.
- src/base64/base64.h:105 says the destination is padded with zeros; a rejected source leaves the octets decoded so far.
- src/base64/base64.h:38 calls the decoded length the minimum for a safe decode; a source of 4k + 1 characters needs three
  octets less. `Base64Writes.SafeLengthIsMinimal` gives the minimum for every length, `Base64Writes.AsksForTooMuch` an input.
- src/base64/base64.h:207 promises RFC 4648; the decoder also accepts missing padding, extra '=' and nonzero discarded bits.
  `Base64.DecodeByGroups` says exactly what it accepts, `Base64Laws.ReencodesIffCanonical` what is canonical.
- src/base64/base64.h:43-45 allows any alphabet; `Base64Laws.RoundTripsIffFit` says for which the round trip holds.

## Model

| member | source | states |
|---|---|---|
| `Base64Maps.InitMaps` | src/base64/base64.c:46-55 | The loop leaves in both arrays exactly the tables of the 64 given characters. |
| `Base64Maps.EntryIsLastPosition` | src/base64/base64.c:51-54 | A character's decode entry is its last position in the alphabet; characters that do not occur are rejected. |
| `Base64Maps.MembersAreTheAlphabet` | src/base64/base64.c:41-44 | A character is in the alphabet of the built tables iff it is one of the 64 given. |
| `Base64Maps.InverseIffDistinct` | src/base64/base64.c:46-55 | The built tables are mutually inverse iff the 64 characters are distinct. |
| `Base64Rfc4648.PregeneratedIsBuilt` | src/base64/base64.c:219-260 | The pregenerated tables are what building from the RFC 4648 alphabet gives, all 256 entries. |
| `Base64Rfc4648.PregeneratedFitsCodec` | src/base64/base64.c:219-260 | They are mutually inverse, contain the filler 'A' and exclude the padding '='. |
| `Base64Rfc4648.PregeneratedInFull` | src/base64/base64.c:219-260 | The encode table is the written-out string A-Z a-z 0-9 + / in order; the decode table gives each of these letters its position and 0xff to every other code. |
| `Base64Groups.SextetsSplitTheGroup` | src/base64/base64.c:70-73 | The encoder's masks and shifts are the four 6-bit groups of the 24-bit input group (section 4 of RFC 4648). |
| `Base64Groups.OctetsSplitTheGroup` | src/base64/base64.c:146-148 | The decoder's shifts are the three octets of the 24-bit group of four sextets. |
| `Base64Groups.SextetsOfOctets` | src/base64/base64.c:62-74 | The octets of the sextets of three octets are those octets. |
| `Base64Groups.OctetsOfSextets` | src/base64/base64.c:128-151 | The sextets of the octets of four sextets are those sextets. |
| `Base64Groups.DiscardedBits` | src/base64/base64.c:173-180 | Dropping octets of a short group loses nothing iff the discarded bits of its last sextet are zero. |
| `Base64.EncodeByGroups` | src/base64/base64.c:62-121 | For all inputs and tables, character k of the encoding is the letter of bits 6k to 6k+5 of the zero-extended input, and the last quantum is completed with '='. |
| `Base64.DecodeByGroups` | src/base64/base64.c:128-214 | Exact acceptance and value, for all tables and strings: accepted iff every character up to the final group's padding is in the alphabet, that group has not exactly one letter, and the filler is in the alphabet if it is needed; the result is the whole octets of the letters' bits; otherwise EINVAL or EDOM, and which. |
| `Base64Laws.RoundTripExactly` | src/base64/base64.c:90-121 | For inverse tables, decoding the encoding of b gives b iff the last letter is not '=' and, for a short final group, 'A' is in the alphabet. |
| `Base64Laws.RoundTripsIffFit` | src/base64/base64.c:162-175 | For 64 distinct characters: every byte string comes back iff 'A' is one of them and '=' is not. |
| `Base64Laws.RoundTrip` | src/base64/base64.c:183-214 | With such tables, which the pregenerated ones are, every byte string comes back. |
| `Base64Laws.ReencodesIffCanonical` | src/base64/base64.c:153-214 | Encoding what s decodes to gives s iff s is canonical (section 3.5 of RFC 4648): whole quanta, correct padding, discarded bits zero. |
| `Base64Laws.CanonicalForm` | src/base64/base64.c:153-214 | Every accepted string has exactly one canonical string that decodes to the same octets, and re-encoding yields it. |
| `Base64Laws.EncodeBlocks` | src/base64/base64.c:104-116 | encode(a + b) = encode(a) + encode(b) when the length of a is a multiple of 3. |
| `Base64Laws.DecodeFirstGroup` | src/base64/base64.c:198-205 | For every table, a full group of letters decodes alike in the loop and in the tail iff it is not a whole source ending in '='. |
| `Base64Laws.BlocksBefore` | src/base64/base64.c:198-203 | For every table, full groups of letters before a non-empty t contribute exactly their octets, and t's failure is the failure of the whole. |
| `Base64Laws.DecodeBlocks` | src/base64/base64.c:198-209 | For every table and full groups of letters s not ending in '=', decode(s + t) = decode(s) + decode(t), t's failure included; before an accepted non-empty t that is the only case. |
| `Base64Vectors.Section10` | src/base64/base64.c:62-121 | The seven test vectors of section 10 of RFC 4648, "" to "foobar", encode as the standard says. |
| `Base64Vectors.LiberalDecoder` | src/base64/base64.c:153-181 | "AA", "AA=", "AAA" and "===" are accepted, with these octets; "A" and "A===" give EINVAL, "A=A" gives EDOM. |
| `Base64Lengths.EncodedLengthExact` | src/base64/base64.c:57-60 | In 64-bit arithmetic the encoded length is 4 * ceil(n / 3) iff n is at most 3 * (2^62 - 1). |
| `Base64Lengths.DecodedLengthExact` | src/base64/base64.c:123-126 | In 64-bit arithmetic the decoded length is 3 * ceil(n / 4) iff n is at most 2^64 - 4. |
| `Base64Lengths.DecodedLengthOfEncoding` | src/base64/base64.c:57-126 | The decoded length of the encoded length of n is the least multiple of three that is at least n. |
| `Base64InPlace.EncodeTripletInto` | src/base64/base64.c:62-74 | Writes the four letters of three octets and nothing else. |
| `Base64InPlace.EncodeTailInto` | src/base64/base64.c:76-88 | Writes the final quantum with its padding and nothing else. |
| `Base64InPlace.EncodeUsingMaps` | src/base64/base64.c:90-121 | Refuses iff the destination is shorter than the encoded length, then unchanged; otherwise the destination is the encoding and zeros up to destlen, the rest untouched, and the count is the encoding's length. |
| `Base64InPlace.DecodeQuartetInto` | src/base64/base64.c:128-151 | Writes the three octets, or nothing when a character is outside the alphabet. |
| `Base64InPlace.StripPadding` | src/base64/base64.c:160-164 | The loop finds the length without trailing '='. |
| `Base64InPlace.DecodeTailInto` | src/base64/base64.c:153-181 | Return value, errno and exactly what is written for a final group of at most four characters. |
| `Base64InPlace.DecodeTailAndFill` | src/base64/base64.c:205-213 | The final group and the zero fill together. |
| `Base64InPlace.DecodeUsingMaps` | src/base64/base64.c:183-214 | Return value, errno and the whole destination for every input: on success the octets and zeros up to destlen, on a rejected group the octets before it, on overflow nothing; bytes beyond are untouched. |
| `Base64Writes.LoopWrites` | src/base64/base64.c:198-203 | For every table and source the loop leaves the octets of the letters of its leading groups; these are all its groups, or the next one has a character outside the alphabet. |
| `Base64Writes.EffectByGroups` | src/base64/base64.c:183-214 | What any source leaves in a large enough destination, in terms of the letters' bits: accepted, its octets and zeros; rejected, the octets of the groups before the rejected one and nothing else. |
| `Base64Writes.TailWrites` | src/base64/base64.c:160-178 | Three octets are written for a final group iff it has at least two letters before its padding, all in the alphabet, and the filler is in the alphabet if it is needed; otherwise none. |
| `Base64Writes.LastWriteEnd` | src/base64/base64.c:193-205 | For every source the last write ends exactly at the decoded length iff the source is empty or every group meets that condition; otherwise it ends at least three octets earlier. |
| `Base64Writes.TestIsTightIff` | src/base64/base64.c:193-196 | Some source of n characters is written up to the decoded length iff n is 0, or a multiple of four with a letter other than '=' in the alphabet, or two or three more with the filler in it. |
| `Base64Writes.SafeLengthIsMinimal` | src/base64/base64.c:123-126 | With the filler in the alphabet the least sufficient buffer for n characters is the decoded length, but three octets less when n is one more than a multiple of four. |
| `Base64Writes.AsksForTooMuch` | src/base64/base64.c:193-196 | "AAAA=" is accepted and writes three octets, but six are asked for. |
| `Handoff.BufferRoundTrip` | src/base64/base64.c:90-214 | Decoding an encoding into any sufficient buffer returns the source length, reproduces every octet and zero-fills the rest. |
| `Handoff.AddressHandoff` | src/server.cpp:120-136 | For every client address the server's buffer is that address and 3 * ceil(n / 3) - n zeros, at most two; the NUL the client appends is never decoded. |
| `Invariant.HandleTransferRequest` | src/server.cpp:114-144 | Every client's transfer request resolves to that client's worker and sends the server's buffer under the client's tag. |
| `Invariant.BarrierHolds` | src/client.cpp:34-45 | When all clients have arrived at the barrier the server has left its start loop. |
| `Invariant.RequestsAreHandled` | src/server.cpp:50-152 | In every state of the invariant the next request of any client is handled as that client expects, without a throw. |
| `Invariant.StepKeepsInv` | src/server.cpp:50-152 | Every step of the server or a client keeps the invariant that ties client phases to messages in flight and to the table. |
| `Invariant.Reachable` | src/client.cpp:34-114 | The invariant holds after every run, for every N, all iteration counts and every interleaving; which interleavings there are is `Interleavings.RunsExactly`. |
| `Interleavings.RunsExactly` | src/client.cpp:34-114 | The runs are exactly the step sequences that a definition by counting allows, which knows no states: clients start in any order, only the barrier makes them wait for each other, the free server receives any waiting request, and it replies after send and wait. |
| `Logs.EveryLogHappens` | src/server.cpp:50-94 | For every sequence of requests that begins with one START from each client in any order and goes on with any interleaving of the clients' scripts, some run ends with exactly that log. |
| `Logs.LogsExactly` | src/server.cpp:50-94 | These are the only logs of whole runs. |
| `ProtocolTheorems.NoThrow` | src/server.cpp:50-152 | The server never throws, and no client reads a reply without the field it looks up or a payload of another size. |
| `ProtocolTheorems.BarrierIsNeeded` | src/client.cpp:44-44 | A client that went past the barrier while the server is in its start loop would make the server throw. |
| `Schedules.EarlyDepartureIffTwo` | src/client.cpp:44-44 | Some run reaches such a situation iff there are at least two clients. |
| `History.ReachableHistories` | src/client.cpp:34-114 | At every moment each client's actions are the prefix of START, barrier, TRANSFERs one by one, STOP that its phase says, and what the server received from it is the matching prefix of requests. |
| `ProtocolTheorems.TraceShape` | src/server.cpp:50-94 | In the run loop, the log is one START from each client before anything else, then per client TRANSFERs and at most one STOP, last. |
| `ProtocolTheorems.WholeTrace` | src/server.cpp:79-94 | Over a whole run each client contributes exactly its iterations and one STOP, so the run loop is executed N + sum of iterations times. |
| `ProtocolTheorems.RequestsInFull` | src/client.cpp:37-98 | Every request the server ever receives, field by field: rank, type, and in a TRANSFER the rank as tag, the worker address in base64 followed by a NUL, and the length without the NUL. |
| `Progress.StepTakesOne` | src/server.cpp:50-94 | A measure falls by exactly one in every step. |
| `Progress.RunLength` | src/server.cpp:50-94 | Steps taken plus work left is always 8 per client plus 7 per transfer. |
| `Progress.NoDeadlock` | src/backends/tag_backend/tag_backend.cpp:90-136 | Every reachable state that is not final has a step, even when a send completes only after it is matched. |
| `Progress.MaximalRuns` | src/server.cpp:79-94 | A run cannot be extended iff the server is out of its loop and all clients are past run, iff it has taken all its steps. |
| `ProtocolTheorems.Delivery` | src/server.cpp:114-144 | Always: what was sent to a client is what it received followed by what is in flight to it, each with the client's rank as tag and the server's buffer as data, at most one in flight; at the end exactly its iterations were received. |
| `Schedules.EveryRunFinishes` | src/server.cpp:79-94 | Every run is the beginning of a run after which the server is out of its loop and all clients are past run. |
| `ProtocolTheorems.OneInFlight` | src/backends/tag_backend/tag_backend.cpp:130-136 | When sends complete only once matched, at most one payload is in flight overall. |
| `Schedules.OneInFlightIff` | src/backends/tag_backend/tag_backend.cpp:70-136 | At most one payload is in flight overall in all runs iff sends complete only once matched or at most one client has transfers to make. |
| `ProtocolTheorems.CleanStop` | src/server.cpp:73-94 | The server is out of its run loop iff every STOP was received and the last one answered; then no request is queued or to come and no payload is in flight. |
| `ServerLog.ActiveTable` | src/server.cpp:50-64 | Always: active entries = STARTs received - STOPs received. |
| `ServerLog.StartLoopLength` | src/server.cpp:50-64 | Between iterations the start loop goes on iff fewer than N requests were received. |
| `ServerLog.LoopLengths` | src/server.cpp:50-94 | Replaying the log, the start loop takes exactly the first N requests and the run loop all the others. |
| `ServerLog.ReachableShape` | src/server.cpp:50-152 | Log, replies and payloads have the stated shape in every reachable state. |
| `ServerLog.LogReplays` | src/server.cpp:50-152 | In every run the interleaved server is in the state that serving its log one request at a time gives. |
| `ServerLog.ServerOrder` | src/server.cpp:103-151 | In every run the server has done, in order, exactly this for each request: receive it; for a TRANSFER open the endpoint, send the buffer to the asking client's worker, wait, close, free the address; then reply. |
| `ServerCases.StartCases` | src/server.cpp:54-62 | Start loop, every request: a type other than 0 throws, then a rank out of range throws, else exactly that entry is set and ok is replied. |
| `ServerCases.RunCases` | src/server.cpp:106-150 | Run loop, every request: rank out of range, inactive rank, type 2 (exactly that entry is cleared), other types and missing fields, in this order of precedence. |
| `ServerCases.TransferCases` | src/server.cpp:114-144 | Every transfer: throws iff the size exceeds the string, the decoder's language excludes the text, or no worker has the address that is its octets and zeros up to the rounded-up size; else the buffer goes to that worker under the request's tag. |
| `ServerCases.RespondCases` | src/server.cpp:103-151 | What one iteration adds to replies, payloads and actions, in order, for each outcome. |
| `ProtocolTheorems.ClientDiscipline` | src/client.cpp:40-111 | Every client's socket strictly alternates send and receive, so it has at most one unanswered request. |
| `ProtocolTheorems.ServerDiscipline` | src/server.cpp:54-151 | One reply per request, in order, to the client whose request was received last, of the kind it asks for. |
| `ClientModel.StepIsAdvance` | src/client.cpp:34-114 | A client's step within the whole system is its step on its own. |
| `ClientModel.EnabledAlone` | src/client.cpp:34-114 | A client can move iff it could on its own, except that the barrier needs all clients to have arrived. |
| `ClientModel.SettleWithMore` | src/client.cpp:71-114 | What arrives later changes nothing that a client did before. |
| `ClientModel.ClientReplays` | src/client.cpp:34-114 | In every run each client is where it gets on its own from everything sent to it, one step for each thing it has done. |
| `ClientModel.RequestsOfScript` | src/client.cpp:37-61 | A client's whole script sends one START, a TRANSFER for each iteration and one STOP. |
| `ClientModel.PayloadsOfScript` | src/client.cpp:52-108 | It receives the server's data once for each iteration. |
| `Backend.TagBackend.constructor` | src/backends/abstract_backend.cpp:45-58 | A new backend is disconnected and its tag is its rank. |
| `Backend.TagBackend.GetTag` | src/backends/abstract_backend.cpp:163-166 | Returns the tag. |
| `Backend.TagBackend.GetNetBuf` | src/backends/abstract_backend.cpp:168-179 | A new buffer of the data size is borrowed. |
| `Backend.TagBackend.ReturnNetBuf` | src/backends/abstract_backend.cpp:181-193 | Exactly that buffer is given back, and what it contained is recorded; null is ignored. |
| `Backend.TagBackend.SetRemoteAddr` | src/backends/abstract_backend.cpp:195-201 | The block is taken over unless null; a block held before is lost. |
| `Backend.TagBackend.SetTag` | src/backends/abstract_backend.cpp:203-206 | The tag is replaced. |
| `Backend.TagBackend.EstablishConnection` | src/backends/tag_backend/tag_backend.cpp:37-68 | In send mode an endpoint to the worker of the held address, recorded as opened, or an error; in receive mode nothing; otherwise a throw. |
| `Backend.TagBackend.Send` | src/backends/tag_backend/tag_backend.cpp:70-88 | Refuses iff no endpoint is open; otherwise the buffer goes to the endpoint's worker under the tag, recorded as the next action. |
| `Backend.TagBackend.Recv` | src/backends/tag_backend/tag_backend.cpp:90-128 | Removes the first message with this tag and copies it to the buffer; without one the probe never ends. |
| `Backend.TagBackend.CommWait` | src/backends/tag_backend/tag_backend.cpp:130-136 | Waiting for a send is the next recorded action. |
| `Backend.TagBackend.CloseConnection` | src/backends/tag_backend/tag_backend.cpp:138-184 | In send mode the endpoint is closed and then the address freed, each once, and every address handed over was released; in receive mode nothing happens. |
| `ServerProgram.Server.constructor` | src/server.cpp:14-33 | No entry active, the two flags false and true. |
| `ServerProgram.Server.Create` | src/server.cpp:28-30 | Zero expected connections is refused, and nothing else is. |
| `ServerProgram.Server.GenData` | src/server.cpp:41-48 | A borrowed buffer holds the random data. |
| `ServerProgram.Server.CheckActiveConnections` | src/server.cpp:73-77 | The flags say whether all entries and whether no entries of the table are set; nothing else changes. |
| `ServerProgram.Server.AllOf` | src/server.cpp:75-76 | The scan decides whether all entries have the given value. |
| `ServerProgram.Server.StartOne` | src/server.cpp:54-62 | One request of the start loop: new table, replies and throw are those of the request's handling. |
| `ServerProgram.Server.Start` | src/server.cpp:50-71 | The loop ends, in the state of replaying the requests received, with the first request that sets the last entry, or by a throw or blocked. |
| `ServerProgram.Server.DecodeAddress` | src/server.cpp:120-135 | The decoded block is exactly the buffer of the address handoff; a rejected string leads to a throw. |
| `ServerProgram.Server.Connect` | src/server.cpp:136-138 | The address is handed over, the tag set, and an endpoint opened to the worker the address resolves to, if any. |
| `ServerProgram.Server.Deliver` | src/server.cpp:136-143 | Open the endpoint, send, wait, close, free, in this order and once each; the payload goes to the address's worker, and the send never finds the endpoint missing. |
| `ServerProgram.Server.Transfer` | src/server.cpp:114-143 | A transfer does what the request's handling says; exactly one newly decoded address is handed over and it is the last one released. |
| `ServerProgram.Server.SingleRun` | src/server.cpp:103-152 | One request of the run loop: table, replies, payloads, throw and the order of all actions are those of the request's handling, so that the reply is the last; afterwards no endpoint is open, no address is held, and for each payload ever sent one address was released and one endpoint closed. |
| `ServerProgram.Server.RunLoop` | src/server.cpp:85-90 | The loop ends, in the state of replaying the requests received, with the first request that clears the last entry, or by a throw or blocked; after any number of iterations there is one release and one close per payload. |
| `ServerProgram.Server.Run` | src/server.cpp:79-94 | The buffer is filled once and returned once around that loop. |
| `ClientProgram.Client.constructor` | src/client.cpp:13-26 | The object's parameters are those given. |
| `ClientProgram.Client.Barrier` | src/client.cpp:44-44 | Leaving the barrier is recorded as the client's next action. |
| `ClientProgram.Client.Start` | src/client.cpp:34-45 | Sends rank and type 0, ends by waiting, a throw or normally as the reply says, and takes three steps of the client model or as many as can be taken. |
| `ClientProgram.Client.EncodeAddress` | src/client.cpp:80-98 | The text is the base64 encoding of the local address, by its bits, and a NUL; the size is the encoded length, without the NUL; encoding cannot fail. |
| `ClientProgram.Client.TakeParcel` | src/client.cpp:104-108 | The buffer holds the first parcel under the client's tag; no such parcel, a longer and a shorter one are told apart; one step of the client model. |
| `ClientProgram.Client.ReceivePayload` | src/client.cpp:100-110 | That step within a borrowed buffer that is returned containing the parcel's data; no endpoint is opened. |
| `ClientProgram.Client.SingleRun` | src/client.cpp:71-114 | The transfer message in full is sent, then payload and reply are received, in this order; how it ends is said for every mailbox and every reply; three steps of the client model or as many as can be taken. |
| `ClientProgram.Client.Run` | src/client.cpp:47-62 | If it ends, num_iters transfer messages and one STOP were sent; it takes 3 * num_iters + 1 steps of the client model, or stops where nothing more can be taken. |
| `Processes.ServerProcess` | src/dyad_ucx_perftest_server.cpp:76-77 | On the log of any run of the system, start and run never throw, end in the system's server state and have done everything in the order that the log asks for; at the end start took exactly N requests, nothing is borrowed, and there was one release and one close per payload. |
| `Processes.FinishedClient` | src/client.cpp:34-62 | At the end of a run each client has done its whole script, 3 * iterations + 4 actions, and only the reply to STOP is unread. |
| `Processes.ClientProcess` | src/dyad_ucx_perftest_client.cpp:83-84 | On what a run of the system sends to a client, start and run end normally, having done exactly the client's script, sent one START, a TRANSFER per iteration and one STOP, and returned one buffer with the server's data per iteration. |

## Left out

- ZeroMQ, UCX, MPI, JSON and Caliper internals: a queue with reply routing, tagged mailboxes, a barrier step and message datatypes stand for them.
- `AbstractBackend::init` and the parameter structs: calls without an invariant of their own.
- `AbstractBackend::shutdown`: `m_initialized` is never set, so its body never runs; nothing is claimed about what it frees.
- The OPT_1 and OPT_2 builds and `warmup`, which are off by default.
- `ucx_request_wait` and the polling loops of the backend: each is one blocking step, and in receive mode the wait leaves no trace, since the message is already in its buffer.
- Exceptions after a failing external call, endpoint error handlers, logging, timing helpers and the `completed` field.
- The encode buffer of the client, which is released only when encoding fails: no claim that it is.
- The mains' option parsing, the submission script, shell templates, build files, the notebook and the recorded traces.
- `malloc` of zero bytes (an empty encoded address) is taken to return a block, as it may.
- ServerModel.HandleTransfer: an `addr_size` beyond the string's length, which the source reads past the end, ends the model's server with the fault `OverRead`; no client sends one.
- ClientProgram.Client.TakeParcel: a payload longer than the buffer, which the source writes past the end, ends the model's client with a throw; with equal data sizes none is sent.
- ClientProgram.Client.Barrier: that the barrier waits for all clients is part of `Protocol`, not of the class.
- Base64InPlace.DecodeUsingMaps: `errno` is part of the returned value, and source and destination do not overlap.
