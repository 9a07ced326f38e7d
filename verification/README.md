# Verified model of the MeshCore client and SDR node

A Dafny model of the parts of the repository that are hardest to get right by
inspection, with machine-checked proofs. To check everything, use
`dafny verify dfyconfig.toml`.

| files | what they model |
|---|---|
| `RansState`, `RansSymbols`, `RansContainer`, `RansCodec` | the reference rANS coder of `tools/aeic/export_golden.py`: state and bytes, symbols with their escape code, the container of sub-streams, whole encoding and decoding |
| `NodeSpec`, `Node`, `NodeRuns`, `PathExchange`, `NodeLaws` | the mesh node of `sdr-node/src/node.cpp`: what every command and packet makes it do, the object with its fields, what holds on every run, what two nodes do to each other, and what single commands and packets promise |
| `Dedup`, `AckLedger`, `Queues`, `Runs` | the node's parts on their own: the map of payloads seen, the list of pending ACKs, inbox and transmit queue; and runs of any machine that answers events with effects |
| `FrameServer` | the byte stream of the companion server and its resynchronising frame parser |
| `SmazTable`, `Smaz`, `SmazText` | the SMAZ compressor of `lib/helpers/smaz.dart`, and the texts it wraps |
| `PathHelper`, `HopResolver` | hops of a path, and which contacts they stand for |
| `BufferReader`, `CayenneLpp` | the two parsers of Cayenne LPP telemetry, and the writer |
| `GvFile`, `Recording` | the two containers for arrays in `tools/aeic` |
| `Prelude` | bytes, little-endian numbers, sequences, a little arithmetic |

The form follows the source. Loops are methods with loops, objects are classes
whose methods update their fields, and each is proved to do what a
specification function says; the theorems are about those functions. The node
is described by *effects* (a field changed, a frame sent to the app):
`NodeSpec.Decide` says which effects an event has in a state, `MeshNode.Handle`
is proved to have exactly those, and the theorems in `NodeRuns` and
`PathExchange` hold for every list of events.

Encryption and the packet codec are ideal: a sealed payload can be opened by the
two parties of its secret and by nobody else, decryption gives back the
plaintext followed by zeros up to a multiple of 16, and payloads that differ
are different on the air. Whether a packet fits the air is a parameter
(`Config.fits`), and so is the ACK hash. There is one clock.

Five things the code does not promise, although a reader could expect them. Each is
stated exactly.

- A route of 63 hops with 4-byte hashes has the length byte 0xFF, which means
  "unknown". `PathExchange.NextTextRouted` shows that the node then, and only
  then, floods its next text again. Such a route can hardly arrive over the
  air: the PATH return that carries it has 260 bytes before encryption, more
  than a LoRa frame of 255 bytes holds.
- A text that already looks encoded (`s:AA==`) is shown decoded
  (`SmazTable.ShippedTextIsLost`). `SmazText.TextComesBackIff` says which texts
  are lost: those sent as they are that hold, after the mark, base64 of a token
  stream spelling another text.
- A false start of a frame among garbage can swallow a real frame
  (`FrameServer.MarkedGarbageLosesFrame`). Garbage is harmless, whatever frames
  follow, if and only if none of its 0x3C bytes announces a possible length and
  it does not end in one (`FrameServer.HarmlessIff`).
- A digital input on channel 0 begins like padding, so that reading stops there;
  `CayenneLpp.ReadingsReadBack` says that this is the only such reading.
- A name that ends in a zero byte loses it in the array container
  (`GvFile.ReadingUndoesWriting`).

The comment at the end of `onRxPacket` (`sdr-node/src/node.cpp:1791`) says that paths and
traces are heard and ignored; the code above it handles both, and so does the
model. The comments at `lib/helpers/cayenne_lpp.dart:18-19` call voltage and current
unsigned; the code reads both as signed, and so does the model.

## Model

| member | source | states |
|---|---|---|
| RansState.AbsorbSettles | tools/aeic/export_golden.py:494-506 | pushing any entry, range-coded or bypass, leaves a state in [2^23, 2^31) in that interval |
| RansState.PushSpelled | tools/aeic/export_golden.py:494-506 | a push moves no, one or two low bytes of the state in front of the bytes, lowest last, so that the state is ready for the entry, and absorbs it as (start, range) or as two bits |
| RansState.ReadyOnce | tools/aeic/export_golden.py:495-500 | only one number of bytes leaves the state ready, so that a push is determined |
| RansState.RefillShed | tools/aeic/export_golden.py:497-499 | refilling takes back exactly the bytes shed, whatever the ceiling was |
| RansState.PopPushRange | tools/aeic/export_golden.py:578-584 | the pushed state names a number inside the entry's interval, and popping restores state and bytes as they were before the push |
| RansState.PopPushBits | tools/aeic/export_golden.py:587-594 | reading two bits undoes a bypass push: the single `if` reads as many bytes as the push wrote |
| RansState.BypassRunBytes | tools/aeic/export_golden.py:501-506 | a run of m bypass entries emits between floor(m/4) and ceil(m/4) bytes, and exactly how many from the state before |
| RansState.RangeBytes | tools/aeic/export_golden.py:495-500 | a range entry emits at most two bytes |
| RansState.FlushedSize | tools/aeic/export_golden.py:490-512 | a sub-stream has exactly four bytes more than were emitted, and those are bounded by a quarter byte an entry and two and a half a range entry |
| RansState.FlushedSpelled | tools/aeic/export_golden.py:490-512 | a sub-stream is the final state from 2^23 on, low byte first, and then the bytes shed, last first |
| RansState.RefFlush | tools/aeic/export_golden.py:490-512 | the loops over the reversed entries give the sub-stream that first-to-last popping reads |
| RansSymbols.Bisect | tools/aeic/export_golden.py:569-577 | the binary search finds the slot that holds the cumulative value |
| RansSymbols.UnescapedPlaced | tools/aeic/export_golden.py:466-474 | slot and zig-zag number determine the symbol, for every integer |
| RansSymbols.PlacedSpelled | tools/aeic/export_golden.py:467-474 | values past the row are numbered 0, 2, 4, ..., those below the offset 1, 3, 5, ... |
| RansSymbols.EscapeSpelled | tools/aeic/export_golden.py:478-487 | the escape code entry by entry: n / 3 threes, n % 3, and the n base-4 digits, lowest first, with no leading zero |
| RansSymbols.SymbolSpelled | tools/aeic/export_golden.py:462-487 | the entries of one symbol: none for a negative index, the slot of a value in the row, or the last slot and the escape code |
| RansSymbols.SliceAppend | tools/aeic/export_golden.py:460-487 | the entries of a slice come symbol after symbol |
| RansSymbols.EscapeReadBack | tools/aeic/export_golden.py:478-487 | the escape code of every number (digit count in chunks of 3, then base-4 digits) is read back, consuming exactly its entries |
| RansSymbols.SymbolReadBack | tools/aeic/export_golden.py:561-608 | any integer symbol is read back, and the cursor stands where it stood before the symbol was pushed |
| RansSymbols.SliceReadBack | tools/aeic/export_golden.py:460-487 | a whole slice is read back: the symbol where its index is not negative, 0 elsewhere |
| RansSymbols.RefPushSymbols | tools/aeic/export_golden.py:460-487 | the loop appends exactly the entries of its slice, escapes included |
| RansContainer.ContainerReadBack | tools/aeic/export_golden.py:515-524 | parsing gives back any 1 to 16 parts whose stored sizes fit 32 bits |
| RansContainer.WidthIff | tools/aeic/export_golden.py:516-517 | sizes take two bytes if and only if every stored part has at most 65535 bytes, else four |
| RansContainer.ContainerSpelled | tools/aeic/export_golden.py:515-524 | the container byte by byte: flag, the sizes of all parts but the last, the parts one after the other |
| RansContainer.RefContainer | tools/aeic/export_golden.py:515-524 | the loops build that container, with 2- or 4-byte sizes, and fail exactly when the parts cannot be shipped |
| RansContainer.ParseContainer | tools/aeic/export_golden.py:181-202 | the loops split any stream, malformed ones included, as the parser's specification does |
| RansCodec.RoundTrip | tools/aeic/export_golden.py:527-612 | for any calls over well-formed tables, decoding what was encoded gives every symbol back, and every sub-stream ends in state 2^23 with no byte left |
| RansCodec.PiecesExist | tools/aeic/export_golden.py:533-536 | the symbols of a call can be cut in exactly one way into n pieces, in order, that have an n-th each but the last |
| RansCodec.StreamCarriesPieces | tools/aeic/export_golden.py:527-538 | parsing an encoded stream gives n parts, and part p is the flushed entries of the p-th pieces of all calls |
| RansCodec.EncodeSucceeds | tools/aeic/export_golden.py:527-538 | with 1 to 16 parts of at most 2^30 entries there is always a stream to decode |
| RansCodec.RefEncode | tools/aeic/export_golden.py:527-538 | the loops over calls and parts build that stream |
| RansCodec.RefDecode | tools/aeic/export_golden.py:541-612 | the loops that carry states and pointers from call to call succeed exactly when the specification does, with its results |
| Dedup.PruningInvisible | sdr-node/src/node.cpp:1268-1280 | on every run with nondecreasing time, the pruned map answers as one that is never pruned |
| Dedup.DuplicateMeaning | sdr-node/src/node.cpp:1268-1280 | a payload is a duplicate if and only if it was accepted, or sent by the node, less than 600 s before |
| Dedup.AcceptedAreApart | sdr-node/src/node.cpp:1273-1274 | two accepted receptions of one payload are at least 600 s apart |
| AckLedger.AcksConserved | sdr-node/src/node.cpp:1739-1748 | for every hash: texts sent = confirmed + waiting + pushed out |
| AckLedger.WaitsFor32Texts | sdr-node/src/node.cpp:814-820 | a text whose hash did not come back is still waited for while fewer than 32 further texts were sent |
| AckLedger.PushedOutBy32 | sdr-node/src/node.cpp:818-819 | that bound is exact, after any events: with no ACK heard since, a text keeps its place while at most 31 further texts were sent, and from the 32nd on exactly the last 32 texts are waited for |
| AckLedger.TakeFirst | sdr-node/src/node.cpp:1771-1778 | the search removes the oldest entry with the hash and no other |
| Queues.InboxConserves | sdr-node/src/node.cpp:1282-1291 | frames queued = frames removed, in order, followed by the inbox of at most 256; a dropped frame had 256 behind it |
| Queues.TransmitsInOrder | sdr-node/src/node.cpp:60-81 | for every interleaving of producers and worker: transmitted, in flight and queued, in this order, are what was enqueued |
| NodeSpec.FirstMatch | sdr-node/src/node.cpp:778-784 | a contact is found exactly if one has the six bytes, and it has them |
| NodeSpec.Sender | sdr-node/src/node.cpp:1434-1447 | the sender found has the source byte and shares the secret; none is found only if no contact does |
| Node.MeshNode.HandleSendDirectText | sdr-node/src/node.cpp:720-829 | its effects, in every branch: error codes, CLI, unknown recipient, or the text; contacts, inbox and settings stay as they are |
| Node.MeshNode.SendText | sdr-node/src/node.cpp:769-829 | mark, pending ACK, direct or flooded packet and answer, or the build error; pending requests stay as they are |
| Node.MeshNode.SendToContact | sdr-node/src/node.cpp:832-850 | direct over a known route, else flood; mark, packet, pending request, or the build error; no ACK is awaited, and at most 16 requests |
| Node.MeshNode.SendContactRequest | sdr-node/src/node.cpp:862-919 | its effects, with forced flooding for path discovery |
| Node.MeshNode.HandleAnonRequest | sdr-node/src/node.cpp:921-999 | an unknown node becomes a contact reachable with no hop, and no other contact changes; the request always goes direct |
| Node.MeshNode.HandleRepeaterRequest | sdr-node/src/node.cpp:1001-1064 | login and status requests, with the password cut to 15 bytes |
| Node.MeshNode.HandleAnswer | sdr-node/src/node.cpp:1067-1167 | an answer takes the first request of this contact that has its tag or is under 60 s old, and reaches the app; contacts, routes and pending ACKs stay as they are |
| Node.BuildAnswerPush | sdr-node/src/node.cpp:1091-1163 | login accepted by the new or the legacy protocol, or refused; else the body, as much as fits a frame |
| Node.MeshNode.FindPendingReq | sdr-node/src/node.cpp:1076-1085 | the search finds the first such request |
| Node.MeshNode.FindByPrefix | sdr-node/src/node.cpp:777-783 | the search in map order finds the first contact with the six bytes |
| Node.MeshNode.FindSender | sdr-node/src/node.cpp:1434-1448 | the search in map order finds the contact that shares the secret |
| Node.MeshNode.TakePendingAck | sdr-node/src/node.cpp:1769-1779 | the oldest entry with the hash goes, and when it was sent is known |
| Node.MeshNode.SeenBefore | sdr-node/src/node.cpp:1268-1280 | the answer and the new map, pruned over 4096 entries |
| Node.MeshNode.QueueMessage | sdr-node/src/node.cpp:1282-1291 | the new inbox and the waiting notice to a connected app |
| Node.MeshNode.HandleTextHeard | sdr-node/src/node.cpp:1423-1534 | delivery to the app, and the ACK, alone or inside a PATH return; no route changes |
| Node.MeshNode.HandlePathHeard | sdr-node/src/node.cpp:1674-1761 | the route learned, and then the answer or ACK that came with it; no contact comes or goes, nothing is sent |
| Node.MeshNode.HandleAdvert | sdr-node/src/node.cpp:1375-1422 | the contact as advertised; every route learned is kept, and only the advertiser can be new |
| Node.MeshNode.HandleControl | sdr-node/src/node.cpp:1535-1556 | control data of direct neighbours reaches a connected app |
| Node.MeshNode.HandleTrace | sdr-node/src/node.cpp:1595-1651 | a trace is pushed once as many hops added their byte as its route has hashes |
| Node.MeshNode.OnRxPacket | sdr-node/src/node.cpp:1324-1790 | duplicates have no effect but being heard; every other packet has those of its kind |
| Node.MeshNode.SyncNextMessage | sdr-node/src/node.cpp:483-492 | the first message goes to the app and leaves the inbox, or the app is told there is none |
| Node.MeshNode.TakeTx | sdr-node/src/node.cpp:72-75 | the idle worker gets the first packet of the queue, and waits while there is none |
| Node.MeshNode.FinishTx | sdr-node/src/node.cpp:76-79 | the packet in flight has been transmitted, and the worker is idle |
| Node.MeshNode.Handle | sdr-node/src/node.cpp:275-1790 | the object refines the state machine: after any event its fields are the next state, and the frames told are those decided |
| NodeRuns.RoutedIsWhole | sdr-node/src/node.cpp:803-811 | a packet over a well-formed route carries a whole number of hops at the declared width, as many as learned |
| NodeRuns.RoutesAlwaysOk | sdr-node/src/node.cpp:1695-1711 | from well-formed contacts, in every reachable state every known route has the length its byte announces, and every packet ever sent over a route carries whole hops |
| NodeRuns.SeenIsMarking | sdr-node/src/node.cpp:1268-1280 | on every run the node's map is the dedup map of the marks it made, own sends included |
| NodeRuns.DuplicatesOnRuns | sdr-node/src/node.cpp:1328-1336 | on every run with one clock, a packet is a duplicate if and only if its payload was marked as sent, or accepted, less than 600 s before |
| NodeRuns.SendsAreMarked | sdr-node/src/node.cpp:797-1526 | whatever the event, each packet handed to the transmitter has its payload marked with it, at the time of the event |
| NodeRuns.OwnSendsAreDuplicates | sdr-node/src/node.cpp:1226-1336 | on every run with one clock, a payload handed to the transmitter less than 600 s before is a duplicate when heard: nothing changes and the app is told nothing |
| NodeRuns.DuplicateIgnored | sdr-node/src/node.cpp:1330-1335 | a duplicate changes nothing and tells the app nothing |
| NodeRuns.PendingIsLedger | sdr-node/src/node.cpp:814-820 | on every run the pending ACKs are those of the ledger of texts sent and ACKs heard |
| NodeRuns.ConfirmationsBounded | sdr-node/src/node.cpp:1762-1789 | on every run, for each hash, delivery pushes of plain and PATH-carried ACKs together never exceed the texts sent with it |
| NodeRuns.TextStillPending | sdr-node/src/node.cpp:814-820 | on every run, an unacknowledged text is pending while fewer than 32 further texts were sent |
| NodeRuns.InboxOnRuns | sdr-node/src/node.cpp:1282-1291 | on every run, the messages queued split in order into those removed and the inbox, and none is dropped unless 256 were behind it |
| NodeRuns.PullsOnRuns | sdr-node/src/node.cpp:483-492 | on every run, the messages the app was given are those delivered from the front of the inbox, in order |
| NodeRuns.TxConserved | sdr-node/src/node.cpp:60-81 | whatever the node and its worker do: transmitted, in flight and queued, in this order, are what was there followed by what was enqueued |
| NodeRuns.TxOnRuns | sdr-node/src/node.cpp:60-81 | so on every run that starts with nothing to send they are everything enqueued |
| NodeLaws.TextIsAnswered | sdr-node/src/node.cpp:823-827 | the app learns whether the text is flooded, the hash its ACK will carry, and to wait 8 or 15 seconds |
| NodeLaws.TextIsRefused | sdr-node/src/node.cpp:721-783 | a short frame, an unknown kind or an unknown recipient changes nothing and is answered 6, 1 or 2 |
| NodeLaws.RequestGoesOut | sdr-node/src/node.cpp:862-919 | a request goes over a known route unless flooding is forced, marked, with its tag remembered last of at most 16, and is answered with tag and timeout; or nothing changes |
| NodeLaws.ToContactGoesOut | sdr-node/src/node.cpp:832-850 | the same for login, status and CLI, which flood only if no route is known |
| NodeLaws.LoginGoesOut | sdr-node/src/node.cpp:1020-1030 | a login carries the time and the password up to its first zero, at most 15 bytes of it |
| NodeLaws.AnonGoesOut | sdr-node/src/node.cpp:921-999 | an unknown node becomes a contact with an empty route, and the request goes direct over the route known or over none |
| NodeLaws.ChannelGoesOut | sdr-node/src/node.cpp:1217-1238 | a channel text is flooded at the width set, marked, and answered with OK; nothing else changes |
| NodeLaws.LoginIff | sdr-node/src/node.cpp:1091-1115 | a login counts as accepted if and only if the answer has 13 bytes and a zero behind the tag, or the letters OK there |
| NodeLaws.AnswersCarryOn | sdr-node/src/node.cpp:1116-1163 | every other answer carries the reply on, as much as a frame of 172 bytes holds |
| NodeLaws.RequestIsAnswered | sdr-node/src/node.cpp:1067-1167 | the answer to the one request of a contact takes it, whenever it comes, and reaches a connected app in the kind of the request |
| NodeLaws.WayIsLearnedAndRequestAnswered | sdr-node/src/node.cpp:1692-1733 | an answer inside a PATH return, once decrypted and zero-padded, does both: the route travelled is stored and told, and the request is taken and answered |
| NodeLaws.AdvertIsKept | sdr-node/src/node.cpp:1375-1422 | a signed advert leaves the contact as advertised with the way it came; the learned route stays, a new contact has none |
| NodeLaws.TraceIsPushedIff | sdr-node/src/node.cpp:1595-1643 | a trace is pushed if and only if its route has at most as many bytes as its hops have bytes, at 1, 2, 4 or 8 bytes a hash |
| PathExchange.PackedReads | sdr-node/src/node.cpp:1487-1492 | the length byte gives back hop count and width, and is 0xFF exactly for 63 hops of width 4 |
| PathExchange.ReplyReadBack | sdr-node/src/node.cpp:1692-1700 | a decrypted PATH return reads as the route and ACK put into it, zero padding or not |
| PathExchange.TextGoesOut | sdr-node/src/node.cpp:797-821 | the new queue, pending ACKs and contacts after a text command |
| PathExchange.ReceiverAnswers | sdr-node/src/node.cpp:1473-1524 | a receiver of a flooded text enqueues the PATH return with the hops travelled and the ACK, and queues the text for its app |
| PathExchange.SenderLearns | sdr-node/src/node.cpp:1702-1748 | when it comes back the sender knows exactly the path travelled, no other contact changes, and the oldest text with that hash is no longer pending |
| PathExchange.NextTextRouted | sdr-node/src/node.cpp:803-811 | the next text goes direct over that path at its width, if and only if the path is not 63 hops of 4 bytes |
| PathExchange.LongestWideWayIsForgotten | sdr-node/src/node.cpp:797-805 | such a path, and the flood after it |
| PathExchange.RouteLasts | sdr-node/src/node.cpp:1702-1711 | a route lasts, over any events, until an effect forgets the contact or stores another route |
| PathExchange.LastTaken | sdr-node/src/node.cpp:1743-1748 | if one text was sent with a hash and its ACK is taken, nothing waits for the hash |
| PathExchange.ReceiverAcknowledges | sdr-node/src/node.cpp:1465-1524 | a receiver of a text that came direct enqueues a plain ACK whose first four bytes are the hash the sender waits for, and queues the text for its app |
| PathExchange.SenderHearsAck | sdr-node/src/node.cpp:1762-1789 | a plain ACK takes the oldest text with its hash, changes no contact, and is told to a connected app exactly if a text waited for it |
| PathExchange.DirectTextIsConfirmed | sdr-node/src/node.cpp:1465-1789 | the whole exchange of a direct text at any points of two runs: packets enqueued, delivery told, and nothing pending if no other text had the hash |
| PathExchange.FloodedTextTeachesTheWay | sdr-node/src/node.cpp:1473-1512 | all of this at any points of two runs: packets enqueued, route learned, delivery told, nothing pending, and every later text direct until something changes the route |
| PathExchange.ExchangeIsPossible | sdr-node/src/node.cpp:1473-1512 | such runs exist, for every way and any two nodes of which one can build the text and the other the answer |
| FrameServer.ScanAppend | sdr-node/src/companion_server.cpp:51-67 | scanning may be cut anywhere: what is left over continues with the next bytes |
| FrameServer.ChunkingIrrelevant | sdr-node/src/companion_server.cpp:46-68 | frames and rest depend only on all bytes read, not on how reads split them |
| FrameServer.RestIsWaiting | sdr-node/src/companion_server.cpp:51-67 | at most 174 bytes stay buffered, and they hold no frame |
| FrameServer.FramesReadBack | lib/services/usb_serial_frame_codec.dart:8-24 | framed payloads of at most 172 bytes parse to exactly those payloads, before any further bytes |
| FrameServer.HarmlessIff | sdr-node/src/companion_server.cpp:52-60 | framed payloads after garbage parse to exactly those payloads, whatever they are, if and only if the garbage has no false start |
| FrameServer.StreamReadBack | sdr-node/src/companion_server.cpp:51-67 | after garbage without a false start, in any split, a nonempty list of framed payloads parses to exactly that list with nothing left |
| FrameServer.MarkedGarbageLosesFrame | sdr-node/src/companion_server.cpp:53-60 | garbage with a false start, and the frame it swallows |
| FrameServer.Connection.OnRead | sdr-node/src/companion_server.cpp:49-67 | the buffer, the frames handled and the first-frame flag after one read |
| FrameServer.ServeClient | sdr-node/src/companion_server.cpp:42-68 | a whole connection hands on the frames of all bytes read |
| Smaz.BestIsFirstLongest | lib/helpers/smaz.dart:315-334 | the dictionary hit is the first of the longest entries the input starts with; none exactly if no entry fits |
| Smaz.FindBest | lib/helpers/smaz.dart:315-334 | the search with its length bound and early exit finds that hit |
| Smaz.RoundTrip | lib/helpers/smaz.dart:297-395 | decompressing what was compressed gives every byte string back, for every dictionary of at most 254 words |
| Smaz.DecompressedIff | lib/helpers/smaz.dart:354-395 | exactly the concatenations of verbatim bytes, verbatim runs and dictionary codes can be decompressed, to what they mean |
| Smaz.Expansion | lib/helpers/smaz.dart:297-352 | 3 * compressed <= 5 * input + 2, runs broken at 256 included |
| Smaz.ExpansionIsTight | lib/helpers/smaz.dart:302-313 | two bytes outside the dictionary reach that bound |
| Smaz.GreedyTokens | lib/helpers/smaz.dart:297-352 | every input has a greedy list of tokens: the first longest word where one fits, else verbatim bytes in runs of at most 256 |
| Smaz.GreedyIsCompressed | lib/helpers/smaz.dart:297-352 | and the compressor writes exactly those tokens |
| Smaz.WrittenSpelled | lib/helpers/smaz.dart:302-313 | a word is its code, one verbatim byte is 254 and the byte, a run is 255, its length less one, and its bytes |
| Smaz.CompressBytes | lib/helpers/smaz.dart:297-352 | the loop with its verbatim buffer compresses as specified |
| Smaz.DecompressBytes | lib/helpers/smaz.dart:354-395 | the loop decompresses any bytes as specified, truncated and unknown codes included |
| SmazTable.RcbHas254Entries | lib/helpers/smaz.dart:8-263 | the dictionary has 254 words, one for each code below the verbatim marks |
| SmazTable.ShippedRoundTrip | lib/helpers/smaz.dart:8-395 | round trip and expansion bound for this dictionary |
| SmazTable.ShippedTextComesBackIff | lib/helpers/smaz.dart:272-295 | which texts come back, for this dictionary |
| SmazTable.ShippedTextIsLost | lib/helpers/smaz.dart:273-286 | the text s:AA== is shown as one space |
| SmazTable.ShippedTextIsEncoded | lib/helpers/smaz.dart:272-282 | the text http:// is sent as s:Qw== |
| SmazText.Base64ReadBack | lib/helpers/smaz.dart:276-277 | base64 (section 4 of RFC 4648) gives every byte string back, and has nothing to trim |
| SmazText.Rfc4648Examples | lib/helpers/smaz.dart:276-277 | the examples of section 10 of RFC 4648, and the characters + and / |
| SmazText.Decode64Iff | lib/helpers/smaz.dart:406-409 | exactly the encodings decode, each to what it encodes |
| SmazText.DecodeFlexibleIff | lib/helpers/smaz.dart:406-419 | the two attempts together decode exactly what is base64 once trimmed, mapped from the URL alphabet and padded |
| SmazText.TextReadBack | lib/helpers/smaz.dart:272-295 | a valid text that does not start with "s:" after left-trimming is shown unchanged after encoding, which never makes it longer |
| SmazText.EncodesIff | lib/helpers/smaz.dart:272-282 | a text is encoded if and only if it is not to be left alone (empty, marked, or not shorter); then the result is shorter in UTF-8 and its base64 decompresses to the text |
| SmazText.TextComesBackIff | lib/helpers/smaz.dart:272-295 | a valid text is lost if and only if it was sent as it is and, after a mark, holds base64 of tokens that spell another text |
| SmazText.PrefixedTextIsLost | lib/helpers/smaz.dart:273-286 | such a text, for any dictionary whose first word is a space |
| PathHelper.FormatHopHexInjective | lib/helpers/path_helper.dart:17-21 | different hops have different names |
| PathHelper.SplitCovers | lib/helpers/path_helper.dart:37-53 | the hops are the path, cut at the width, the last perhaps shorter |
| HopResolver.PickIsBest | lib/helpers/path_hop_resolver.dart:46-58 | the pick is a nearest located candidate, else a most recently seen one |
| HopResolver.ResolvingConserves | lib/helpers/path_hop_resolver.dart:17-66 | no contact is used twice; each resolved one is a repeater or room whose key starts with the hop; for each prefix as many hops resolve as the smaller of hops and candidates |
| HopResolver.BucketSpelled | lib/helpers/path_hop_resolver.dart:17-31 | the candidates of a name are the repeaters and rooms, each as often as listed, whose key is long enough and starts with it |
| HopResolver.EveryChoiceIsBest | lib/helpers/path_hop_resolver.dart:41-63 | in the final list, every hop has the best of the repeaters and rooms of its name that no hop before it was given (after it, from the end), measured from the last located hop on that side, else the endpoint; none if and only if none is left |
| HopResolver.Resolve | lib/helpers/path_hop_resolver.dart:10-66 | the loops over the mutable candidate lists resolve as specified, for every sorting of equally recent candidates |
| BufferReader.SignedReadBack | lib/connector/meshcore_protocol.dart:85-97 | numbers that fit their bytes are read as they were written, negative ones included |
| BufferReader.BigEndianSpelled | lib/connector/meshcore_protocol.dart:77-97 | numbers are sent most significant byte first |
| BufferReader.Reader.ReadBytes | lib/connector/meshcore_protocol.dart:19-29 | the bytes and the new pointer, or neither if there are too few |
| CayenneLpp.SwitchesAgree | lib/helpers/cayenne_lpp.dart:98-445 | the two switches read the same bytes for every type and stop at the same types |
| CayenneLpp.NumbersReadBack | lib/helpers/cayenne_lpp.dart:98-296 | a number sent in the bytes, sign and unit of its type is listed as that many units, for every numeric type |
| CayenneLpp.AxesReadBack | lib/helpers/cayenne_lpp.dart:162-267 | accelerations and rotations keep their three axes in order, in thousandths or hundredths |
| CayenneLpp.ColourReadBack | lib/helpers/cayenne_lpp.dart:268-278 | a colour keeps red, green and blue |
| CayenneLpp.PolylineReadBack | lib/helpers/cayenne_lpp.dart:457-463 | a polyline has as many bytes as its size less one announces, or all that are left |
| CayenneLpp.LastOfMeaning | lib/helpers/cayenne_lpp.dart:309-312 | the last listed value is listed, and none later has its channel and type |
| CayenneLpp.ParsersAgree | lib/helpers/cayenne_lpp.dart:291-456 | on any bytes, a channel holds for each type the last value listed and nothing else; its channels are those listed and the one where reading stopped, which has no values of its own |
| CayenneLpp.AscendingIsSorted | lib/helpers/cayenne_lpp.dart:466-472 | the output has every channel once, ascending |
| CayenneLpp.SortIsUnique | lib/helpers/cayenne_lpp.dart:466-472 | and is the same however it is sorted |
| CayenneLpp.Parse | lib/helpers/cayenne_lpp.dart:86-288 | the loop over the reader lists what is specified, on any bytes |
| CayenneLpp.ParseByChannel | lib/helpers/cayenne_lpp.dart:290-456 | the loop over the reader and the map gives the channels specified, on any bytes |
| CayenneLpp.ReadingsReadBack | lib/helpers/cayenne_lpp.dart:43-84 | readings written are listed again up to the first digital input on channel 0: all of them, if and only if there is none |
| GvFile.FileReadBack | tools/aeic/export_golden.py:664-683 | reading a written file succeeds and gives the arrays under their trimmed names |
| GvFile.DescriptorSpelled | tools/aeic/export_golden.py:168-171 | a descriptor byte by byte: name and zeros in 16, type, count |
| GvFile.FileSpelled | tools/aeic/export_golden.py:163-174 | the file byte by byte: magic, version, number of arrays, descriptors, elements |
| GvFile.ReadingUndoesWriting | tools/aeic/export_golden.py:151-178 | for distinct names that is exactly what was written, if and only if no name ends in a zero byte |
| GvFile.WriteGvFile | tools/aeic/export_golden.py:151-178 | the loop writes that file, or fails for a name or count that does not fit |
| GvFile.ReadGvFile | tools/aeic/export_golden.py:664-683 | the loops read any bytes as specified, malformed ones and names that are not UTF-8 included |
| Recording.EntriesLaidOut | tools/aeic/record_entropy_io.py:97-116 | extents are 8-aligned, disjoint and ascending with gaps under 8 bytes, and so is the index after them |
| Recording.HeadSpelled | tools/aeic/record_entropy_io.py:117 | the head byte by byte: magic, version 1, no flags, place and length of the index |
| Recording.ReadingUndoesWriting | tools/aeic/record_entropy_io.py:139-153 | reading a recording gives every array back with its type, shape and elements |
| Recording.Recorder.Put | tools/aeic/record_entropy_io.py:87-95 | a name can be used once; arrays and order afterwards |
| Recording.Recorder.Write | tools/aeic/record_entropy_io.py:97-124 | the loop over the order builds that file |
| Recording.ReadRecording | tools/aeic/record_entropy_io.py:139-153 | the loop over the index reads as specified |

## Left out

- RansCodec.RoundTrip: tables must be well-formed (rows start at 0, rise strictly, end at 2^16) and indexes below the row count, as the coder itself takes for granted.
- RansCodec.RefDecode: an index past the end of a sub-stream fails the call, as the exception does; results of earlier calls are then not returned.
- PathExchange.FloodedTextTeachesTheWay: whether 63 hops of 4 bytes fit a packet is decided by the packet builder, which is not part of this model.
- Node.MeshNode.Handle: every event is one step. The source releases its lock between looking a contact up and marking or queueing, so interleavings inside one command are not modelled; those of the transmit worker are.
- Node.MeshNode.Attach: replacing the app's sender is one step; how long a replaced sender stays alive is not modelled.
- Node.MeshNode.HandleTextHeard: the 2-bit attempt field, the byte layout of app frames, their cut at 172 bytes and the signal quality are not modelled.
- Node.MeshNode.HandleAckValue: the trip time stays in seconds; the conversion to whole milliseconds is not modelled.
- Node.MeshNode.HandleAnswer: pushes to the app carry kind, contact, tag and body; the byte layouts for each kind are not modelled.
- Node.MeshNode.SendChannelText: channels, their keys and the direct form of channel data are not modelled; the payload is given, and so is what a channel packet decrypts to.
- HopResolver.Resolve: distance is any function of two positions.
- CayenneLpp.Parse: values are exact rationals, and polyline data are bytes rather than their hexadecimal form.
- CayenneLpp.Writer.AddTemperature: takes tenths; the conversion of a floating-point number to them is not modelled. The same holds for voltages and positions.
- SmazText.TextReadBack: UTF-8 is any pair of functions that gives the text back; the base64 decoder's tolerance for `%3D` as padding is not modelled. (Its tolerance for the URL alphabet on the first attempt makes no difference, as the second attempt maps it back.)
- Recording.ReadingUndoesWriting: JSON is any pair of functions that gives the entries back; the recorded metadata and calls are not modelled.
- GvFile.ReadingUndoesWriting: elements are their little-endian bytes; conversion of numpy arrays is not modelled.
- Node.MeshNode.HandleTrace: the layout of the push and its cut at 172 bytes, and the log of traces sent, are not modelled.
- Trace and control packets sent by the node, which do not mark the map of payloads seen: not modelled.
- The framing of frames sent to the app (`sendFrame`), which no other property depends on.
- Payloads of different kinds with the same bytes, which share a dedup key on the air: payloads are ideal.
- Self adverts, device settings, statistics and the listing of contacts: no state that other properties depend on.
- Contacts, preferences and channels files: text-file plumbing.
- Sockets, threads, process supervision and the radio: operating-system plumbing.
- Neural-network capture, hashing and manifests in `tools/aeic`, and the Flutter interface.
