# Verification of zcio's protocol cores

zcio is a C library of sans-I/O protocol engines: octets in, octets out, no sockets. This project
models those engines in Dafny and proves what they promise, for every input, every run and every
interleaving:

- the HPACK decoder and encoder (`PrefixInt`, `Huffman`, `HuffmanTable`, `HpackTable`, `HpackBlock`,
  `HpackDecoder`, `HpackEncoder`, `HpackStop`) and the QPACK codec (`QpackTable`, `Qpack`), with the codes, tables
  and examples of the standards (`HuffmanAppendix`, `StaticTables`, `HpackExamples`, `QpackExamples`);
- the HTTP/2 server connection. `H2Trace` says what a peer can observe, `H2Spec` gives the transitions,
  `H2Steps`, `H2Runs` and `H2Table` carry properties over whole runs. The theorems are in `H2Grammar`,
  `H2Response`, `H2History`, `H2Order`, `H2Rules`, `H2Replies`, `H2Credit`, `H2Pump`, `H2Receive`, `H2Bodies`,
  `H2Silence`, `H2Interrupted`, `H2Blocks` and `H2Cuts`; `H2Opening` is how a connection starts, `H2Fields` judges
  header lists, `H2Sync` and `H2Values` put the HPACK decoder and that judgement behind the connection;
  `H2Connection` is the object, tied method by method to the transitions, and `H2Wire` its frames;
- the lock-free ring (`RingSlots`, `RingProtocol`, `RingBuffer`, all in `Ring.dfy`);
- WebSocket framing and sessions (`WsFrame`, `WsSession`, `WsDelivery`, `WsPeers`, `WsRules`, `WsSafety`,
  `WsConnection`); `WireFormats` says octet by octet what goes over the wire, for HTTP/2 too;
- HTTP/1.1 message bodies (`H1Body`, `H1Codec`, `H1Reader`);
- the shared plumbing: `Buffer`, `Utf8`, `Path`, `DotSegments`, `Target`, streaming SHA-256 (`Sha256`) and the bit
  packer (`Serial`).

Where the source updates an object in place the model is a class whose methods are proved against
specification functions; the theorems are lemmas about those functions. `dafny verify dfyconfig.toml`
checks the whole project.

## Findings

What the proofs show about the code where it departs from what one would expect of it.

- **Header blocks refused half-way.** When `h2_emit` refuses a field (src/h2.c:357-393) `zhp_decode_`
  stops (src/hpack.c:449-450) and `h2_finish_headers` only resets the stream (src/h2.c:470-474), so the
  connection goes on with a dynamic table that lacks what the unread lines would have added.
  `HpackStop.StopSync`: the tables still agree if and only if evicting from the table and the fields those
  lines enter gives the table back. `H2Sync.ConnectionLost` is the run: a "connection" field sent with
  incremental indexing and a later reference to its entry end in COMPRESSION_ERROR, although the client
  conforms to RFC 7541. `H2Sync.ConnectionInSync` says over whole runs when the tables agree.
- **Field values are not read.** `h2_emit` (src/h2.c:367-393) checks names, their order and the value of
  "te", while src/h1.c:391 and src/h3.c:220-238 also check values (`zhs_value_ok_`). By section 8.2.1 of
  RFC 9113 a value with NUL, LF or CR, or with a blank at either end, makes the list malformed.
  `H2Fields.ConformanceExact`: the callback refuses exactly what does not conform if and only if the list is
  refused for its names or size, or all its values conform. `H2Values.ValueDispatched` is a run from the start
  of a connection in which a request is handed over whatever the octets of a value. A method or path is read
  as far as its first NUL (`H2Fields.RequestsJudged`).
- **Chunk-size lines of 4096 octets.** Such a line is accepted when it arrives with its LF and refused
  when the input is cut just before it (src/h1.c:479 against src/h1.c:483). `H1Body.CutIndependence`:
  an input is treated the same under every cut, up to the status of a refusal, if and only if it is refused in
  one piece or holds no such line; `H1Reader.BoundaryInput` is one. `H1Body.VerdictIndependence` says
  when the status is the same too: a trailer line over the limit that ends in a bare LF, or a size line of 4096
  octets over the body limit, gets another one before its LF arrives (src/h1.c:531-538).
- **Flood limits are per feed** (src/h2.c:815). `H2Cuts.CutsAgree`: how an input is cut makes no
  difference if and only if its PING and SETTINGS frames stay within the limits of one feed, or the first
  frame beyond them is refused in a feed of its own too, with the same result. 129 PING frames
  (`H2Cuts.PingLimitIsPerFeed`) or 65 SETTINGS frames (`H2Cuts.SettingsLimitIsPerFeed`) break a connection
  in one feed and not in two.
- **A reset inside a header block.** RST_STREAM between HEADERS and its CONTINUATION is a connection error
  (src/h2.c:841-845) and does not free its stream, and the event loop pumps after a failing feed
  (src/http_server.c:455-458). `H2Interrupted.SentAfterReset` is a run from the start of a connection in
  which the server sends DATA on the stream after its reset. It is the only exception
  (`H2Silence.SilentAfterReset`), nothing is sent before a pump (`H2Silence.SilentUntilPumped`), and one pump
  sends on the stream if and only if it has its slot and something of it can go at its turn
  (`H2Interrupted.OnePump`).
- **Content-Length near 2^64.** The overflow guard (src/h1.c:351) also refuses the six values above
  18446744073709551609, whatever the body limit (`H1Reader.ContentLength`).
- **Dot segments.** `remove_dot_segments` is announced as that of RFC 3986 (src/http_util.c:282) but leaves
  no slash for a final dot segment and refuses to climb above the root. `DotSegments.RemoveDots` is the
  algorithm of section 5.2.4; `DotSegments.AgreesWithRfc`: the code computes it if and only if no prefix of
  the path climbs above the root and the path does not end in a dot segment below it;
  `DotSegments.FinalDot` is "/a/.".

## Model

| member | source | states |
|---|---|---|
| `PrefixInt.RoundTrip` | src/hpack.c:21-68 | for every prefix width, flag bits and following octets, an encoded integer decodes to itself and its own length if it is at most 2^24, and is refused otherwise |
| `PrefixInt.EncodingMeans` | src/hpack.c:54-68 | section 5.1 of RFC 7541: small values in the prefix, others as the full prefix and groups of seven bits whose weighted sum is the rest, no group too many |
| `PrefixInt.ExamplesC1` | src/hpack.c:54-68 | 10 and 1337 in five bits, 42 in eight, as in section C.1 |
| `PrefixInt.DecodeInt` | src/hpack.c:21-52 | the reading loop, with truncation, the 2^24 cap and the four-octet limit, computes `Decode` |
| `PrefixInt.EncodeInt` | src/hpack.c:54-68 | the writing loop appends the minimal encoding |
| `Huffman.WalkIsCode` | src/hpack.c:113-128 | the symbol the count/symbol loop reports is the one whose canonical code word was consumed |
| `Huffman.WalkFindsCode` | src/hpack.c:113-128 | over a complete table the loop never runs out of lengths: it finds a code word or the input ends |
| `Huffman.DecodeExactly` | src/hpack.c:130-161 | a bit string decodes to s if and only if it is the code words of s followed by at most seven one-bits, within the output limit |
| `Huffman.OctetsDecodeExactly` | src/hpack.c:130-161 | the same for octet strings |
| `Huffman.RoundTrip` | src/hpack.c:113-161 | code words packed with one-bit padding decode back to the string if it is within the limit, and are refused otherwise |
| `Huffman.DecodeSymbol` | src/hpack.c:106-128 | the loop over code lengths on the input's bits is the walk that `WalkIsCode` characterises |
| `Huffman.DecodeString` | src/hpack.c:130-161 | the string loop computes the decoding that `DecodeExactly` characterises |
| `HuffmanTable.TableIsComplete` | src/hpack.c:81-104 | the tabulated counts use up the code space and every octet and the end mark is listed once |
| `HuffmanAppendix.CodesOfAppendixB` | src/hpack.c:81-104 | each of the 257 symbols has the code word and length of Appendix B of RFC 7541 |
| `Huffman.OctetBitAt` | src/hpack.c:113-118 | the bits of an octet are taken from the most significant one |
| `HpackTable.TableBound` | src/hpack.c:247-300 | after any addition or size update the accounted size is within the maximum and 4096, at most 128 entries live, and an entry too large leaves the table empty |
| `HpackTable.FitIsSuffix` | src/hpack.c:255-258 | eviction removes oldest entries only |
| `HpackTable.FitIsLongest` | src/hpack.c:255-258 | eviction removes no more entries than it has to |
| `HpackTable.IndexNames` | src/hpack.c:305-325 | section 2.3.3 of RFC 7541: after any series of additions and size updates index 62 + k names the field entered (k + 1)-th last while it lives, 1 to 61 the static entries, and no other index anything |
| `HpackTable.IndexMoves` | src/hpack.c:282-325 | an entry added takes index 62 and moves every other that stays up by one; a size update moves none |
| `StaticTables.AppendixA1` | src/hpack.c:167-173 | entries 1 to 16 are those of Appendix A of RFC 7541 |
| `StaticTables.AppendixA17` | src/hpack.c:173-181 | entries 17 to 32 |
| `StaticTables.AppendixA33` | src/hpack.c:181-185 | entries 33 to 48 |
| `StaticTables.AppendixA49` | src/hpack.c:185-190 | entries 49 to 61 |
| `HpackDecoder.Decoder.constructor` | src/hpack.c:228-235 | an empty table whose maximum is clamped to 4096 |
| `HpackDecoder.Decoder.Evict` | src/hpack.c:247-253 | the oldest live entry goes and its cost is subtracted |
| `HpackDecoder.Decoder.SetMax` | src/hpack.c:255-258 | the deque stands for the FIFO table resized |
| `HpackDecoder.Decoder.Reserve` | src/hpack.c:261-276 | compacting or doubling makes room at the tail, keeps the live entries and never exceeds 128 slots |
| `HpackDecoder.Decoder.Add` | src/hpack.c:282-300 | the deque stands for the FIFO table with the entry added, also when the entry evicts the one its name came from |
| `HpackDecoder.Decoder.Resolve` | src/hpack.c:305-325 | the ring of entries is searched as `Lookup`, whose meaning is `HpackTable.IndexNames` |
| `HpackDecoder.StringLiteral` | src/hpack.c:335-362 | raw or Huffman string literal, bounded by the block and the limit |
| `HpackDecoder.Decoder.Literal` | src/hpack.c:369-386 | a literal field with its name by reference or in full |
| `HpackDecoder.Decoder.Line` | src/hpack.c:396-435 | one representation of a block |
| `HpackDecoder.Decoder.Decode` | src/hpack.c:388-459 | the block loop emits the fields and leaves the table that `DecodeBlock` gives |
| `HpackDecoder.DecodeBlocks` | src/h2.c:442-449 | any series of blocks through one decoder object gives the results and the table of `DecodeStream` |
| `HpackDecoder.DecodeConforming` | src/hpack.c:388-459 | through any number of blocks of a conforming encoder the object returns the fields meant and its array ends as the encoder's table |
| `HpackBlock.LineSync` | src/hpack.c:396-435 | each line a conforming encoder may send is read back as what it means |
| `HpackBlock.StreamSync` | src/hpack.c:388-459 | synchronisation: for every series of blocks of a conforming encoder the decoder emits the encoded fields in order and the two tables are equal after every block |
| `HpackBlock.DecodedWithin` | src/hpack.c:437-452 | whatever the octets, the fields emitted stay within the list limit and the table within its bounds |
| `HpackBlock.Refusals` | src/hpack.c:396-435 | a size update after a field, one beyond 4096, index 0 and an index beyond the table are refused |
| `HpackExamples.ExamplesC2` | src/hpack.c:396-435 | the lines of section C.2 of RFC 7541, and size updates, octet by octet |
| `HpackExamples.ExamplesC3` | src/hpack.c:388-459 | the three requests of section C.3 decode to their fields, with the table and its size after each |
| `HpackStop.StopSync` | src/hpack.c:449-452 | whatever the callback refuses, the decoder's table is the encoder's after the lines read; it is the encoder's after the block if and only if that table, with the fields the unread lines enter added and evicted, stays as it is, so always if they enter none |
| `HpackStop.RefusalDesynchronises` | src/h2.c:470-474 | whatever callback refuses a field that was to enter the table, a following conforming block that refers to it is undecodable |
| `HpackStop.TableIsFit` | src/hpack.c:282-300 | any number of field lines moves the table as if all their entries were added first and evicted once |
| `HpackEncoder.StaticNameIndex` | src/hpack.c:205-210 | the first static entry of that name in any case, or none |
| `HpackEncoder.EncodeHeader` | src/hpack.c:471-486 | appends a literal without indexing, by static name where there is one |
| `HpackEncoder.EncodeStatus` | src/hpack.c:488-497 | appends the status by its static name and decimal value |
| `HpackEncoder.ReceivedName` | src/h2.c:876-892 | a peer reads the same name up to case, and exactly the same once it is in lower case |
| `HpackEncoder.ResponseRoundTrip` | src/hpack.c:465-497 | every response list decodes to itself from any table state and leaves the dynamic table untouched |
| `QpackTable.StaticNamesAreLower` | src/qpack.c:22-76 | every name of the 99-entry table is in lower case |
| `StaticTables.QpackAppendixA0` | src/qpack.c:22-76 | entries 0 to 19 are those of Appendix A of RFC 9204 |
| `StaticTables.QpackAppendixA20` | src/qpack.c:22-76 | entries 20 to 39 |
| `StaticTables.QpackAppendixA40` | src/qpack.c:22-76 | entries 40 to 59 |
| `StaticTables.QpackAppendixA60` | src/qpack.c:22-76 | entries 60 to 79 |
| `StaticTables.QpackAppendixA80` | src/qpack.c:22-76 | entries 80 to 98 |
| `Qpack.Decode` | src/qpack.c:110-236 | prefix check and line loop compute `DecodeSection`, refusing whatever needs a dynamic table |
| `Qpack.SectionSync` | src/qpack.c:137-236 | any section of an encoder that uses the static table only, with any delta base, decodes to the fields it stands for |
| `Qpack.EncodeHeader` | src/qpack.c:255-274 | appends a literal line with static name reference or literal name |
| `Qpack.EncodeStatus` | src/qpack.c:276-299 | appends the indexed line of a status that has one, otherwise a name reference |
| `Qpack.StatusSpelled` | src/qpack.c:276-299 | each status maps to an entry that spells it |
| `Qpack.EncodeSection` | src/qpack.c:249-299 | prefix, status and headers one after the other |
| `Qpack.SectionRoundTrip` | src/qpack.c:243-299 | the encoded section of a response decodes to its status and headers in order, unchanged for names in lower case |
| `QpackExamples.LineOctets` | src/qpack.c:137-299 | sections 4.5.2, 4.5.4 and 4.5.6 of RFC 9204: the first octet of each line form, then lengths and text |
| `QpackExamples.PrefixOctets` | src/qpack.c:249-253 | the prefix without a dynamic table is two zero octets |
| `QpackExamples.ExampleB1` | src/qpack.c:110-236 | the section of B.1 of RFC 9204 and an indexed line decode to their fields |
| `QpackExamples.DynamicRefused` | src/qpack.c:110-236 | dynamic and post-base references and a required insert count are refused |
| `H2Wire.FrameRoundTrip` | src/h2.c:210-222 | the frame reader gets back kind, flags, stream and payload of every frame the writer appends, whatever follows |
| `WireFormats.FrameLayout` | src/h2.c:210-222 | section 4.1 of RFC 9113: length in 24 bits, type, flags, stream in 31 bits, and the payload of each kind of frame |
| `WireFormats.SettingsAnnounced` | src/h2.c:1013-1026 | a peer reads from the server's SETTINGS the table size, stream limit, window, frame size and list limit that are enforced |
| `WireFormats.ClientFlags` | src/h2.c:53-60 | END_STREAM 0x1, END_HEADERS 0x4, PADDED 0x8 and PRIORITY 0x20 |
| `WireFormats.PaddedData` | src/h2.c:650-659 | the data of a padded DATA frame is what lies between pad length and padding |
| `WireFormats.PaddedHeaders` | src/h2.c:566-576 | the fragment of a HEADERS frame is what lies between pad length and priority fields and the padding |
| `H2Grammar.ResponseGrammar` | src/h2.c:897-993 | in every run each stream shows HEADERS, CONTINUATION*, DATA* with the field block of its response, a prefix of its body and END_STREAM only at its end, and nothing interrupts a header block |
| `H2Response.FieldBlockCarries` | src/h2.c:876-910 | the field block of every response decodes from any table, leaves it alone, and gives the status in decimal and every header in order: the same value, and the name with its octets 65 to 90 raised by 32 and no other changed |
| `H2Response.ResponseReceived` | src/h2.c:897-993 | in every run a peer reads from the header block of a stream the status and headers the application gave, from DATA a prefix of its body, and from an ended stream all of it, or none exactly for HEAD, 1xx, 204, 304 and empty bodies |
| `H2History.HistoryGrows` | src/h2.c:805-993 | whatever is done to a connection, its history is only added to |
| `H2History.FrameAdds` | src/h2.c:831-862 | no DATA is sent in answer to a frame: bodies leave in a pump only |
| `H2History.EndIsFinal` | src/h2.c:291-305 | a response that ended, or a stream that was reset, stays so under every further action |
| `H2Order.StreamTable` | src/h2.c:271-305 | in every run ids are odd, unique and bounded, the table counts its streams within the limits, none is opened after GOAWAY, each is dispatched once and after END_STREAM, and reassembly belongs to a live stream |
| `H2Rules.RulesApplied` | src/h2.c:442-862 | for every frame in every state of the invariant the outcome is that of a table of rules taken from RFC 9113 and the limits: nothing, RST_STREAM with a code and the slot freed, or connection error with GOAWAY and a code; and exactly the resets of unanswered streams are counted |
| `H2Rules.RunRules` | src/h2.c:805-868 | the same for the octets of one more frame after any run |
| `H2Replies.AsksAreAnswered` | src/h2.c:692-751 | in every run without connection error the PING frames are echoed once each, in order and with their octets, and every SETTINGS is acknowledged once |
| `H2Credit.SendCredit` | src/h2.c:712-777 | in every run without connection error the send windows are those of the wire and stay in 31 bits, no DATA frame exceeds a window or the peer's frame size; in every run none exceeds the output budget |
| `H2Pump.PumpExhausts` | src/h2.c:952-992 | after a pump, in every run without connection error, each stream with unsent body has its own window or the connection's at 0 or below, or the output buffer has no room beyond a frame header |
| `H2Pump.ChunksAreFull` | src/h2.c:958-983 | in every run without connection error each DATA frame is as long as the least of the rest of the body, both windows, the peer's frame size and the room left |
| `H2Receive.ReceiveCredit` | src/h2.c:313-328 | in every run without connection error the receive windows are those of the wire and lie in 49152..65535, so no frame within the advertised size meets a flow-control check |
| `H2Bodies.RequestBodies` | src/h2.c:650-673 | in every run each request is handed over with exactly the unpadded payloads of its DATA frames, within the body limit |
| `H2Silence.SilentAfterReset` | src/h2.c:676-690 | in every run nothing is sent on a stream after the client reset it, unless the last frame received is a reset inside a header block; that has broken the connection, and then frames are sent on its own stream only |
| `H2Silence.SilentUntilPumped` | src/h2.c:841-845 | whatever frame breaks the connection, nothing is sent on a reset stream until the next pump |
| `H2Interrupted.OnePump` | src/h2.c:952-992 | in every run, a pump right after a reset sends on its stream if and only if the stream has its slot and, at its turn, the windows, the frame size and the output budget leave room for some of its body |
| `H2Interrupted.SentAfterReset` | src/h2.c:841-845 | a run from the start of a connection, one feed and one pump, in which DATA is sent on a stream after its reset |
| `H2Blocks.BlocksReachTheDecoder` | src/h2.c:442-460 | in every run without connection error the decoder has had exactly the complete header blocks of the wire, refused streams included, in order and reassembled |
| `H2Fields.ListsCollected` | src/h2.c:357-393 | the callback accepts a header list, whatever its values but for "te", if and only if its names are those of a well-formed list in a proper order and it is within the limits, and then holds its pseudo-header fields by name and the others in order |
| `H2Fields.ConformanceExact` | src/h2.c:357-393 | every list within the limits that conforms to sections 8.2.1, 8.2.2 and 8.3 of RFC 9113 is accepted; acceptance and conformance coincide on a list if and only if it is refused or all its values conform |
| `H2Fields.ValueUnread` | src/h2.c:367-393 | a field "x" is accepted with any value there is room for, conforming or not |
| `H2Values.ValueDispatched` | src/h2.c:442-530 | a run from the start of a connection in which a request is dispatched whatever the octets of a field value, though the list conforms only if the value does |
| `H2Fields.AcceptsPrefixes` | src/h2.c:350-393 | called field by field it stops nowhere if and only if the whole list is acceptable |
| `H2Fields.RequestsJudged` | src/h2.c:488-525 | an acceptable list is taken for a request if and only if it has scheme, a method that is a token and a path that decodes as a target, both read as far as the first NUL; HEAD is told by the method so read |
| `H2Fields.LowerTokenOk` | src/http_util.c:194-202 | true exactly on tokens without upper-case letters |
| `H2Fields.TokenOk` | src/http_util.c:187-192 | true exactly on tokens |
| `H2Fields.Context.Add` | src/http_util.c:96-137 | a header is appended under the count, size and list limits, or nothing changes |
| `H2Fields.Context.Emit` | src/h2.c:357-393 | one call of the callback is one step of the collection that `ListsCollected` characterises |
| `H2Fields.Context.Complete` | src/h2.c:488-503 | the checks on a collected request, in order |
| `H2Sync.ConnectionInSync` | src/h2.c:442-486 | with the HPACK decoder and the server's field checks behind the connection and a conforming encoder as client, in every run: the tables agreed after each of the blocks received, refused streams included, if and only if for every block evicting from the table after the lines read and the fields the unread lines enter gives that table back; while they agree the next block is judged by the fields it means and never a connection error |
| `H2Sync.SyncExact` | src/hpack.c:449-452 | the same equivalence for any series of blocks and any callback |
| `H2Sync.AcceptableRead` | src/h2.c:447-449 | a conforming block is read to its end if and only if its fields are acceptable |
| `H2Sync.AcceptableRestores` | src/h2.c:447-449 | a block with acceptable fields leaves the tables in agreement |
| `H2Sync.ConnectionLost` | src/h2.c:464-474 | a run from the start of a connection in which two blocks of a conforming encoder end in GOAWAY with COMPRESSION_ERROR |
| `H2Cuts.CutsAgree` | src/h2.c:805-868 | every cut of an input into two feeds leads where one feed leads, if and only if no PING or SETTINGS frame exceeds its limit in one feed or the first that does is refused anyway: out of sequence, with the output buffer full, or as SETTINGS in error that change nothing after GOAWAY |
| `H2Cuts.FeedCut` | src/h2.c:805-868 | for such an input feeding a + b is feeding a and then b on what was kept |
| `H2Cuts.ActionsCut` | src/h2.c:805-868 | the same for two calls of the event loop |
| `H2Cuts.PingLimitIsPerFeed` | src/h2.c:740-751 | 129 PING frames are an error in one feed and none in two |
| `H2Cuts.SettingsLimitIsPerFeed` | src/h2.c:692-705 | 65 SETTINGS frames are an error in one feed and none in two |
| `H2Connection.Connection.constructor` | src/h2.c:999-1028 | a fresh connection whose first frame is SETTINGS |
| `H2Connection.Connection.Frame` | src/h2.c:210-222 | appends the octets of a frame to the output buffer |
| `H2Connection.Connection.GoAway` | src/h2.c:240-247 | GOAWAY once |
| `H2Connection.Connection.Fail` | src/h2.c:250-254 | connection error |
| `H2Connection.Connection.FindIndex` | src/h2.c:260-268 | the slot of a stream |
| `H2Connection.Connection.StreamNew` | src/h2.c:271-288 | a stream with the initial windows joins the table |
| `H2Connection.Connection.StreamClose` | src/h2.c:291-298 | the slot is freed and the last stream moves into it |
| `H2Connection.Connection.ResetStream` | src/h2.c:301-305 | RST_STREAM and the slot freed |
| `H2Connection.Connection.RecvConsume` | src/h2.c:313-328 | accounting and replenishing of both receive windows |
| `H2Connection.EncodeResponse` | src/h2.c:876-910 | the octets are the field block whose meaning is `H2Response.FieldBlockCarries` |
| `H2Connection.Connection.SendFieldBlock` | src/h2.c:916-936 | the fragmentation loop |
| `H2Connection.Connection.Reply` | src/h2.c:897-950 | headers sent and body queued, once |
| `H2Connection.Connection.Handle` | src/h2.c:412-438 | a request is handed over once and a stream without body reaped |
| `H2Connection.Connection.FinishBlock` | src/h2.c:442-530 | what a complete header block leads to |
| `H2Connection.Connection.Gather` | src/h2.c:538-552 | a fragment is appended under the cap |
| `H2Connection.Connection.HandleHeaders` | src/h2.c:558-620 | HEADERS: admission, refusal, trailers, errors |
| `H2Connection.Connection.HandleContinuation` | src/h2.c:622-628 | CONTINUATION within its limit |
| `H2Connection.Connection.HandleData` | src/h2.c:630-674 | DATA: windows, padding, body cap, end of request |
| `H2Connection.Connection.HandleRstStream` | src/h2.c:676-690 | RST_STREAM and the rapid-reset guard |
| `H2Connection.Connection.RetargetAll` | src/h2.c:715-721 | the loop that moves every send window |
| `H2Connection.Connection.HandleSettings` | src/h2.c:692-738 | SETTINGS, parameter by parameter |
| `H2Connection.Connection.HandlePing` | src/h2.c:740-751 | PING answered within its limits |
| `H2Connection.Connection.HandleWindowUpdate` | src/h2.c:753-777 | WINDOW_UPDATE for the connection or a stream |
| `H2Connection.Connection.HandleGoaway` | src/h2.c:779-783 | GOAWAY from the client |
| `H2Connection.Connection.HandleFrame` | src/h2.c:831-862 | sequencing of frames and dispatch to the handlers |
| `H2Connection.Connection.TakePreface` | src/h2.c:791-803 | the client preface, in any pieces |
| `H2Connection.Connection.FeedInput` | src/h2.c:805-868 | the feed loop, what it leaves unread and what it returns |
| `H2Connection.Connection.PumpOne` | src/h2.c:958-986 | DATA frames of one stream up to its limits, which `H2Pump.PumpExhausts` and `H2Pump.ChunksAreFull` state |
| `H2Connection.Connection.PumpAll` | src/h2.c:952-992 | every stream's turn, finished ones reaped |
| `H2Connection.Connection.WindDown` | src/h2.c:1037-1041 | graceful shutdown |
| `H2Connection.Serve` | src/h2.c:805-1041 | any sequence of feed, pump, graceful and drain calls on the object is the run the theorems speak of, and the buffer holds the octets of its frames |
| `RingProtocol.Linearisable` | src/ring.c:80-148 | in every interleaving, with loads of the other cursor as stale as coherence allows, octets received are a prefix of octets sent, at most capacity - 1 are in flight, and the slots being filled are disjoint from those being emptied |
| `RingProtocol.CopiesAreOrdered` | src/ring.c:9-15 | every octet copied out was published by the head value loaded and is the right one, every slot overwritten was released by the tail value loaded |
| `RingProtocol.LatestLoads` | src/ring.c:80-92 | with current cursors the two queries give exactly what is in flight and what is free |
| `RingBuffer.Ring.AvailableRead` | src/ring.c:80-84 | the number of octets held |
| `RingBuffer.Ring.AvailableWrite` | src/ring.c:88-92 | the number of octets that still fit |
| `RingBuffer.Ring.Write` | src/ring.c:94-120 | appends as much as fits, across the wrap |
| `RingBuffer.Ring.Read` | src/ring.c:122-148 | takes from the front what there is, across the wrap |
| `WsFrame.MaskTwice` | src/ws.c:343-347 | unmasking what was masked with a key gives it back |
| `WsFrame.ParseStable` | src/ws.c:297-341 | once there is a verdict on a frame, later octets do not change it |
| `WsFrame.FrameRoundTrip` | src/ws.c:203-252 | every frame a conforming peer writes is read back, for both roles, all three length forms and whatever follows |
| `WireFormats.WsLayout` | src/ws.c:203-252 | section 5.2 of RFC 6455: FIN and opcode, mask bit, the three length forms, the key and the payload under it |
| `WireFormats.MaskedBits` | src/ws.c:343-347 | each bit of octet i is added modulo 2 to that of octet i modulo 4 of the key |
| `WireFormats.HelloFrame` | src/ws.c:203-252 | the unmasked text frame of section 5.7 |
| `WsFrame.CutFrame` | src/ws.c:297-341 | a frame cut short asks for more octets |
| `WsDelivery.DeliveryIndependence` | src/ws.c:297-443 | for every list of messages within the cap, however fragmented, interleaved with Ping and Pong, masked and split into reads, the session returns exactly those messages and answers each Ping with its payload |
| `WsPeers.PeerReceives` | src/ws.c:945-960 | end to end: for every run of a session the octets of the frames before its Close, in any pieces, make a session of the other role return exactly the messages whose sending succeeded, in order and with their kinds, and answer every Ping |
| `WsPeers.RunSends` | src/ws.c:945-1004 | in every run the frames sent conform, and the data frames mean the messages whose sending succeeded: opcode 1 for text, 2 for binary |
| `WsPeers.WireOfLog` | src/ws.c:203-252 | what the object has written is the wire of those frames |
| `WsRules.OffencesRefused` | src/ws.c:297-443 | a step fails if and only if its input offends, and then one Close with 1002, 1007 or 1009, as the offence is, is sent unless a Close was, and the session has failed |
| `WsRules.CloseHandshake` | src/ws.c:1006-1046 | a Close reaches the peer with its code and reason and is answered with the code, which ends the session that began; a code outside 1000-1003, 1007-1014 and 3000-4999 makes the peer fail with 1002 |
| `WsSafety.CloseSafety` | src/ws.c:945-1046 | over every run of calls on any input at most one Close is sent and only Pongs follow it, messages are within the cap in force and text is UTF-8, and nothing is interpreted after a received Close or a failure |
| `WsConnection.Ws.SendFrame` | src/ws.c:203-252 | appends the frame, masked in chunks by a client |
| `WsConnection.Ws.ProtocolFail` | src/ws.c:255-263 | Close once and the session failed |
| `WsConnection.Ws.UnmaskAt` | src/ws.c:343-347 | the payload is unmasked in place, once |
| `WsConnection.Ws.NextFrame` | src/ws.c:297-347 | header checks in the order of the code |
| `WsConnection.Ws.TakeClose` | src/ws.c:360-393 | a received Close: its code, reason and echo |
| `WsConnection.Ws.PumpInput` | src/ws.c:297-443 | the parse loop, until a message, the end or a wait |
| `WsConnection.Ws.SendMessageCall` | src/ws.c:945-960 | a message is sent as one frame unless the session is closing or the text invalid; `WsPeers.PeerReceives` says what the peer makes of it |
| `WsConnection.Ws.PingCall` | src/ws.c:998-1004 | a Ping of at most 125 octets |
| `WsConnection.Ws.RecvCall` | src/ws.c:967-996 | pump and read until a message, the end or the deadline |
| `WsConnection.Ws.CloseCall` | src/ws.c:1006-1046 | the closing handshake, stray messages discarded |
| `WsConnection.Ws.SetMaxMessage` | src/ws.c:1052-1054 | the message cap, a zero ignored |
| `H1Body.RunKeepsCap` | src/h1.c:503-508 | the body and what is still promised of it never exceed the limit |
| `H1Body.CutIndependence` | src/h1.c:473-545 | an input is treated the same under every cut, up to the status of a refusal, if and only if it is refused in one piece or accepts no size line of 4096 octets |
| `H1Body.VerdictIndependence` | src/h1.c:473-545 | the verdict with its status is the same under every cut if and only if no size line of 4096 octets is accepted, unless the input is refused with 400, and the line refused is neither a size line of 4096 octets over the body limit nor an over-long trailer line ending in a bare LF |
| `H1Body.PiecesAgree` | src/h1.c:461-545 | without such a line any number of pieces gives the outcome of one, up to the status of a refusal |
| `H1Codec.ChunkedRoundTrip` | src/h1.c:473-545 | chunks in any spelling, with extensions and trailers, and any cut: the body is their concatenation and exactly the encoding is consumed |
| `H1Codec.OnlyEncodings` | src/h1.c:473-545 | conversely an input on which the chunked body completes is an encoding of the body handed on, within the limits, followed by what was not consumed |
| `H1Codec.LengthRoundTrip` | src/h1.c:461-471 | the same for a body of stated length |
| `H1Codec.CanonicalChunk` | src/h1.c:486-500 | the usual hexadecimal spelling is among those covered |
| `H1Codec.UsualEncoding` | src/h1.c:473-545 | size in hexadecimal, CR LF, data, CR LF, "0", CR LF, CR LF, octet by octet, is read as the data |
| `H1Codec.SizeLines` | src/h1.c:486-500 | after the digits of a size only a semicolon may come, and there is at least one digit |
| `H1Reader.BoundaryInput` | src/h1.c:479-483 | an input accepted in one piece and refused in two |
| `H1Reader.ParseSize` | src/h1.c:486-500 | hexadecimal size within 64 bits followed by nothing or an extension, refused before it overflows |
| `H1Reader.ContentLength` | src/h1.c:337-357 | accepted if and only if there is one occurrence, of digits only, within the body limit and the guard's bound; digits that are too large are a 413 |
| `H1Reader.FindLine` | src/h1.c:140-152 | the first line, a bare LF, or none yet |
| `H1Reader.Reader.Feed` | src/h1.c:461-545 | the resumable loop computes the run the theorems speak of |
| `Buffer.Grown` | src/http_util.c:17-25 | the next capacity holds what is needed without overflow |
| `Buffer.Buf.Reserve` | src/http_util.c:17-31 | room is made and contents kept, or the size would overflow |
| `Buffer.Buf.Append` | src/http_util.c:33-40 | contents grow by the octets appended |
| `Buffer.Buf.Consume` | src/http_util.c:50-62 | octets leave the front and the dead prefix stays small |
| `Buffer.Buf.Clear` | src/http_util.c:64 | nothing is left |
| `Utf8.AcceptsWellFormed` | src/http_util.c:215-245 | the automaton ends in ACCEPT exactly on the strings of the grammar in section 4 of RFC 3629 |
| `Utf8.RejectAbsorbs` | src/http_util.c:233-245 | REJECT is final |
| `Utf8.RunPieces` | src/http_util.c:233-235 | validating in pieces agrees with validating the whole |
| `Utf8.Validate` | src/http_util.c:237-245 | true exactly on well-formed strings |
| `Path.RemoveDotSegments` | src/http_util.c:285-316 | the in-place normaliser equals the fold over segments with a stack |
| `Path.FailsAboveRoot` | src/http_util.c:297-301 | it fails exactly when some prefix of the path has more ".." than ordinary segments |
| `Path.NormalisedIsClean` | src/http_util.c:285-316 | the result is rooted, without dot segments and no longer than the input |
| `Path.Idempotent` | src/http_util.c:285-316 | normalising again changes nothing |
| `DotSegments.DotsAreMerge` | src/http_util.c:282-316 | the algorithm of section 5.2.4 of RFC 3986 on octets is a merge of segments that drops ".." on an empty stack and ends in an empty segment after a final dot segment |
| `DotSegments.AgainstRfc` | src/http_util.c:285-316 | a path the code normalises comes out as in section 5.2.4, except for one slash after a final dot segment below the root |
| `DotSegments.AgreesWithRfc` | src/http_util.c:285-316 | the code computes section 5.2.4 if and only if no prefix of the path climbs above the root and the path does not end in a dot segment below it |
| `DotSegments.FinalDot` | src/http_util.c:297-312 | "/a/." becomes "/a" here and "/a/" in section 5.2.4 |
| `Target.PercentDecode` | src/http_util.c:261-280 | the decoding loop |
| `Target.SpellingDecodes` | src/http_util.c:261-280 | whatever octets are escaped, decoding gives the string back if and only if it holds no control octet |
| `Target.HexDigits` | src/http_util.c:251-256 | the hexadecimal digits in either case and nothing else |
| `Target.ReadTarget` | src/http_util.c:318-368 | splitting, decoding, normalising and query check in order |
| `Target.QueryKept` | src/http_util.c:333-364 | the first "?" ends the path and what follows it is the query, unchanged; without one there is none; a query with a control octet other than tab is refused |
| `Target.TargetIsSafe` | src/http_util.c:318-368 | the path handed on is "*" or rooted, printable, free of dot segments however they were escaped, and no longer than the target |
| `Sha256.Hasher.Update` | src/crypto.c:67-82 | octets are absorbed in blocks of 64 and their bits counted modulo 2^64 |
| `Sha256.Hasher.PadToLength` | src/crypto.c:84-90 | the padding loop ends, with the only number of zeros that leaves room for the length |
| `Sha256.Hasher.Final` | src/crypto.c:84-103 | the digest of the padded message |
| `Sha256.PaddedIsWhole` | src/crypto.c:84-97 | the padding of section 5.1.1 of FIPS 180-4 is whole blocks and unique |
| `Sha256.HashPieces` | src/crypto.c:58-103 | however a message is cut into updates, the digest is that of the whole message padded |
| `Sha256.InitialIsRoots` | src/crypto.c:58-65 | the initial words are the first 32 bits of the fractions of the square roots of the first eight primes |
| `Sha256.DigestSays` | src/crypto.c:96-101 | the digest is the eight words in order, most significant octet first |
| `Sha256.PaddingSays` | src/crypto.c:84-95 | the message, 0x80, zeros, and the length in bits in eight octets |
| `Serial.Packer.WriteBit` | src/serial.c:178-182 | one more bit of the packing |
| `Serial.Packer.WriteByte` | src/serial.c:155-163 | eight more bits, aligned or not |
| `Serial.Packer.ReadBit` | src/serial.c:184-192 | the next bit of the buffer |
| `Serial.Packer.ReadByte` | src/serial.c:165-176 | the next eight bits, aligned or not |
| `Serial.Packer.WriteBits` | src/serial.c:217-220 | the bits in order |
| `Serial.Packer.ReadBits` | src/serial.c:222-225 | the bits in order |
| `Serial.Packer.Synchronize` | src/serial.c:365-371 | zero bits up to the octet boundary |
| `Serial.RoundTrip` | src/serial.c:155-192 | any sequence of bit and octet writes that fits is stored as its packing with zero padding, and the same reads return it |
| `Serial.BitOrder` | src/serial.c:178-192 | bit k of the packing is the bit worth 2^k of its octet |

## Left out

- `H2Connection.Connection.FinishBlock`: the object takes the verdict on a header block as a parameter, a function of the blocks decoded before it; `H2Fields` and `H2Sync` say what that function is in the source, and the run theorems hold for every one.
- The application, which answers a stream id with a response, is a parameter of the connection.
- Stream records and buffers of the HTTP/2 connection are values in a sequence; aliasing between stream pointers is not modelled.
- `RingBuffer.Ring.Write`: the non-blocking mode only; a blocking call waits for the other thread, which `RingProtocol` models as steps.
- `WsConnection.Ws.SendFrame`: writes to the transport succeed and masking keys are a parameter; a failing write would end the call early.
- `Sha256.Hasher.Final`: the compression function is a parameter and its rounds are not modelled.
- The HTTP/1.1 request line and header section, keep-alive and dispatch (src/h1.c:262-455, 552-600).
- Stream and count modes of the serializer, its scalars and strings: thin layers over the bit packer.
- The WebSocket opening handshake and its SHA-1 and Base64 (src/ws.c:80-175, 474-940).
- src/h3.c, src/http.c, src/http_server.c, sockets, TLS, archives, Ed25519: bound to other libraries, the operating system or clocks.
- Allocation failure, error texts and timeouts; counters are unbounded, which `H2Order.StreamTable` justifies for those of a connection.
