# mrpc: a verified model

mrpc is a remote procedure call library on cooperative fibers. This project models its three parts with the most
state in them and proves what the code relies on.

* **The multiplexing pipeline.** `Varint` (integers on the wire), `Packet` (bounded packets and their frames),
  `Segments` and `PacketStream` (cutting bytes into packets and putting them together again), `Demux` (any number of
  request streams through one writer queue and one wire), `TwoWay` (the way back, and when a request id may be taken
  again), `ServerProtocol` (the fibers of one server stream processor from start to stop), `Bitmap` and `ClientStreams`
  (request ids).
* **Consistent hashing.** `Ring` (a plain sorted list of points), `ConsistentHash` (the same as an array of linked
  lists, spliced in place) and `Registry` (the distributed client: dictionary, ring, wrapper pool and reference
  counts across blocking stops).
* **The interface compiler's front end.** `Lexer` and `Parser`.

Objects the code updates in place are classes with loops and invariants; each method is tied to a function of values
whose properties are lemmas. The protocols are transition systems: a step is what one fiber does between two calls
that may block, and a run is any sequence of enabled steps.

## What is assumed

* Fibers are cooperative: nothing else runs between two blocking calls. The code takes no locks and needs this.
* A blocking queue is a bounded sequence, an event a flag, a pool a set of owned objects, a byte stream a sequence.
* The hash function is a parameter, an arbitrary function. Characters are classified as in the C locale.
* A failed `ff_assert`, or a wait that the code's comments rule out, is recorded in a flag (`ok`) that the protocols
  prove is never cleared; `die` in the parser is the answer `None`. The two assertions of a lookup in the registry have a
  flag of their own, `gap`, because they can fail.
* Handlers use their streams as the assertions of the packet stream ask them to: they write before they flush, and do
  neither after a flush. The protocols have no steps for a handler that does otherwise.

## What came out false, and when it holds

* **Stopping the server does not always bring every packet back.** `stop_all_request_streams` finds a stream in its
  slot, may then wait for a packet to disconnect it with, and enqueues that packet even if the stream was released
  meanwhile. `ServerProtocol.StoppedIsClean` proves that all packets return if and only if this did not happen, and
  `ServerProtocol.LateReleaseHappens` gives a run to STOPPED in which it does.
* **Flushing a response can wait.** A comment of the server wants the flush, the last thing a handler does before its
  stream is released, never to wait, and argues from the size of the writer queue. The put indeed never waits
  (`ServerProtocol.NoAssertionFails`), but the flush then acquires one more packet. `ServerProtocol.FlushThenNextRequest`
  proves that it can go on if and only if the pool is not empty, that the next request with the same id is then accepted
  as the comment wants, and that with an empty pool it ends the connection; `ServerProtocol.FlushMayWait` gives a run.
* **The server can come to a standstill.** A handler that hands over a packet of its response waits for another one, and
  all packets may have been pushed to streams whose handlers wait in this way. `ServerProtocol.StandstillExactly` proves
  that nothing but this, and a completed stop, leaves no fiber a step to take; `ServerProtocol.StandstillHappens` gives a
  run in which one request with many packets does it.
* **A client stream can be given the response to another request.** The client hands a packet to whatever stream has its
  id now. `TwoWay.IdMayBeTaken` proves, for every reachable state, that a stream created with a free id is only ever
  given packets of its own session if and only if no packet with that id is still to come, and
  `TwoWay.StaleResponseHappens` gives a run in which a stream is deleted too early.
* **A lookup can fail on a ring that is not empty.** `mrpc_consistent_hash_get_entry` visits each bucket once, so it
  misses smaller keys in the bucket it starts from. `ConsistentHash.LookupGap` gives the exact condition,
  `ConsistentHash.LookupFails` an input, `Registry.GapHappens` a run.
* **Removing a client can leave its entries behind.** Removal goes by point and pops whatever was added last.
  `Registry.AgreementExactly` proves that in a run the ring refers only to registered clients if and only if no client
  was removed while one added later, and still registered, shared a point with it; clients with distinct points are the
  simplest case. `Registry.CollisionsLeaveStaleClients` is the smallest run that shows it.
* **Identifiers are not those of the documentation**, `[a-z][a-z_\d]*`. `Parser.DocumentedIsAccepted` proves that of the
  files the documentation allows exactly those are accepted whose identifiers have at most 99 characters, and
  `Parser.AcceptedIsDocumented` that of the accepted files exactly those are allowed whose identifiers are documented
  ones; `Parser.UpperCaseIsAccepted` and `Parser.LongNameIsRefused` are inputs for both. The words of the grammar are not
  reserved: they can be names.

## Model

| member | source | states |
|---|---|---|
| `Varint.Serialize64` | src/mrpc_int.c:15-41 | The loop writes exactly the encoding of the value, and fails only when the stream does, writing nothing. |
| `Varint.Unserialize64` | src/mrpc_int.c:43-74 | The loop succeeds exactly when the decoding of the input does, returns its value and leaves exactly its rest unread; in any case it takes at most ten octets. |
| `Varint.RoundTrip` | src/mrpc_int.c:15-74 | Decoding the encoding of any 64-bit value, followed by anything, gives back the value and leaves what follows untouched. |
| `Varint.EncodedLength` | src/mrpc_int.c:22-33 | An encoding has n octets if and only if the value needs n groups of seven bits. |
| `Varint.DecodeMeaning` | src/mrpc_int.c:50-67 | On arbitrary input: decoding succeeds exactly if one of the first ten octets lacks the continuation flag; its value is the sum of the weighted groups modulo 2^64, and it consumes exactly the octets up to that one. |
| `Varint.OrAccumulates` | src/mrpc_int.c:64 | OR-ing the group, shifted left by 7k bits in 64-bit words, to the k groups read so far adds it at its weight modulo 2^64. |
| `Arithmetic.OrIsSum` | src/mrpc_int.c:64 | Bitwise OR of a number below 2^n and a multiple of 2^n is their sum. |
| `Varint.ZigZag32Meaning` | src/mrpc_int.c:192 | ZigZag sends m to 2m and -m-1 to 2m+1. |
| `Varint.ZigZag64Meaning` | src/mrpc_int.c:96 | The same for 64 bits. |
| `Varint.ZigZag32RoundTrip` | src/mrpc_int.c:184-220 | Undoing ZigZag gives back every signed 32-bit word. |
| `Varint.UnZigZag32RoundTrip` | src/mrpc_int.c:184-220 | ZigZag is onto: every 32-bit word is the encoding of the word it decodes to. |
| `Varint.ZigZag64RoundTrip` | src/mrpc_int.c:88-124 | Undoing ZigZag gives back every signed 64-bit word. |
| `Varint.UnZigZag64RoundTrip` | src/mrpc_int.c:88-124 | ZigZag is onto on 64-bit words. |
| `Varint.SignedRoundTrip64` | src/mrpc_int.c:88-124 | A signed 64-bit integer written and read back is itself, whatever follows on the stream. |
| `Varint.SignedRoundTrip32` | src/mrpc_int.c:138-220 | The same for 32 bits, through the reader that refuses values above 2^32 - 1. |
| `Packet.PacketBuffer.constructor` | src/mrpc_packet.c:23-35 | A new packet is empty, of type START, with request id 0. |
| `Packet.PacketBuffer.Reset` | src/mrpc_packet.c:46-52 | A reset packet is like a new one. |
| `Packet.PacketBuffer.ReadData` | src/mrpc_packet.c:74-90 | Takes min(len, unread) bytes from the front of the unread ones. |
| `Packet.PacketBuffer.WriteData` | src/mrpc_packet.c:92-108 | Appends the longest prefix of the bytes that fits; if some are left the packet is full. |
| `Packet.PacketBuffer.ReadFromStream` | src/mrpc_packet.c:110-149 | Succeeds exactly on a well-formed frame of at most 4095 bytes, takes over its id, type and bytes, and leaves the rest of the stream unread. |
| `Packet.PacketBuffer.WriteToStream` | src/mrpc_packet.c:151-180 | Writes exactly the frame of the packet. |
| `Packet.FrameRoundTrip` | src/mrpc_packet.c:110-180 | A frame read back is the frame written, and what follows it is left unread. |
| `Packet.FramesRoundTrip` | src/mrpc_packet.c:110-180 | Reading back the concatenated frames of any list of packets gives the list, with nothing left over. |
| `Packet.HeaderIsShort` | src/mrpc_packet.c:7-12 | Every header takes at most three bytes. |
| `Packet.FrameOnWire` | src/mrpc_packet.c:151-180 | The octets of every frame: the id; four times the size plus 0, 1, 2 or 3 for START, MIDDLE, END and SINGLE, in one or two octets, low seven bits first; the payload. |
| `Packet.FrameMeaning` | src/mrpc_packet.c:110-149 | Any input, whoever sent it: it is accepted exactly if an integer below 2^32 follows the first octet within ten octets, its upper bits are a size of at most 4095 and as many octets follow; the frame has that id, the type numbered by the two lowest bits, and those octets. |
| `Packet.DecodedIsWellSized` | src/mrpc_packet.c:130-141 | Whatever a peer sends, an accepted frame has at most 4095 bytes and consumes header and body. |
| `Segments.Segmentation` | src/mrpc_packet_stream.c:279-344 | Writing and flushing n bytes emits max(1, ceil(n / 4095)) packets, all but the last full, typed SINGLE or START MIDDLE* END, that carry exactly those bytes. |
| `Segments.CanonicalIsUnique` | src/mrpc_packet_stream.c:279-344 | There is only one such packet sequence for given bytes, so it does not depend on how the writes were split. |
| `Segments.DrainExact` | src/mrpc_packet_stream.c:227-276 | On a terminated sequence one read succeeds exactly when enough bytes remain, and returns the next ones in order. |
| `Segments.DrainConserves` | src/mrpc_packet_stream.c:227-276 | What a read returned and what is left is what was there, whether it succeeded or failed. |
| `Segments.DrainAny` | src/mrpc_packet_stream.c:226-276 | A read of any queue: it succeeds exactly if the packets up to one that closes the sequence, and before one that opens another, hold enough, and returns their bytes in order; a failing read has taken exactly those packets, and drops the opening packet that stopped it. |
| `Segments.FirstRead` | src/mrpc_packet_stream.c:46-78 | The first read of a stream fails without a packet, drops a first packet that does not open a sequence, and otherwise reads from it. |
| `Segments.ClosedPush` | src/mrpc_packet_stream.c:237-260 | A packet pushed to a closed sequence adds nothing that can be read. |
| `Segments.ClosedRead` | src/mrpc_packet_stream.c:199-277 | Reads of a closed sequence take its bytes in order, and it stays closed. |
| `Segments.ReadManyExact` | src/mrpc_packet_stream.c:199-277 | Any partition of reads succeeds exactly when the total does not exceed what remains, and returns it piece by piece. |
| `Segments.WriteThenRead` | src/mrpc_packet_stream.c:199-344 | Bytes written in any pieces and flushed are read back in any pieces, in order; more than was written cannot be read. |
| `PacketStream.Stream.Write` | src/mrpc_packet_stream.c:279-319 | After any write the packets handed over and the current packet are those determined by all bytes written so far. |
| `PacketStream.Stream.WriteAll` | src/mrpc_packet_stream.c:296-315 | The loop of a write. |
| `PacketStream.Stream.WritePart` | src/mrpc_packet_stream.c:304-314 | One round of it: the packet is filled and replaced only if bytes are left. |
| `PacketStream.Stream.Flush` | src/mrpc_packet_stream.c:321-344 | The packets handed over since initialization are exactly the segmentation of the bytes written, and the stream cannot be written any more. |
| `PacketStream.Stream.Push` | src/mrpc_packet_stream.c:354-359 | Appends to the reader queue. |
| `PacketStream.Stream.Disconnect` | src/mrpc_packet_stream.c:346-352 | Appends an empty END packet to the reader queue. |
| `PacketStream.Stream.Read` | src/mrpc_packet_stream.c:199-277 | Returns what the specification of reading says, result, bytes and remaining stream alike; the packets released and those still held are together the packets that were there. |
| `PacketStream.Stream.ReadLoop` | src/mrpc_packet_stream.c:226-272 | The loop of a read. |
| `PacketStream.Stream.NextPacket` | src/mrpc_packet_stream.c:237-270 | Replaces an exhausted packet by the next one, or fails; the packets released and held are together those that were there. |
| `PacketStream.Stream.Initialize` | src/mrpc_packet_stream.c:179-186 | A stream that was shut down can be written and read from the start. |
| `PacketStream.Stream.Shutdown` | src/mrpc_packet_stream.c:188-197 | Releases exactly the packets the stream holds, and leaves it ready for initialization. |
| `PacketStream.Stream.ReleaseCurrentWrite` | src/mrpc_packet_stream.c:102-124 | Releases the packet being written, if there is one. |
| `PacketStream.Stream.ReleaseCurrentRead` | src/mrpc_packet_stream.c:80-94 | Releases the packet being read, if there is one. |
| `PacketStream.Stream.ClearReaderQueue` | src/mrpc_packet_stream.c:126-144 | Releases exactly the packets of the reader queue. |
| `Demux.Demultiplexing` | src/mrpc_server_stream_processor.c:442-488 | In every run of any number of client streams with ids unique while live: each server stream serves one client stream, no two the same, and has its id; the packets pushed to it are a prefix of the segmentation of the bytes the steps of the run wrote to that client stream, in order, and the bytes its handler has read a prefix of those bytes. |
| `Demux.Delivery` | src/mrpc_client_stream_processor.c:125-176 | When everything the steps wrote to a client stream and flushed has travelled and its server stream is active, what was read plus what is unread there is exactly what was written. |
| `Demux.SentIs` | src/mrpc_packet_stream.c:279-344 | In every run, client stream c has the id of the c-th creation, and has put into the queue the packets of the bytes that the writes to it carried, with the last one once it was flushed. |
| `Demux.Reception` | src/mrpc_server_stream_processor.c:458-488 | In every reachable state, the frame read next is the next packet queued; a continuing one goes to its sender's session as long as that is active, an opening one opens a session for its sender as long as its id is not in use, nothing else changes, and the reader stops in exactly the other cases. |
| `Demux.ActiveUntilFinished` | src/mrpc_server_stream_processor.c:287-306 | A session is active until it is finished, and never again. |
| `Demux.RequestArrives` | src/mrpc_server_stream_processor.c:442-488 | For any bytes, written in any pieces that fit a packet, and any lengths asked for within them, there is a run in which the handler gets exactly the bytes asked for. |
| `Demux.NothingAfterDisconnect` | src/mrpc_packet_stream.c:346-352 | Whatever a handler has read in the end had been pushed to its stream before the stream was disconnected. |
| `Demux.StepInv` | src/mrpc_server_stream_processor.c:442-488 | Every step of client, writer, server reader and handlers keeps the invariant. |
| `Demux.NextFrame` | src/mrpc_packet.c:110-180 | While the server reads, what it decodes next is the next packet of the writer queue. |
| `Demux.RightOwner` | src/mrpc_server_stream_processor.c:442-488 | A continuing packet belongs to the client stream that opened the session in its slot; an opening one to a client stream with no session yet. |
| `TwoWay.IdMayBeTaken` | src/mrpc_client_stream_processor.c:477-502 | In every reachable state and for every free id: a stream created with it is given packets of its own session only, whatever happens from then on, if and only if no packet with the id is on its way, no session with the id has still to flush, and no request on its way can still open one. |
| `TwoWay.TakenTooEarly` | src/mrpc_client_stream_processor.c:477-502 | If one is, there is a continuation in which the new stream is given a packet of a session that serves another. |
| `TwoWay.StaleResponseHappens` | src/mrpc_client_stream_processor.c:227-270 | A whole run in which that happens, from the start. |
| `TwoWay.ResponseDemultiplexing` | src/mrpc_client_stream_processor.c:477-502 | For a stream created when nothing with its id was to come, in every continuation: the packets pushed to it are a prefix of the segmentation of the bytes the steps made its session's handler write, and the bytes its caller has read a prefix of those bytes. |
| `TwoWay.ResponseDelivery` | src/mrpc_client_stream_processor.c:477-502 | When all of a flushed response has travelled, the packets pushed are exactly the segmentation of the bytes the steps made the handler write. |
| `TwoWay.AnswerIs` | src/mrpc_packet_stream.c:279-344 | In every run, what the handler of a session has sent are the packets of the bytes that its writes carried. |
| `TwoWay.RequestDirection` | src/mrpc_server_stream_processor.c:442-488 | The request direction of a two-way run is a run of `Demux`. |
| `TwoWay.ResponseReception` | src/mrpc_client_stream_processor.c:477-502 | In every reachable state, the packet the client reads next goes to the live stream with its id, and the reader stops exactly if there is none. |
| `TwoWay.CallCompletes` | src/mrpc_client_stream_processor.c:458-507 | For any bytes asked and answered, in any pieces that fit a packet, there is a run in which the handler reads any part of the request and the caller any part of the response. |
| `TwoWay.NothingAfterDisconnect` | src/mrpc_packet_stream.c:346-352 | Whatever a caller that has begun to read its response has read in the end had been pushed before its stream was disconnected. |
| `TwoWay.StepInv` | src/mrpc_server_stream_processor.c:121-185 | Every step of both directions keeps their joint invariant. |
| `TwoWay.FreshStep` | src/mrpc_client_stream_processor.c:477-502 | Whatever step is taken, what is still to come for a live stream stays its own. |
| `ServerProtocol.NoAssertionFails` | src/mrpc_server_stream_processor.c:98-498 | In every run whose handlers write before they flush and do neither after it: no assertion of the processor fails (stop_async is never called once stopped), no queue put and no acquisition of a request stream ever waits, and every packet has exactly one owner. |
| `ServerProtocol.StreamAccounting` | src/mrpc_server_stream_processor.c:264-306 | The count is the number of occupied slots, slot i holds a stream with id i, a pooled stream is left for every free slot, and until the stopper consumes it the stop event is set exactly at count zero. |
| `ServerProtocol.WriterGuarantees` | src/mrpc_server_stream_processor.c:121-185 | The NULL sentinel is the last item ever put into the writer queue; whenever the writer waits on an empty queue everything it wrote has been flushed. |
| `ServerProtocol.StoppedIsClean` | src/mrpc_server_stream_processor.c:489-498 | On reaching STOPPED, after a clean stop and after a failed write alike: no streams, empty writer queue, both fibers done; all packets are back in the pool if and only if no stream was released while the reader waited for a packet to disconnect it with. |
| `ServerProtocol.LateReleaseHappens` | src/mrpc_server_stream_processor.c:387-406 | There is a run to STOPPED in which that release happens and a packet is missing from the pool. |
| `ServerProtocol.FlushThenNextRequest` | src/mrpc_server_stream_processor.c:516-527 | In every reachable state, a flush can go on if and only if the pool is not empty; the handler can then return and the next opening frame with its id is accepted; with an empty pool the stream stays in its slot and that frame ends the reader's loop. |
| `ServerProtocol.FlushMayWait` | src/mrpc_server_stream_processor.c:516-527 | There is a run in which a handler that has flushed waits for a packet, its stream still in its slot. |
| `ServerProtocol.FrameDispatch` | src/mrpc_server_stream_processor.c:458-488 | In every reachable state, a continuing frame goes to the end of the reader queue of the stream in its slot, an opening one opens a stream in its free slot, the reader wants another packet and nothing else changes; any other frame is given back and ends the loop. |
| `ServerProtocol.ReaderSteps` | src/mrpc_server_stream_processor.c:387-498 | In every reachable state: the reader disconnects slot after slot, puts a packet of the pool at the end of each stream's reader queue, waits where there is none, waits for the last stream, puts the sentinel and waits for the writer. |
| `ServerProtocol.WriterSteps` | src/mrpc_server_stream_processor.c:98-185 | In every reachable state: the writer takes the first item, gives each packet back once written, flushes exactly when its queue is empty, ends at the sentinel, and after a failure initiates a stop and only gives packets back. |
| `ServerProtocol.HandlerSteps` | src/mrpc_packet_stream.c:199-344 | In every reachable state: a handler takes the first packet of its reader queue and gives back the one before, or the one it refuses; hands its packet to the end of the writer queue; and on return gives back all packets of its stream and frees its slot. |
| `ServerProtocol.StopInitiation` | src/mrpc_server_stream_processor.c:338-365 | In every reachable state a stop is initiated by exactly these: a frame that does not fit its slot, a failed read, write or flush, a failing handler, a request from outside. |
| `ServerProtocol.WrittenInOrder` | src/mrpc_server_stream_processor.c:121-152 | Packets are written in the order in which they were put into the writer queue, and what is in the queue is what was put last. |
| `ServerProtocol.RequestIsServed` | src/mrpc_server_stream_processor.c:338-498 | A run in which a request is read, its response written and flushed, and the processor stops with all packets in the pool. |
| `ServerProtocol.StandstillExactly` | src/mrpc_server_stream_processor.c:516-527 | In every reachable state no fiber can take a step if and only if the processor has stopped or is jammed: every packet that is not lost is held for reading by a stream whose handler waits for a packet. |
| `ServerProtocol.StandstillHappens` | src/mrpc_server_stream_processor.c:516-527 | A run to a jam in which nothing has failed and nobody has asked for a stop. |
| `ServerProtocol.StepInv` | src/mrpc_server_stream_processor.c:98-498 | Every step of every fiber keeps the whole invariant. |
| `ServerProtocol.StepConserves` | src/mrpc_server_stream_processor.c:64-96 | Every step keeps every packet in exactly one place. |
| `ServerProtocol.StepRoom` | src/mrpc_server_stream_processor.c:516-527 | Every step keeps the facts that leave room in the queues. |
| `Ring.AddThenRemove` | src/mrpc_consistent_hash.c:132-160 | Adding a client and removing it at once restores the list exactly, even where points collide. |
| `Ring.AllFoundIff` | src/mrpc_consistent_hash.c:66-67 | The assertions of a removal hold exactly when no point occurs less often than the client has it; the size then drops by one for each. |
| `Ring.RemovalPurges` | src/mrpc_consistent_hash.c:52-72 | After two clients were added and the first removed, none of its entries is left if and only if they have no point in common. |
| `Ring.StackInsertAll` | src/mrpc_consistent_hash.c:132-144 | At every key, adding a client pushes its value once for each of its points there. |
| `Ring.StackRemoveAll` | src/mrpc_consistent_hash.c:146-160 | At every key, removing a client pops once for each of its points there, whoever owns what is popped. |
| `Ring.StacksDetermine` | src/mrpc_consistent_hash.c:28-72 | Sorted lists with the same values at every key are the same list. |
| `Ring.NoAnswer` | src/mrpc_consistent_hash.c:162-198 | A lookup on the sorted list has no answer exactly when all entries lie in the bucket of the hash with smaller keys. |
| `Ring.AnswerIs` | src/mrpc_consistent_hash.c:162-198 | A lookup that has an answer gives the value of the one entry with the least key from the hash on, the front one of equal keys, or of the first entry if there is none. |
| `Ring.AddDisruption` | src/mrpc_consistent_hash.c:132-198 | After a client is added every lookup that had an answer keeps it or gets the new client. |
| `Ring.RemovalDisruption` | src/mrpc_consistent_hash.c:146-198 | After a client whose values are on top at all its points is removed, every lookup it did not answer is unchanged. |
| `ConsistentHash.AddRefines` | src/mrpc_consistent_hash.c:28-50 | Adding to the bucket of a key keeps every bucket sorted and its own, and adds to the concatenation of the buckets. |
| `ConsistentHash.RemoveRefines` | src/mrpc_consistent_hash.c:52-72 | Removing from the bucket of a key keeps every bucket sorted and its own, and removes from the concatenation; the key is in the bucket exactly if it is anywhere. |
| `ConsistentHash.FlatSorted` | src/mrpc_consistent_hash.c:28-72 | The concatenation of the buckets is sorted. |
| `ConsistentHash.FlatDetermines` | src/mrpc_consistent_hash.c:28-72 | Buckets with the same concatenation are the same buckets. |
| `ConsistentHash.AddThenRemoveRestores` | src/mrpc_consistent_hash.c:132-160 | Adding a client and removing it at once finds every point and restores every bucket exactly. |
| `ConsistentHash.LookupRefines` | src/mrpc_consistent_hash.c:162-198 | The scan over the buckets answers as the plain sorted list does: the first entry from the hash on, else the very first entry if it is in an earlier bucket. |
| `ConsistentHash.LookupGap` | src/mrpc_consistent_hash.c:176-197 | On a ring that is not empty the scan reaches the final assertion if and only if all entries lie in the bucket of the hash with smaller keys. |
| `ConsistentHash.LookupFails` | src/mrpc_consistent_hash.c:176-197 | An input: two buckets, one entry with key 0, and a request with hash 1. |
| `ConsistentHash.ConsistentHash.constructor` | src/mrpc_consistent_hash.c:74-92 | An empty hash with 2^order buckets. |
| `ConsistentHash.ConsistentHash.AddEntryWithKey` | src/mrpc_consistent_hash.c:28-50 | Splices one entry in: buckets stay sorted, the counter is the number of entries, and the whole list is the old one with the entry inserted. |
| `ConsistentHash.ConsistentHash.RemoveEntryWithKey` | src/mrpc_consistent_hash.c:52-72 | Unlinks the first entry with the key; the whole list is the old one without it. |
| `ConsistentHash.ConsistentHash.FindFrom` | src/mrpc_consistent_hash.c:37-42 | Stops at the first node whose key is not smaller. |
| `ConsistentHash.ConsistentHash.FindKey` | src/mrpc_consistent_hash.c:60-65 | Stops at the first node with the key. |
| `ConsistentHash.ConsistentHash.AddEntry` | src/mrpc_consistent_hash.c:132-144 | Inserts all points of a client. |
| `ConsistentHash.ConsistentHash.RemoveEntry` | src/mrpc_consistent_hash.c:146-160 | Removes all points of a client, under the condition its assertions demand. |
| `ConsistentHash.ConsistentHash.GetEntry` | src/mrpc_consistent_hash.c:162-198 | Returns the answer of the sorted list; the final assertion fails exactly when all entries lie in the bucket of the hash with smaller keys. |
| `ConsistentHash.ConsistentHash.Visit` | src/mrpc_consistent_hash.c:172-196 | The loop of the lookup over the buckets. |
| `ConsistentHash.ConsistentHash.RemoveAllEntries` | src/mrpc_consistent_hash.c:102-130 | Counts all entries off, the count ends at zero, and all buckets are empty. |
| `ConsistentHash.ConsistentHash.IsEmpty` | src/mrpc_consistent_hash.c:200-206 | True exactly if there is no entry. |
| `Registry.NoAssertionFails` | src/mrpc_distributed_client.c:96-199 | In every run without a bad removal no assertion of the registry or its wrappers fails, except those of a lookup that has no answer, and an add never waits for a free wrapper. |
| `Registry.Agreement` | src/mrpc_distributed_client.c:96-199 | At every waiting point of such a run: the count is within the maximum; pool, dictionary and the client being stopped partition the wrappers; the ring is either emptied for a removal of all or holds exactly the dictionary's clients with 128 points each; exactly the wrappers outside the pool are started; the reference count of every wrapper is what callers hold of it. |
| `Registry.AcquireServes` | src/mrpc_distributed_client.c:301-336 | In every such run, acquiring gives nothing on an empty ring and otherwise, except exactly in the lookup gap, the client of the point with the least key from the hashed request on, the front one of equal keys, or of the first point if there is none; that client is registered, started and not being stopped, is counted once more, and nothing else changes. |
| `Registry.DictionaryIs` | src/mrpc_distributed_client.c:125-199 | In every such run the dictionary is that of a plain bounded map: an add counts unless the maximum is registered or the key already is, and a client stays until it is removed. |
| `Registry.FiberGoesOn` | src/mrpc_distributed_client.c:96-237 | In every such run: the idle fiber takes any message and stops at once a client with a registered key; it removes all clients one by one; a client is being stopped exactly as long as somebody holds it, and its wrapper then goes back to the pool. |
| `Registry.Disruption` | src/mrpc_distributed_client.c:125-336 | A request that is given a client is given the same client after any step, or the client just registered, until that client or all clients are removed. |
| `Registry.StepKeeps` | src/mrpc_distributed_client.c:96-237 | Every step other than a bad removal keeps dictionary, ring, pool, counter and references in agreement. |
| `Registry.AgreementExactly` | src/mrpc_distributed_client.c:125-199 | In any run, whatever the hash, the ring refers only to registered clients all along if and only if no client is removed while one added later, and still registered, shares a point with it. |
| `Registry.BadRemoval` | src/mrpc_distributed_client.c:170-199 | After any such removal the ring refers to a client that is not registered. |
| `Registry.GapHappens` | src/mrpc_distributed_client.c:301-336 | A run in which a client is registered and a request runs into the last assertion of the lookup. |
| `Registry.ReleaseServes` | src/mrpc_distributed_client_wrapper.c:80-92 | In every such run, releasing a client that was acquired counts one less for its wrapper and no other, and sets the stop event exactly when nobody else holds it. |
| `Registry.CollisionsLeaveStaleClients` | src/mrpc_distributed_client.c:170-199 | After clients a and b were added and a removed, the ring refers only to registered clients if and only if a and b share no point. |
| `Lexer.Context.ReadNextLexeme` | interface-compiler/src/parser.c:161-280 | Delivers the next lexeme of the file's plain reading and leaves the rest, dies exactly at garbage, and at the end of the file delivers the end again and again. |
| `Lexer.Context.ReadNextChar` | interface-compiler/src/parser.c:73-80 | Takes one character, or reports the end. |
| `Lexer.Context.UnreadChar` | interface-compiler/src/parser.c:82-89 | Puts one character back. |
| `Lexer.RenderedIsRead` | interface-compiler/src/parser.c:161-280 | Layout independence: lexemes rendered with any white space and comments (needed only between two identifiers) are read back exactly, then the end. |
| `Lexer.ReadIsRendered` | interface-compiler/src/parser.c:161-280 | Conversely, every file that is read to its end is such a rendering of what is read. |
| `Lexer.GapsAre` | interface-compiler/src/parser.c:137-143 | The gaps of these renderings are exactly the texts in which every character is one of the six white-space characters or in a comment, from # to the end of its line; only the last comment of a file may lack that end. |
| `Lexer.FirstCharacter` | interface-compiler/src/parser.c:182-262 | What a text means that begins with a character other than a letter: white space is skipped, braces are lexemes, # begins a comment, anything else is garbage. |
| `Lexer.NamesAre` | interface-compiler/src/parser.c:145-159 | A text is read as itself, as one identifier, exactly if it is a letter followed by letters, digits and underscores, 99 characters at most. |
| `Lexer.OnlyWhiteSeparates` | interface-compiler/src/parser.c:263-276 | A character between two names makes two identifiers of them exactly if it is one of the six white-space characters. |
| `Lexer.DocumentedIsRead` | interface-compiler/src/parser.c:111-120 | A documented identifier is read if it has at most 99 characters, and is garbage otherwise. |
| `Lexer.DocumentedEnds` | interface-compiler/src/parser.c:161-280 | Lexemes with documented identifiers, laid out in any way, are read to the end of the file exactly if all identifiers are short. |
| `Parser.ParsesExactlyTheGrammar` | interface-compiler/src/parser.c:319-464 | A file is accepted with an interface if and only if the grammar derives its lexemes from that interface. |
| `Parser.AcceptsExactlyLayouts` | interface-compiler/src/parser.c:319-483 | A file is accepted with an interface if and only if it is a layout of that interface's lexemes. |
| `Parser.WrittenIsAccepted` | interface-compiler/src/parser.c:319-483 | Every interface of the grammar, written with any white space between its words, is accepted as what it says exactly if all its names are names for the lexer. |
| `Parser.SampleIsAccepted` | interface-compiler/src/parser.c:319-464 | An interface with every word of the grammar and every type, spelled out word by word, with any white space between, is accepted with the types, key flags and order it says. |
| `Parser.TabbedIsAccepted` | interface-compiler/test.mrpc-interface:21-45 | For instance with a line break and a tab everywhere. |
| `Parser.DocumentedIsAccepted` | interface-compiler/test.mrpc-interface:6-19 | Of the files the documentation allows, exactly those with identifiers of at most 99 characters are accepted; the others are refused altogether. |
| `Parser.AcceptedIsDocumented` | interface-compiler/src/parser.c:145-159 | Of the files that are accepted, exactly those are allowed by the documentation whose identifiers are documented ones. |
| `Parser.UpperCaseIsAccepted` | interface-compiler/src/parser.c:145-151 | An accepted file that the documentation does not allow. |
| `Parser.LongNameIsRefused` | interface-compiler/src/parser.c:111-120 | A file that the documentation allows and that is refused. |
| `Parser.FileSound` | interface-compiler/test.mrpc-interface:6-17 | What is accepted is in the grammar, parameters and methods in order, key flags right. |
| `Parser.FileComplete` | interface-compiler/test.mrpc-interface:6-17 | Everything in the grammar is accepted, with the interface it was derived from. |
| `Parser.MatchParam` | interface-compiler/src/parser.c:319-372 | Parses one parameter as the specification does. |
| `Parser.MatchParamList` | interface-compiler/src/parser.c:389-403 | Parses parameters in order up to the closing brace, and terminates. |
| `Parser.MatchParams` | interface-compiler/src/parser.c:374-407 | Parses a parameter block. |
| `Parser.MatchMethod` | interface-compiler/src/parser.c:409-424 | Parses one method. |
| `Parser.MatchMethods` | interface-compiler/src/parser.c:426-446 | Parses one or more methods in order, and terminates. |
| `Parser.MatchInterface` | interface-compiler/src/parser.c:448-464 | Parses the whole file. |
| `Parser.ParseInterface` | interface-compiler/src/parser.c:466-483 | Accepts a text with an interface exactly when the text is a layout of that interface. |
| `Parser.MatchName` | interface-compiler/src/parser.c:367-369 | Copies an identifier and goes past it. |
| `Parser.MatchId` | interface-compiler/src/parser.c:307-317 | Goes past a given word, or dies. |
| `Parser.Match` | interface-compiler/src/parser.c:292-305 | Goes past a lexeme of a given type, or dies. |
| `Bitmap.Bits.constructor` | src/mrpc_bitmap.c:24-37 | All bits are clear. |
| `Bitmap.Bits.AcquireBit` | src/mrpc_bitmap.c:45-78 | Takes the first clear bit from the hint upwards, or from 0 upwards if the bits from the hint on are all set, and changes no other; returns -1 if and only if all are taken. |
| `Bitmap.Bits.ReleaseBit` | src/mrpc_bitmap.c:80-87 | Frees one number and no other. |
| `Bitmap.WithBitIs` | src/mrpc_bitmap.c:5-13 | Setting one bit of the packed words changes no other bit. |
| `Bitmap.WithoutBitIs` | src/mrpc_bitmap.c:5-13 | Clearing one bit of the packed words changes no other bit. |
| `Bitmap.AllTakenIsFull` | src/mrpc_bitmap.c:58-76 | A full round without a clear bit means that all numbers are taken. |
| `Bitmap.FoundIsFirst` | src/mrpc_bitmap.c:58-71 | The i-th number of a round whose earlier numbers are taken is the first free one upwards from the hint, then from 0. |
| `ClientStreams.Streams.CreateRequestStream` | src/mrpc_client_stream_processor.c:197-214 | Within the pool's capacity there is always an id for a new stream, and it is nobody else's. |
| `ClientStreams.Streams.AcquireRequestStream` | src/mrpc_client_stream_processor.c:227-249 | Puts a stream into the slot of its id, which was empty, changes no other slot, and keeps count and event in agreement. |
| `ClientStreams.Streams.ReleaseRequestStream` | src/mrpc_client_stream_processor.c:251-270 | Empties the slot and no other, and sets the stop event exactly when all slots are empty. |
| `ClientStreams.DistinctEnter` | src/mrpc_client_stream_processor.c:227-249 | A pooled stream enters an empty slot; ids stay distinct and accounted for. |
| `ClientStreams.DistinctNew` | src/mrpc_client_stream_processor.c:197-249 | The same for a stream just created. |
| `ClientStreams.DistinctLeave` | src/mrpc_client_stream_processor.c:251-270 | A stream that returns to the pool keeps its id to itself. |

## Left out

- The fiber framework (scheduler, TCP, pipes, timeouts, hash function): unseen code, replaced by the abstractions above.
- Fairness: it is proved when the server's fibers cannot go on at all, not that a fiber that can go on does.
- The client's stop protocol: its creation path checks the state, may wait in the pool and does not check again; the
  stop protocol is proved for the server, whose reader alone creates streams.
- The client's writer fiber and its bounded queue: the code is that of the server, but what is proved in ServerProtocol
  (nothing is left unflushed, the queue never overflows) is proved for the server's fibers only.
- TwoWay.IdMayBeTaken: is about the stream that is created next; the client's own reader and writer appear as steps,
  without its stop protocol.
- ClientStreams.Streams.AcquireRequestStream: is asked for at most 256 concurrent requests, since a caller beyond
  that waits in the pool.
- Demux.Demultiplexing: a write that hands over several packets is several steps, one for each put; partial writes of
  a frame before a failure are not modelled, the server then reads no further frame.
- ServerProtocol.NoAssertionFails: handlers that flush before they write, or write or flush after a flush, fail
  assertions of the packet stream and are not modelled; packets are identities without contents, so what depends on
  contents is a choice of the environment; a server processor that is started again after a stop is not followed.
- PacketStream.Stream.Read: packets are told apart by their contents, not by identity; identities are in ServerProtocol.
- PacketStream.Stream.Write: packets cross the queues by value, since the stream never touches them again; waiting for
  the packet pool belongs to ServerProtocol. A reader queue that is empty stands for the read timeout.
- Varint.Serialize64: a write to a broken stream fails as a whole.
- ConsistentHash.ConsistentHash.constructor: takes orders 1 to 20, since order 0 makes the code shift a 32-bit value
  by 32; the entry counter is an unbounded integer; freed nodes are only unlinked.
- Registry.NoAssertionFails: works on the sorted list that ConsistentHash is proved to refine; the wait for a client to
  stop and the wait for its event are one wait; the retries of an acquisition on an empty ring are separate steps.
- Lexer.Context.ReadNextLexeme: line and position counters, used in messages only, are not kept; input characters
  outside ASCII are never letters or white space.
- mrpc_client.c, mrpc_server.c, mrpc_distributed_client_controller.c: connection loops whose slot accounting repeats
  what is proved here.
- mrpc_blob.c: file I/O. mrpc_char_array.c and mrpc_wchar_array.c: length prefixes over the integer codec.
- The code generators of the interface compiler: templates of C text, whose meaning would need a semantics of C.
