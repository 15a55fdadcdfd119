# Tiny FastCGI: a verified model

Tiny FastCGI is the server side of the FastCGI Specification 1.0: it reads records from connections, gathers the
parameters of each request, hands complete requests to a pool of worker threads, and sends what the application
writes back as records. This project models its three hard parts and proves how they fit together.

1. **The name-value pair codec** (section 3.4 of the FastCGI Specification 1.0). `NameValuePairs.dfy` holds a one-shot reference
   parser and the serializer as functions; `Deserializer.dfy` is the resumable push parser as a class with the
   fields of the source, proved against the reference parser. Main results: the pairs delivered do not depend on how
   the stream is cut into records; the suspended state stands for exactly the octets not yet used; the parser undoes
   the serializer exactly for lengths below 2^31; the size limit holds for every pair and for the buffer.
2. **Streams and framing** (sections 3.3 and 5.3 of the FastCGI Specification 1.0). `Streams.dfy` and `OutStream.dfy` treat `ostreambuf` and
   `ostream`; `Sockets.dfy` the two I/O loops over a socket that may move any number of octets, be interrupted or
   fail; `SendLock.dfy` the output mutex; `Packets.dfy` the life of an `ipacket` and the reading loop; `InStream.dfy`
   the input streams; `GetValues.dfy` the GET_VALUES handler; `EndToEnd.dfy` the whole way from a list of pairs
   through stream, frames, interleaved and partial sends, reading loop and parser back to the list.
3. **The request life cycle** (sections 3.3, 5.1, 5.2 and 5.5 of the FastCGI Specification 1.0). `Requests.dfy` says what one record does to one
   request slot, and `RequestObject.dfy` does it with objects. `Workers.dfy` (queue, condition variable, worker
   program counters) and `Lifecycle.dfy` (connection threads) make a step relation over any number of connections
   and workers, in which every critical section and every record a worker sends is a step of its own. `Lifetime.dfy`
   and `ReplyInvariant.dfy` prove the invariants, `Replies.dfy` has the automaton that reads a connection's log, and
   `Guarantees.dfy` states what every state of every run satisfies. `ReplyContents.dfy` and `ReplyGuarantees.dfy` do
   the same for what the replies carry, `WireReplies.dfy` states both of the packets that the peer meets on the wire,
   and `Progress.dfy` shows that the server can always go on.

The step relation never asks whether a worker's request still exists: a worker's step is enabled by its own program
counter alone, and the erasure of a connection by `request_actives == 0` alone. That no worker is ever left with a
request that is gone is a theorem (`Guarantees.NoDanglingRequest`).

Reads, sends and their errnos, the application's writes, flushes and closes, the choice of the woken worker, the
status in END_REQUEST, the text of the exception message and `hardware_concurrency` are parameters that range over
all values.

## Where the code and its purpose differ

*Repaired, with the letter treated beside it.* The class `Deserializer` does what `feed` is for; taken to the letter
the source departs from that in these places:

- src/name-value-pairs.cpp:54-58: the form bit of a complete 4-octet length stays in the length, and `len` is
  compared after it has been moved on. In the class the bit is cleared and the parse goes on.
- src/name-value-pairs.cpp:44 and 100: a length is read with no octet left in the record. In the class the parser
  suspends.
- src/name-value-pairs.cpp:79-85: a resumed partial copy does not move `current_buffer`, and `remaining_len` is not
  zeroed once satisfied. In the class both are done.
- src/name-value-pairs.cpp:118-127: the split branch does not enter READ_BUFFER. In the class it does.

`AsWrittenFeed.dfy` follows the letter over whole streams: all fields as memory, the pointer, the conversion of the
lengths in place on either kind of host, and every state that a record can leave behind; an access outside of an
object is an outcome of its own. What holds of the letter:

- It leaves the parser as new if and only if every record is a list of whole pairs within the limit with lengths
  below 128 (`AsWrittenFeed.RunExact`): an awaited count of octets never returns to zero, and a length read with its
  form bit never completes.
- Over a stream of pairs with lengths below 128, which may be cut anywhere, the pairs delivered at the end are those
  of the stream if and only if no record cuts a pair (`AsWrittenFeed.PairsExact`).
- A 4-octet length comes out right when a record ends inside it and the whole pair stands in the next record, as with
  the records `80` and `00 00 01 00 41`; but no record can follow (`AsWrittenFeed.NameCutDelivers`,
  `AsWrittenFeed.ValueCutDelivers`).
- For streams with 4-octet lengths in general whether the pairs come out right is not a matter of the records: on one
  and the same stream they are right or wrong with what `name_len`, which has no initial value, happened to hold
  (`AsWrittenFeed.MemoryDecides`), and with the byte order of the host (`AsWrittenFeed.HostDecides`).

The sum of the lengths is taken in 32 bits as in src/name-value-pairs.cpp:108; with the form bit cleared it cannot
wrap, which is part of the proof of `WillReadBuffer`.

- Request ids are kept in host order. The source does not convert them on input (src/ipacket.cpp:22,
  src/connection.cpp:78), converts them on output (src/iostream.cpp:25), and converts them again at every `close`
  (src/iostream.cpp:81). `AsWritten.IdsExact` says for which hosts, ids and numbers of closes a reply bears its id.
- `istreambuf::is_open` is taken to start true; include/fcgi/iostream.hpp:70 leaves it without a value.
- `istreambuf::underflow` returns a `char` as an `int` (src/iostream.cpp:110). `InStreams` returns the octet.
  `AsWritten.UnderflowExact`: by the letter a reader that takes octets is served right if and only if no record it
  reaches begins with 255; `AsWritten.PeekExact` is the same for one that looks ahead.

*Kept as written, with the exact condition.*

- The padding of a record without content stays on the socket (src/ipacket.cpp:24-29, 47-51). `Packets.BoundaryExact`:
  the next header is read at the true boundary if and only if the record has content or no padding.
- `serialize_size` and its documentation accept lengths up to 0x8FFFFFFF (src/name-value-pairs.cpp:139,
  include/fcgi/name-value-pairs.hpp:147-148). `NameValuePairs.FrontRoundTrip`: such a pair is read back if and only
  if both lengths are below 2^31. `NameValuePairs.SizeCollision`: beyond that two lengths share their octets.
- A `read` that is interrupted is tried again, but the flag `socket_insane` is cleared all the same
  (src/connection.cpp:35-41), so the connection ends after the current packet. `Sockets.Socket.RecvAll` states when
  the flag stays.
- GET_VALUES is answered when the 4096-octet buffer fills, when an empty record comes, or when the connection is
  destroyed (src/connection.cpp:140, 174-181). Without an empty record all answers have been sent if and only if there
  are none (`GetValueHandlers.SentWithoutEnd`); in the end all names have been answered if and only if none of those
  read after the first empty record has an answer (`GetValueHandlers.AnsweredExactly`).
- A worker does not write `state` at the end of a request (src/request-workers.cpp:93-98). A completed slot stays
  PENDING until its connection is gone, a later BEGIN_REQUEST for its id is ignored, and slots are used again only
  after a cancelled request. `Guarantees.ExactlyOnce` rests on this: no slot is ever pushed twice.

## Model

| member | source | states |
|---|---|---|
| NameValuePairs.ParseAppend | src/name-value-pairs.cpp:68-135 | stopping the parser anywhere and resuming it with the octets left over gives the pairs, the rest and the failure of the stream read at once |
| NameValuePairs.ParseRest | src/name-value-pairs.cpp:87-133 | what is left over after a parse holds no further pair: parsing it again delivers nothing |
| NameValuePairs.ChunkInvariance | src/name-value-pairs.cpp:68-135 | for every stream and every way to cut it into records, the records read one by one give the pairs and the size failure of the whole stream |
| NameValuePairs.CutsAgree | src/name-value-pairs.cpp:68-135 | two ways to cut one stream into records deliver the same pairs, fail alike, and suspend with the same octets unused |
| NameValuePairs.PairsWithinLimit | src/name-value-pairs.cpp:106-111 | every delivered pair has name plus value within the effective limit |
| NameValuePairs.ReadLengthBelow31Bits | src/name-value-pairs.cpp:42-66 | a length that has been read is below 2^31, whatever the octets |
| NameValuePairs.SizeLayout | src/name-value-pairs.cpp:137-146 | the octets of a length by value: one below 128, else four with the most significant first and the top bit set; above 0x8FFFFFFF the `length_error` |
| NameValuePairs.PairLayout | src/name-value-pairs.cpp:147-154 | a pair with short lengths is the length of the name, the length of the value, the name, the value |
| NameValuePairs.SizeReadBack | src/name-value-pairs.cpp:137-146 | a serialized length followed by anything is read back modulo 2^31, with the right number of octets used |
| NameValuePairs.FrontOfSerialized | src/name-value-pairs.cpp:147-154 | what stands in front after a serialized pair is a pair of the two lengths reduced below 2^31 |
| NameValuePairs.FrontRoundTrip | src/name-value-pairs.cpp:137-154 | a pair that the serializer accepts is read back as itself, whatever follows, if and only if both lengths are below 2^31 |
| NameValuePairs.RoundTrip | src/name-value-pairs.cpp:147-154 | for every list of pairs with 31-bit lengths within the limit, parsing the concatenated encodings followed by any stream gives the list, then the parse of that stream |
| NameValuePairs.SerializeAllInjective | src/name-value-pairs.cpp:147-154 | no two lists of such pairs share their octets, and an encoding that begins another one belongs to a prefix of its list |
| NameValuePairs.SizeCollision | src/name-value-pairs.cpp:137-146 | each accepted length above 2^31 + 127 is written with the octets of another length, so the bound of the round trip is real |
| NameValuePairs.ToMapAppend | include/fcgi/name-value-pairs.hpp:111-119 | the map filled in two goes is the map filled at once |
| NameValuePairs.ToMapLastWins | include/fcgi/name-value-pairs.hpp:111-119 | a name is in the map if and only if some pair bears it, with the value of the last such pair |
| Deserializers.Deserializer.constructor | include/fcgi/name-value-pairs.hpp:41-101 | a new parser stands for the empty input, has delivered nothing and uses the global limit |
| Deserializers.Deserializer.SuspendedIsPartial | src/name-value-pairs.cpp:88-133 | a suspended parser never holds a whole pair, nor two lengths over the limit |
| Deserializers.Deserializer.ReadKeyvalLength | src/name-value-pairs.cpp:42-66 | either the octets used are exactly a length field with the stored value, or the record ends inside the field and the stored octets stand for exactly what was read |
| Deserializers.Deserializer.CopyIn | src/name-value-pairs.cpp:78-86 | after a copy into any of the three targets the suspended state stands for the octets read so far |
| Deserializers.Deserializer.HandleKeyval | src/name-value-pairs.cpp:24-35 | delivering the pair in front of the buffer adds exactly that pair to what was parsed, and to the map, and leaves nothing pending |
| Deserializers.Deserializer.StartBuffer | src/name-value-pairs.cpp:118-127 | a pair cut by the record's end is taken into a buffer of exactly its size, within the limit |
| Deserializers.Deserializer.DeliverInPlace | src/name-value-pairs.cpp:112-117 | the branch without a copy delivers the pair the reference parser sees, and moves on by its size |
| Deserializers.Deserializer.WillReadBuffer | src/name-value-pairs.cpp:104-127 | with the sum taken in 32 bits, the pair is delivered, buffered or refused exactly as the reference parser has it |
| Deserializers.Deserializer.BeginName | src/name-value-pairs.cpp:91-97 | the name length is read, or the parser is suspended inside it, with nothing lost |
| Deserializers.Deserializer.BeginValue | src/name-value-pairs.cpp:98-103 | the same for the value length, also when the record ends right between the two lengths |
| Deserializers.Deserializer.DeliverBuffer | src/name-value-pairs.cpp:128-131 | the gathered pair delivered from the buffer is the pair of the octets read |
| Deserializers.Deserializer.ParseStep | src/name-value-pairs.cpp:88-133 | one turn of the loop delivers one pair, or uses the record up, or throws, in each case on the way to the reference result; a turn that starts a new pair uses input |
| Deserializers.Deserializer.Feed | src/name-value-pairs.cpp:68-135 | the loop ends; the pairs, the leftover octets and the failure after a record are those of the reference parser resumed with that record; the map is the last-wins fold of all pairs; the buffer is within the limit; the result is true for the empty record only, which changes nothing |
| Streams.SyncCarries | src/iostream.cpp:39-50 | a flush loses and adds no octet, leaves the put area empty, and sends no empty record |
| Streams.PutCarries | src/iostream.cpp:51-60 | a put keeps the order of all octets and sends only records of 1 to 4096 octets, also when the put area is full |
| Streams.WriteCarries | src/iostream.cpp:39-60 | the same for a write of any length |
| Streams.WriteAppend | src/iostream.cpp:51-60 | writing in two goes sends the records of writing at once |
| Streams.WriteSendsFull | src/iostream.cpp:51-60 | a write by itself sends only records of exactly 4096 octets |
| Streams.OpenRun | src/iostream.cpp:39-60 | after any writes and flushes, the contents sent followed by the put area are the octets written; no end record has been sent |
| Streams.CloseSeals | src/iostream.cpp:31-83 | after a close everything written has been sent in records of 1 to 4096 octets, followed by one end record if data was sent or the request was accepted, and by none otherwise |
| Streams.ApplyClosed | src/iostream.cpp:75-83 | a closed stream sends nothing whatever is done with it |
| Streams.ClosedRun | src/iostream.cpp:31-83 | for every sequence of writes, flushes and closes: the octets written before the first close are sent, in order, then at most one end record, and nothing after it |
| OutStreams.OutStream.constructor | src/iostream.cpp:20-30 | a new buffer is empty, owes no end record, and is attached |
| OutStreams.OutStream.Sync | src/iostream.cpp:39-50 | the 4096-octet put area and the records on the wire after the call are those that `Streams.Sync` gives for the old state |
| OutStreams.OutStream.Put | src/iostream.cpp:51-60 | the same for one octet |
| OutStreams.OutStream.Write | src/iostream.cpp:51-60 | the same for a write, by a loop of puts |
| OutStreams.OutStream.Flush | src/iostream.cpp:75-83 | the same for a flush, which does nothing on a detached stream |
| OutStreams.OutStream.Close | src/iostream.cpp:75-83 | the same for a close: flush, detach, destroy the old buffer with its end record, and a fresh buffer |
| OutStreams.OutStream.Reset | src/iostream.cpp:84-88 | a stream that is reset is attached to the buffer it has |
| OutStreams.OutStream.RaiseEof | src/request.cpp:58-60 | an accepted request owes an end record even without data |
| OutStreams.OutStream.SerializeSize | src/name-value-pairs.cpp:137-146 | throws, with nothing written, if and only if the length is above 0x8FFFFFFF; otherwise writes the length field |
| OutStreams.OutStream.Serialize | src/name-value-pairs.cpp:147-159 | succeeds if and only if both lengths are accepted, and then writes the encoding of the pair; with a value that is too long only the name length has been written |
| OutStreams.RecordsReadBack | src/name-value-pairs.cpp:68-159 | however the octets of serialized pairs are cut into records, the parser returns the pairs |
| OutStreams.WriterReader | src/name-value-pairs.cpp:147-159 | pairs serialized to a stream in any pieces, flushed anywhere and closed, give records that the parser reads as those pairs, and one final empty record |
| OutStreams.WriterReaderPrefix | src/iostream.cpp:39-60 | at any earlier moment the records already sent give a prefix of the pairs |
| Sockets.Socket.ReadOnce | src/connection.cpp:30-48 | one read takes a non-empty beginning of the stream, or is to be tried again, or ends the connection, which an end of file does too |
| Sockets.Socket.RecvAll | src/connection.cpp:28-50 | whatever sizes the reads return, the octets obtained are the next ones of the stream; all of them when enough reads make progress and none fails; and the flag stays set if and only if all came and no read was interrupted |
| Sockets.Socket.SendPacket | src/connection.cpp:51-70 | whatever sizes the sends return, what has gone out is a beginning of the packet, and all of it unless the peer is gone or the errno is thrown |
| SendLock.WholePackets | src/connection.cpp:51-70 | in every interleaving of threads, the bytes sent are the packets whole and in lock order, but for the rest of the holder's packet; once a send has found the peer gone they are a beginning of that |
| SendLock.PeerMeetsRecords | src/connection.hpp:37-42 | a reader of the connection meets exactly the records sent, whichever threads sent them and however the sends were cut |
| SendLock.PeerMeetsBeginning | src/connection.hpp:37-42 | at any moment, also after a failed send, it has met a beginning of them, all whole but perhaps the last |
| Packets.WireLayout | include/fcgi/protocol.hpp:23-44 | every octet of a record on the wire: version 1, the type code by number, id and content length with the most significant octet first, padding length, zero, then content and padding |
| Packets.TypesAreWellFormed | include/fcgi/protocol.hpp:23-35 | all eleven types can be sent with any id, content and padding that a header holds |
| Packets.TypeOctetKept | include/fcgi/protocol.hpp:23-44 | no type octet is lost when a header is read, and exactly 1 to 11 have a name |
| Packets.HeaderRead | src/ipacket.cpp:17-23 | the header of an encoded record is read back with type, id and both lengths, and is followed by content and padding |
| Packets.BoundaryExact | src/ipacket.cpp:24-53 | after a record the socket stands at the next record if and only if the record has content or no padding; otherwise it stands before the padding |
| Packets.WalkRecords | src/connection.cpp:75-103 | on a stream of records that keep in step the reading loop meets exactly these records |
| Packets.WalkBeginning | src/connection.cpp:75-103 | on such a stream cut anywhere it meets a beginning of them, the last perhaps cut |
| Packets.IPacket.constructor | src/ipacket.cpp:17-23 | unless the connection breaks, the header is that of the next 8 octets, which are gone from the socket; when it breaks, the octets that came stand before those of a memory whose content length is zero |
| Packets.IPacket.Consume | src/ipacket.cpp:30-53 | succeeds if and only if the amount is positive and within the content; the padding is read with the last octet of content and only then |
| Packets.IPacket.RecvAll | src/ipacket.cpp:54-64 | reads beyond the content are refused without touching the socket; otherwise the next octets are returned and the position moves by them, and by the padding at the end |
| Packets.IPacket.SinkToVector | src/ipacket.cpp:65-71 | returns as many octets as remain and leaves nothing of the content: the next ones of the stream, with zeros for those that did not come when the connection broke |
| Packets.IPacket.Destroy | src/ipacket.cpp:24-29 | whatever was read before, the rest of the record goes, with its padding if there was content |
| Packets.ReadPacket | src/connection.cpp:76-103 | a handler that takes any part of the content sees a beginning of it, and the next turn starts at the next packet of the stream |
| Packets.ReadLoop | src/connection.cpp:72-103 | whatever the handlers take, the packets met are those of the stream in order; all of them when the connection does not fail |
| InStreams.BeforeEndAppend | src/iostream.cpp:97-104 | what is fed after the first empty record is no part of the stream |
| InStreams.IStreamBuf.constructor | src/iostream.cpp:133-136 | a new stream is open and empty |
| InStreams.IStreamBuf.Feed | src/iostream.cpp:116-121 | a record fed is added at the end of what the reader is promised |
| InStreams.IStreamBuf.Underflow | src/iostream.cpp:90-115 | the object does what `InStreams.Fill` says: the next non-empty record becomes the get area; the reader waits only on an empty queue of an open stream; a closed stream stays closed |
| InStreams.IStreamBuf.Read | src/iostream.cpp:90-115 | over any schedule the octets read are a prefix of the contents before the first empty record; the end is reported only when all of them have been read and that record has come, and on every later read |
| InStreams.IStreamBuf.Promise | src/iostream.cpp:90-121 | what has been read never leaves what was promised, and reaches it when the stream is closed or drained |
| RequestObjects.Request.constructor | src/request.cpp:20-22 | a new request is a fresh slot in READY |
| RequestObjects.Request.AcceptStreams | src/request.cpp:33-60 | both streams are attached again and owe an end record |
| RequestObjects.Request.Begin | src/request.cpp:28-67 | the slot after an accepted BEGIN_REQUEST: empty params, a new parser, READING_PARAMS, one more active request |
| RequestObjects.Request.FeedRecord | src/request.cpp:72-79 | params and parser after a PARAMS record are those of the stream so far, and the exception comes exactly when a pair is over the limit |
| RequestObjects.Request.CloseStreams | src/request.cpp:82-84 | the message and the rest of both streams are sent, each with its end, STDERR first |
| RequestObjects.Request.Cancel | src/request.cpp:80-89 | the message and the rest of both streams with their ends are sent, then one END_REQUEST; the slot is READY again without a parser and is no longer counted, and its params stay |
| RequestObjects.Request.FeedParams | src/request.cpp:72-93 | the object does what the slot function says for a PARAMS record: slot, records sent, and count |
| RequestObjects.Request.HandlePacket | src/request.cpp:24-110 | the same for every record type and state, with the records that are ignored and the one that ends in an exception |
| RequestObjects.Request.ReleaseDeserializer | src/request.cpp:78 | after the push only the parser goes |
| Workers.EnqueueCounts | src/request-workers.cpp:27-33 | a push adds the request once to what the pool holds, whoever is woken |
| Workers.TakeCounts | src/request-workers.cpp:34-44 | a pop moves a request from queue to worker without changing what the pool holds |
| Workers.EnqueueWakes | src/request-workers.cpp:27-33 | a push with its `notify_one` loses no wake-up |
| Workers.TakeWakes | src/request-workers.cpp:34-44 | a pop, also by a worker that arrives before the woken one, and a wait lose no wake-up |
| Workers.MoveWakes | src/request-workers.cpp:45-101 | nor does any other step of a worker |
| Lifetime.HandledStates | src/request.cpp:24-110 | from which state each outcome of a record comes, and which state and parser it leaves |
| Lifetime.ReceiveLocal | src/connection.cpp:83-102 | handling a record changes `request_actives` by what it counts, keeps requests that are PENDING, and offers at most one request that was not |
| Lifetime.DismantleLocal | src/connection.cpp:104-114 | a turn of the teardown keeps requests that are PENDING, and uncounts exactly those reading params |
| Lifetime.LocalStep | src/connection.cpp:72-114 | any such step of one connection keeps the invariant of all connections and workers |
| Lifetime.EnqueueStep | src/request-workers.cpp:27-33 | the second half of a push, between which and the counter anything may happen, keeps it |
| Lifetime.TakeStep | src/request-workers.cpp:34-44 | a pop or a wait keeps it |
| Lifetime.HandledCounts | src/request.cpp:24-110 | handling a record logs one acceptance when a request is accepted, one END_REQUEST when one is cancelled, and neither otherwise |
| Lifetime.PartStep | src/request-workers.cpp:96-98 | the END_REQUEST and the decrement each keep the invariant of all connections and workers, the first turning an active request into one that has ended and is about to be left |
| Lifetime.SendEndStep | src/request-workers.cpp:96-97 | the END_REQUEST finds its connection still there and keeps it |
| Lifetime.LeaveStep | src/request-workers.cpp:98 | the decrement finds its connection still there and keeps it |
| Lifetime.EraseIsSafe | src/connection.cpp:115-122 | a connection that has been torn down and counts no active request has none in the pool |
| Lifetime.EraseStep | src/connection.cpp:118-122 | hence its erasure keeps the invariant |
| Lifetime.NextInv | src/connection.cpp:72-123 | every step of every thread keeps the invariant |
| Lifetime.RunInv | src/request-workers.cpp:27-101 | it holds in every state of every run |
| Replies.OneOfEach | src/request-workers.cpp:93-98 | a log that the automaton accepts has, for each accepted request, one END_REQUEST and one empty record of each stream, but for what the current one still owes |
| Replies.OthersUnseen | src/connection.cpp:84-93 | what is seen of one id depends on the records of that id only |
| Replies.SealedSeen | src/iostream.cpp:31-83 | a closed stream of an accepted request is seen as data records and exactly one end |
| ReplyInvariant.FeedOk | src/request.cpp:72-79 | the parser of a request stands where its whole PARAMS stream so far leaves a one-shot parse |
| ReplyInvariant.CancelOk | src/request.cpp:80-89 | a cancelled request is seen as a complete reply, as far as the order of its records goes; `ReplyContents.CancelSays` says what they carry |
| ReplyInvariant.HandleOk | src/request.cpp:24-110 | every record leaves slot and view of its id in agreement |
| ReplyInvariant.ReceiveOk | src/connection.cpp:83-102 | and those of all other ids as they were |
| ReplyInvariant.DestroyReading | src/connection.cpp:104-114 | a request destroyed while reading params has ended both streams and sent no END_REQUEST |
| ReplyInvariant.DismantleOk | src/connection.cpp:104-114 | the teardown keeps the agreement for every id |
| ReplyInvariant.DoOpSeen | src/iostream.cpp:39-88 | each put, flush or close by a worker is seen as data or as the end of that one stream; `ReplyGuarantees.RepliesCarry` says which data |
| ReplyInvariant.OnStreamOk | src/request-workers.cpp:59-95 | whatever the application does with its streams keeps the agreement of slot and view for every id |
| ReplyInvariant.SendEndOk | src/request-workers.cpp:96-97 | END_REQUEST is sent with both streams ended and completes the reply; `ReplyGuarantees.StatusSent` says with which body |
| ReplyInvariant.Alone | src/request-workers.cpp:45-98 | a request a worker has is PENDING, not queued, not being pushed, and no other worker has it |
| ReplyInvariant.LeaveOk | src/request-workers.cpp:98 | the decrement is the last touch: it changes no slot and no view |
| ReplyInvariant.EraseOk | src/connection.cpp:136-145 | the slots left at the erasure are of ended requests, so their destruction sends nothing |
| ReplyInvariant.NextOk | src/connection.cpp:72-123 | every step of every thread keeps the agreement for every id of every connection |
| ReplyInvariant.RunOk | src/request-workers.cpp:45-101 | it holds in every state of every run |
| Guarantees.NoDanglingRequest | src/connection.cpp:104-122 | in every reachable state a queued or running request is in a PENDING slot of a connection that is not gone, and no other queue entry or worker has it |
| Guarantees.ErasureIsSafe | src/connection.cpp:115-122 | when a connection is erased no queued or running request is one of its own |
| Guarantees.ActivesConserved | src/connection.hpp:44-53 | `request_actives` is the number of slots reading params and of requests pushed, queued or run, never negative; and in the log of every connection the acceptances, plus the workers between END_REQUEST and decrement, are the END_REQUEST records, plus the abandoned ids, plus `request_actives` |
| Guarantees.AbandonedExactly | src/connection.cpp:104-114 | the abandoned ids are exactly those without a slot whose streams have both ended without END_REQUEST |
| Guarantees.AbandonedByTeardown | src/connection.cpp:104-114 | they are exactly the ids whose slot an earlier step of the teardown destroyed while it was reading params |
| Guarantees.ExactlyOnce | src/request-workers.cpp:27-44 | the pushes are the pops followed by the queue, no request is pushed twice, and `workers_backlog` is the queue plus the pushers in between, never negative |
| Guarantees.NoWakeUpLost | src/request-workers.cpp:27-44 | whenever a worker sleeps, the woken workers that have not resumed are at least as many as the queued requests |
| Guarantees.WellFormedReplies | src/request-workers.cpp:84-98 | for every id in every reachable state: each accepted request but the current one has data records of 1 to 4096 octets, one empty record of each stream with no other of that stream after it, then one END_REQUEST; and nothing is sent outside of a request |
| Guarantees.GoneMeansEnded | src/connection.cpp:104-122 | on a connection that is gone every request has its END_REQUEST, except exactly those that were reading params when the teardown came to them, which have the ends of both streams only |
| Guarantees.OwnParamsOnly | src/request.cpp:57-79 | the params of a request that has been handed over are the last-wins map of the pairs in its own PARAMS records since its BEGIN_REQUEST, all within the limit, whatever other ids received |
| Guarantees.OversizedIsCancelled | src/request.cpp:80-89 | at any step of any run, the record that brings the first oversized pair leaves exactly the pairs before it, pushes nothing, and uncounts the request; the log gains the message on STDERR, the ends of STDERR and STDOUT, and an END_REQUEST with the status 0x9020816E and REQUEST_COMPLETE, in that order, and nothing else |
| Guarantees.HandedOver | src/request-workers.cpp:45-98 | while a worker has a request no step of any other thread writes its params, streams or state |
| Guarantees.QueuedUntouched | src/request.cpp:76-78 | nor does any step write to it while it is queued, except that the connection thread lets the parser go |
| Guarantees.DeserializerWhileReading | src/request.cpp:63-85 | in every reachable state a slot has a parser if and only if it reads its params or is just being pushed |
| Guarantees.WorkerSpares | src/request-workers.cpp:59-98 | a worker writes no slot but its own |
| Guarantees.OwnIdOnly | src/connection.cpp:88-93 | every step of every run adds to a connection's log only records of the id it is at, which for a slot is one more than its index |
| ReplyContents.CancelSays | src/request.cpp:81-86 | the records of a cancellation, by content and order: what was pending and the message on STDERR, what was pending on STDOUT, each with its end, and the END_REQUEST with its status by number |
| ReplyContents.DestroySays | src/connection.cpp:104-114 | a request destroyed with nothing pending sends the ends of STDERR and STDOUT, in that order |
| ReplyContents.OpContents | src/iostream.cpp:39-88 | a put adds its octet to what an open stream has sent and holds, a flush and a close add nothing and leave nothing held, and only a close detaches |
| ReplyContents.CloseInTwo | src/iostream.cpp:75-83 | the flush and the rest of a close, which a worker takes as two steps, are together what `ostream::close` does |
| ReplyContents.RunAgrees | src/request-workers.cpp:59-95 | in every state of every run each stream of each request agrees with the writes and closes among the steps taken since its acceptance |
| ReplyGuarantees.RepliesCarry | src/request-workers.cpp:59-95 | at every moment of every run: the contents of the STDOUT or STDERR records sent for a request since its acceptance, then the put area, are the octets written to that stream, in order, and the records alone once it has ended; the stream is open until the application or the worker closes it or the request is cancelled |
| ReplyGuarantees.FlushedAtOnce | src/iostream.cpp:39-50 | after a flush by the application the records alone are all octets written so far |
| ReplyGuarantees.PutsGather | src/iostream.cpp:51-60 | writing an octet sends nothing, or one record of exactly 4096 octets |
| ReplyGuarantees.StatusSent | src/request-workers.cpp:54-97 | the end of a request that has run adds exactly one event to the log of its connection, an END_REQUEST for its id with the body that the worker made |
| ReplyGuarantees.EndsExplained | src/request-workers.cpp:96-97 | every END_REQUEST in any log was put there by such a step with that body, or by a cancellation with the fixed one |
| ReplyGuarantees.UnknownAnswered | src/request.cpp:102-108 | exactly the records of types that nobody handles, and for id 0 all but GET_VALUES, are answered by UNKNOWN_TYPE, to their id, with the type octet received and seven zeros |
| ReplyGuarantees.TeardownSays | src/connection.cpp:104-114 | the teardown sends the ends of STDERR and STDOUT for each request that reads its params, and nothing for any other slot |
| Progress.WorkerGoesOn | src/request-workers.cpp:59-98 | a worker that has a request can always take a step, which brings it nearer to its end |
| Progress.QueueIsServed | src/request-workers.cpp:27-44 | in every reachable state with a queued request and a worker that is neither at a request nor gone, some worker may take the first request at once, with no further wake-up |
| Progress.QueuedCanEnd | src/request-workers.cpp:45-101 | from every reachable state with a worker that has not left, the server can go on so that the request at any place of the queue gets its END_REQUEST |
| WireReplies.ContentsMet | src/connection.cpp:51-70 | while a reply is under way, a peer that has read all of the connection has met on each stream exactly the octets sent since the acceptance |
| WireReplies.RepliesMet | src/connection.cpp:51-70 | in every reachable state, however the sends are cut: a peer that has read all of the connection has met, for every id, well-formed replies with one END_REQUEST and one empty record of each stream per accepted request but the current one |
| WireReplies.RepliesBegun | src/connection.cpp:51-70 | at any other moment, also after a failed send, the packets met but for the last are a beginning of well-formed replies |
| GetValueHandlers.DecimalReadBack | src/connection.cpp:165-170 | the value of an answer is decimal digits without a leading zero that denote the number |
| GetValueHandlers.KnownNames | src/connection.cpp:161-170 | the three names are those of the string literals |
| GetValueHandlers.AnswersSay | src/connection.cpp:161-173 | the answers are one pair for each known name asked, in order, and none for the others, with the values 1, 20 for each core modulo 2^32, and the number of cores |
| GetValueHandlers.AnswersCarried | src/connection.cpp:161-181 | while no empty record comes, the result stream carries the answers to all names read so far, in order |
| GetValueHandlers.AnsweredAtEnd | src/connection.cpp:161-181 | once the empty record has come, the GET_VALUES_RESULT records read back as those answers to the names asked for, by name and number, however the request was cut |
| GetValueHandlers.SentWithoutEnd | src/connection.cpp:174-181 | for every list of non-empty records, all answers have been sent if and only if there are none |
| GetValueHandlers.AnswersInTheEnd | src/connection.cpp:136-181 | for all records, empty ones among them: the answers to the names before the first empty one leave when it comes, or else when the connection is destroyed, and no others ever do |
| GetValueHandlers.AnsweredExactly | src/connection.cpp:136-181 | in the end all names have been answered if and only if none of those read after the first empty record has an answer |
| GetValueHandlers.UnansweredWithoutEnd | src/connection.cpp:174-181 | one record whose answers fit the buffer has nothing sent, and after the empty record no later request is answered |
| EndToEnd.PairsArrive | src/name-value-pairs.cpp:68-159 | pairs serialized to a stream, cut into records, sent in parts under the mutex among the records of any other streams, met again by the reading loop and fed to the parser arrive as the same pairs, followed by the end |
| EndToEnd.FramesWellFormed | src/iostream.cpp:20-50 | what a closed stream sends always fits the 16-bit content length, keeps the reader in step, and concerns no other type or id |
| AsWrittenFeed.FeedExact | src/name-value-pairs.cpp:42-135 | to the letter, from any state between two pairs, a record leaves the parser there if and only if it is whole pairs within the limit with lengths below 128, and then the right pairs are delivered |
| AsWrittenFeed.RemainingSticks | src/name-value-pairs.cpp:78-86 | to the letter, a positive `remaining_len` never returns to zero in the parse loop |
| AsWrittenFeed.FormBitNeverCompletes | src/name-value-pairs.cpp:104-127 | to the letter, lengths that reach 2^31 with a form bit kept never make a delivered pair |
| AsWrittenFeed.LostStays | src/name-value-pairs.cpp:68-135 | to the letter, a parser led astray is never as new again, whatever records come |
| AsWrittenFeed.RunExact | src/name-value-pairs.cpp:42-135 | over every stream, host and initial memory: the letter leaves the parser as new if and only if every record is whole short pairs, and then the pairs are those of the stream |
| AsWrittenFeed.PairsExact | src/name-value-pairs.cpp:42-135 | over every stream of whole pairs with lengths below 128, however cut: the pairs delivered at its end are those of the stream if and only if no record cuts a pair |
| AsWrittenFeed.TurnCost | src/name-value-pairs.cpp:88-133 | to the letter, no turn delivers more octets than it takes from the record and than its lengths account for |
| AsWrittenFeed.CutCosts | src/name-value-pairs.cpp:88-133 | to the letter, a record that cuts a pair of such a stream uses octets that it will never deliver, or reads beyond its end |
| AsWrittenFeed.NameCutDelivers | src/name-value-pairs.cpp:44-66 | to the letter, a name length cut by the end of a record comes out right when the whole pair follows, and the next record is then written outside of the field |
| AsWrittenFeed.ValueCutDelivers | src/name-value-pairs.cpp:44-66 | the same for a value length |
| AsWrittenFeed.CutPairIsLost | src/name-value-pairs.cpp:79-133 | to the letter, a pair whose body is cut is not delivered: the pairs after it are, or the parser reads outside of the record |
| AsWrittenFeed.MemoryDecides | src/name-value-pairs.cpp:42-86 | to the letter, on one stream that cuts a length twice the pairs are right if and only if an octet of `name_len` that the pair never writes was zero before |
| AsWrittenFeed.HostDecides | src/name-value-pairs.cpp:98-127 | to the letter, on one stream a big-endian host delivers octets of the second pair for the first, and any other host throws |
| AsWrittenFeed.LongNameDropsRest | src/name-value-pairs.cpp:52-59 | to the letter, a record that begins with a complete 4-octet name length is given up after it, unless exactly four more octets follow |
| AsWrittenFeed.SumWraps | src/name-value-pairs.cpp:106-117 | to the letter, two lengths whose sum wraps to 0 in 32 bits pass both comparisons |
| AsWrittenFeed.LetterFails | src/name-value-pairs.cpp:42-66 | two concrete records on which the letter fails |
| AsWritten.IdsExact | src/iostream.cpp:20-30 | to the letter, after any number of closes: the records of a stream bear the id of its request if and only if the host is big-endian, the id reads the same both ways, or the number of closes is odd |
| AsWritten.UnderflowExact | src/iostream.cpp:90-121 | to the letter, over any schedule of records fed and octets taken, the reader gets what it should if and only if no record it reaches begins with 255, or `char` is unsigned |
| AsWritten.FalseEndPasses | src/iostream.cpp:107-110 | to the letter, the end reported for such a record is not the end: the next read gives the 255 |
| AsWritten.PeekExact | src/iostream.cpp:107-110 | to the letter, looking at the next octet gives its value if and only if no record is reached, the octet is below 128, or `char` is unsigned |

## Left out

- Sockets.Socket.RecvAll: the calls of `read` are a finite list, after which the peer is gone, so an interruption that never ends is outside of the model; the source would read on for as long as it lasts.
- SendLock.WholePackets: an errno of `send` that is thrown ends the modelled run; a peer that is gone takes nothing more.
- Packets.IPacket.Consume: negative amounts, which only callers outside of the class could pass, are not modelled.
- GetValueHandlers.AnsweredAtEnd: the handler is modelled on values, not as an object, and the life cycle has GET_VALUES records as events without answers.
- AsWrittenFeed.PairsExact: the condition is exact for streams of 1-octet lengths. For those with 4-octet lengths `AsWrittenFeed.NameCutDelivers` and `AsWrittenFeed.ValueCutDelivers` are sufficient conditions; the other half is left out, as by `AsWrittenFeed.MemoryDecides` the same records come out right or wrong.
- WireReplies.RepliesMet: the log of the life cycle and the order of the locks are taken to be the same, and ids to fit a header.
- Guarantees.OversizedIsCancelled: cancelling a request and destroying a slot are each one step, so their records stand together in the log; a worker's are separate steps.
- Real sockets, `accept`, errno values beyond those that the two loops tell apart, and syslog: src/main.cpp and `create_connection` appear as the step that adds a connection.
- Shutdown: a worker blocked in `pop_request` does not see the flags of its loop again, so beyond what `Progress.dfy` says is possible only safety of the queue is claimed; `close_listening_socket`, `workers_online`, `workers_sleeping` and the statistics are not modelled.
- Liveness of an `istreambuf` reader: `feed` does not ring `queue_bell`, so only what is delivered is claimed; `istream::reset` does not attach its buffer, and `cin` and `cdata` are not part of a slot.
- Exceptions other than the size error: a BEGIN_REQUEST that is too short, an unexpected errno of `send` and a size error in GET_VALUES end the modelled run.
- The role in BEGIN_REQUEST and the application callbacks: an application is any sequence of puts, flushes and closes on its two streams that comes to an end; what it does to `params` is not modelled.
- A limit that is changed between two calls of `feed`: the limit of a parser is fixed.
- The move assignment of streams, `CreateMap` and the header helpers of `Request`: no other part of the library calls them, and each is a few assignments or one formatted write. The examples and build files hold no logic of the server.
- The size of the header in `send_packet(Header*, uint16_t)` is that of a pointer in the source; it is taken as the 8 octets of a header.
