# Verified models of a VPN client's data plane

This project models, in Dafny, the parts of a VPN client where bytes, sequence numbers and connections
are most easily lost: a Rust core (`core/aether`) and the AnyTLS multiplexer in Go (`anytls`). Each
component is a small set of modules. Code that changes state in place is a class whose methods are proved
against a specification; code that runs concurrently is a state machine over its atomic steps; the
theorems range over every run, every input or every reachable state.

| files | component |
|---|---|
| `Frames`, `Padding`, `SessionWriter`, `Session`, `SessionReader`, `EndToEnd` | AnyTLS session: framing, padding, multiplexing, and sender to receiver |
| `Pipe` | the in-memory pipe with close and deadlines |
| `Pool` | the client's session pool |
| `TcpReceiver`, `TcpBridge`, `DnsCache` | tun2socks: TCP over 32-bit atomics, DNS cache |
| `NetstackConn`, `Netstack` | the userspace network stack's tables around its sockets |
| `Varint`, `Capsules`, `Datagrams` | MASQUE framing (section 3.2 of RFC 9297, section 16 of RFC 9000) |
| `HttpHead`, `Sni`, `Checksum`, `UdpPacket` | incremental parsers and packet building |
| `Reconnect` | the WireGuard and masque-in-masque reconnect loops |

`dafny verify dfyconfig.toml` checks everything.

## What turned out not to hold

Where the code does not keep a property, the model keeps the code, a lemma gives an input, and a theorem
gives the exact condition.

| what fails | input | exact condition |
|---|---|---|
| a frame survives the wire | `Frames.LongBodyIsCut` | `Frames.RoundTripExactly`: its length fits 16 bits |
| padding ends on a frame boundary | `Frames.LongPaddingSpills` | `Frames.WasteSelfDelimits` |
| a stale segment is recognised | `TcpReceiver.StaleSegmentAliases` | `TcpReceiver.RefinesExactly`: it is not a whole number of wraps away |
| acknowledged bytes go upstream | `TcpBridge.RefusedByteIsAcknowledged` | `TcpBridge.UpstreamIsPrefix`: no channel send was refused |
| a socket is closed with nothing pending | `Netstack.PendingByteIsCut` | `NetstackConn.ClosesEarlyExactly`: the socket takes all of it, or neither is the application gone nor has the peer closed |
| all that arrived reaches the application | `Netstack.UnreadByteIsLost` | `Netstack.RemovalsLoseExactly`: the permits of the last turn suffice |
| all that is pending at removal reaches the socket | `Netstack.PendingByteIsLost` | `Netstack.RemovalsLoseExactly`: the socket takes all of it in the last turn |
| no name is found in a message without one | `Sni.NameBehindIsReported` | `Sni.NamelessExactly`: what follows does not read as extensions with a name |
| a bare packet is kept | `Datagrams.BarePacketIsCut` | `Datagrams.StripKeepsBareExactly` |
| a UDP payload is recovered | `UdpPacket.LongPayloadIsLost` | `UdpPacket.Build`: its segment length fits 16 bits |
| capsule results do not depend on chunking | `Capsules.OverflowLosesCapsule` | `Capsules.ConservesExactly`: every push fits the cap |
| a cached reply is the direct answer | `DnsCache.ShortQueryGetsAnotherId` | `DnsCache.TransparentExactly`: both queries have an id, or are the same |
| no cooling endpoint is tunnelled | `WireguardLoop.PinIgnoresCooldown` | `WireguardLoop.PrematureExactly`: the pin is not chosen while cooling |
| a head is found however it is cut | `HttpHead.BytewiseOutcome` | `HttpHead.FoundExactly`: it ends within one byte of the limit |

Accepted connections never reach the accept channel, although the comment at
`core/aether/src/netstack.rs:764` says they do: the receiver is taken out together with the absent request,
and is gone when it is looked for again. No input avoids this (`NetstackConn.AcceptedIsDropped`,
`Netstack.NothingIsEverOffered`).

## Model

| member | source | states |
|---|---|---|
| `Frames.ParseOneStable` | anytls/proxy/session/session.go:189-208 | a frame read completely is the same frame whatever bytes follow it, and the rest of the input is untouched |
| `Frames.ParseAllAppend` | anytls/proxy/session/session.go:185-208 | reading is compositional: frames of `a + b` are the frames of `a` followed by those of the unread rest of `a` and `b`, so record boundaries do not matter |
| `Frames.RoundTripExactly` | anytls/proxy/session/frame.go:37-49 | the receiver reads an encoded frame back exactly when it is well formed: its length fits 16 bits, and only commands with a body carry one |
| `Frames.BodiesRead` | anytls/proxy/session/session.go:191-365 | exactly the commands 0, 2, 4 to 7 and 10 are read with their bodies; any other is read as an empty frame |
| `Frames.LongBodyIsCut` | anytls/proxy/session/session.go:378-393 | a body of 65536 bytes is read as an empty frame followed by stray bytes |
| `Frames.WasteSelfDelimits` | anytls/proxy/session/session.go:453-478 | a padding frame of any requested size never yields a meaningful frame, and ends on a frame boundary exactly when its size divided by 65536 is a multiple of seven |
| `Frames.LongPaddingSpills` | anytls/proxy/session/session.go:453-478 | padding of 65536 to 131071 bytes ends inside a header |
| `PaddingScheme.Generate` | anytls/proxy/padding/padding.go:66-96 | exactly the usable pieces of a packet line yield a size, in order; a range yields a size between its ends, a check mark a check mark; all sizes are valid |
| `SessionWriter.RecordsMeaning` | anytls/proxy/session/session.go:437-483 | for every payload and every list of sizes and check marks, the records written concatenate to the payload followed by complete padding frames |
| `SessionWriter.EmitOneByOne` | anytls/proxy/session/session.go:437-483 | writing a list of records is writing the first and then the others, with the connection failing at the same record and byte |
| `SessionWriter.SmallSizesDelimit` | anytls/proxy/session/session.go:453-478 | sizes below 65536 always give padding that ends on a frame boundary |
| `SessionWriter.SendCarries` | anytls/proxy/session/session.go:418-493 | one send keeps this: complete frames on the wire, complete frames in the buffer, together exactly the frames sent |
| `SessionWriter.RunKeepsMeaning` | anytls/proxy/session/session.go:378-493 | over every run of sends and buffering toggles, the wire without padding followed by the buffer is exactly the frames sent, in order, and no padding lies inside a frame |
| `SessionWriter.FieldsFromOps` | anytls/proxy/session/session.go:418-493 | in every run whether buffering is on, what is held back, the packet number and whether padding has ended are told by the calls alone |
| `SessionWriter.PaddedExactly` | anytls/proxy/session/session.go:418-493 | over every run, a send that goes out writes what was held back and its frame, followed by padding of the lengths the sizes give if no send up to and including it had a packet number at or past its stop; else as exactly one record without padding |
| `SessionWriter.RecordsHaveLengths` | anytls/proxy/session/session.go:436-479 | each record is as long as its size says, unless the payload ends in it too close to the end for a padding header |
| `SessionWriter.FailureWrites` | anytls/proxy/session/session.go:446-492 | a failing call leaves on the wire the records before the failing one, and that one up to where the connection stopped |
| `SessionWriter.CountIsWritten` | anytls/proxy/session/session.go:481-486 | when the last, unpadded record fails, the count returned is the number of payload bytes the connection took, in order |
| `SessionWriter.FaultsTruncate` | anytls/proxy/session/session.go:418-493 | a run with failing writes puts a prefix on the wire of what the same run without failures puts there |
| `SessionWriter.AnyRunDeliversPrefix` | anytls/proxy/session/session.go:378-493 | whatever writes fail, and at whatever byte, the peer reads a prefix of the frames sent |
| `SessionWriter.SettingsPrecedeSyn` | anytls/proxy/session/session.go:81-98 | in a run that begins with the settings frame, every SYN the peer reads comes after it |
| `Session.ClientSession.ConnWrite` | anytls/proxy/session/session.go:485-493 | one record reaches the wire, whole or cut where the connection fails |
| `Session.ClientSession.WriteRecords` | anytls/proxy/session/session.go:437-483 | the splitting and padding loop, in place, writes exactly the specified records |
| `Session.ClientSession.WriteConn` | anytls/proxy/session/session.go:418-493 | the new buffer, counter, padding flag and wire are those of the step that `SessionWriter.PaddedExactly` and `SessionWriter.FieldsFromOps` describe over runs; the error returned, and the count: everything on success, and on failure nothing or, when the last unpadded record failed, the payload up to where the connection stopped |
| `Session.ClientSession.WriteFrame` | anytls/proxy/session/session.go:378-416 | one more frame is sent; a control frame that cannot be written closes the session, a data frame does not |
| `Session.ClientSession.Run` | anytls/proxy/session/session.go:81-98 | after start the settings frame is the only frame sent, held in the buffer, and the client conforms to the protocol |
| `Session.ClientSession.OpenStream` | anytls/proxy/session/session.go:136-172 | a SYN for the next id is sent and buffering ends; an id is returned exactly when the session was open, the write went through and the session was not closed meanwhile; a conforming client still conforms |
| `Session.ClientSession.WriteData` | anytls/proxy/session/session.go:378-393 | one data frame is sent; the wire means a prefix of the frames sent, and all of them when nothing failed and nothing is held back; a conforming client writing to an open stream still conforms |
| `Session.ClientSession.StreamClosed` | anytls/proxy/session/session.go:367-376 | a FIN is sent and the stream forgotten, unless the session is closed; a conforming client closing an open stream still conforms |
| `SessionReader.OpeningsOffer` | anytls/proxy/session/session.go:195-206 | offering bytes to the stream in the table appends them to the latest opening of that id and to nothing else |
| `SessionReader.AlwaysLatest` | anytls/proxy/session/session.go:191-250 | in every reachable state the table entry of an id is its most recent opening |
| `SessionReader.StreamsAreIndependent` | anytls/proxy/session/session.go:174-365 | over every run of arrivals, local closes and a close of the session, without a protocol error, what one id is offered depends only on the events that concern it |
| `SessionReader.StopsExactly` | anytls/proxy/session/session.go:185-365 | over every run the loop has stopped exactly when the session was closed, an alert with a reason arrived, or a stream was asked for before settings came; until then the settings are known exactly when they have come |
| `SessionReader.FinishIsRun` | anytls/proxy/session/session.go:174-365 | reading a byte string to its end, with closes by others before any turn, is the run of exactly its complete frames and those closes |
| `SessionReader.ServerSession.CloseStream` | anytls/proxy/session/session.go:367-376 | a local close removes one id from the table; the session closes if the peer cannot be told; a closed session is untouched |
| `SessionReader.ServerSession.Close` | anytls/proxy/session/session.go:111-133 | the session stops and its table empties |
| `SessionReader.ServerSession.HandleFrame` | anytls/proxy/session/session.go:191-365 | one frame has the specified effect on the streams, and the loop goes on exactly when the frame did not end the session |
| `SessionReader.ServerSession.ReadFrame` | anytls/proxy/session/session.go:189-208 | the in-place read takes exactly one complete frame off the input or reports that there is none |
| `SessionReader.ServerSession.RecvLoop` | anytls/proxy/session/session.go:174-365 | for every input, and streams or the session closed by others before any turn, the loop ends with every stream offered what the run of the frames and closes offers it |
| `EndToEnd.EventsDeliver` | anytls/proxy/session/session.go:174-365 | for frames of a conforming sender, interleaved with closes and padding, each stream is offered its payloads in order, all of them unless it or the session was closed |
| `EndToEnd.HistoriesConform` | anytls/proxy/session/session.go:136-172 | every history of a client that starts with its settings, opens streams and uses only open ones conforms to the protocol |
| `EndToEnd.NeverStopped` | anytls/proxy/session/session.go:174-365 | a conforming sender causes no protocol error: the receiver has stopped exactly when its session was closed |
| `EndToEnd.StreamBytesSurvive` | anytls/proxy/session/session.go:174-493 | sender to receiver: for every run of sends, every padding, record split and failure, and any closes on the receiving side, each stream is offered exactly the data frames between its SYN and FIN that reached the wire, a prefix of what was sent, and all of it when nothing failed |
| `EndToEnd.ArrivedWeave` | anytls/proxy/session/session.go:174-208 | the frames among what the receive loop lives through are exactly those it reads |
| `EndToEnd.Transfer` | anytls/proxy/session/session.go:174-493 | a receive loop that reads the client's wire, with streams or the session closed by others in between, ends holding for every stream what the client wrote to it and reached the wire |
| `Pipe.OnceError.constructor` | anytls/proxy/pipe/io_pipe.go:17-21 | nothing is stored at first |
| `Pipe.OnceError.Store` | anytls/proxy/pipe/io_pipe.go:23-30 | whatever is stored, in whatever order, the slot holds the earliest of all errors stored |
| `Pipe.OnceError.Load` | anytls/proxy/pipe/io_pipe.go:31-35 | loading gives the earliest of all errors stored |
| `Pipe.CountConserves` | anytls/proxy/pipe/io_pipe.go:61-65 | the count a reader reports moves exactly the bytes it took from the slice on offer to the consumed prefix of the write |
| `Pipe.NextKeeps` | anytls/proxy/pipe/io_pipe.go:52-133 | every step of every goroutine keeps the invariant: serialised writers, one exchange, honest counts, conserved bytes |
| `Pipe.AtMostOneExchange` | anytls/proxy/pipe/io_pipe.go:52-106 | in every interleaving at most one reader holds a slice, it is the remaining bytes of the one write past the mutex, and a writer awaiting a count has that reader |
| `Pipe.BytesAreConserved` | anytls/proxy/pipe/io_pipe.go:52-106 | in every interleaving the bytes reads returned are the prefixes writes report consumed, in order, and a write without an error was consumed whole; how many bytes each exchange moves is `Pipe.ExchangeMoves` |
| `Pipe.ExchangeMoves` | anytls/proxy/pipe/io_pipe.go:61-65 | in every run an exchange gives the reader exactly the first bytes the writer still has to offer, as many as fit its buffer, and moves the writer on by as many |
| `Pipe.ExchangeSucceeds` | anytls/proxy/pipe/io_pipe.go:61-98 | a waiting reader and a writer with something to offer can exchange, with that result |
| `Pipe.WriteFinishes` | anytls/proxy/pipe/io_pipe.go:93-105 | a write whose bytes are all consumed returns them all without an error |
| `Pipe.OperationsStart` | anytls/proxy/pipe/io_pipe.go:52-91 | on an open pipe a read waits, a write waits for the mutex and takes it when it is free |
| `Pipe.WriteMeetsRead` | anytls/proxy/pipe/io_pipe.go:52-106 | on an open pipe a write and a read with room for it complete each other from start to finish, an empty write included |
| `Pipe.WaitersLeave` | anytls/proxy/pipe/io_pipe.go:66-103 | once the pipe is closed or a deadline has passed, a waiting reader leaves with nothing and a writer with what was consumed, releasing the mutex |
| `Pipe.NoneGetsIn` | anytls/proxy/pipe/io_pipe.go:52-87 | and a new read or write returns at once with the same error |
| `Pipe.ClosingCloses` | anytls/proxy/pipe/io_pipe.go:73-115 | closing a side closes the pipe with its error, unless that side had one |
| `Pipe.DeadlinesFollow` | anytls/proxy/pipe/io_pipe.go:218-232 | in every run a deadline has passed exactly if the last setting of it says so |
| `Pipe.EndingStays` | anytls/proxy/pipe/io_pipe.go:23-30 | the close and the first error of each side stay for the rest of every run |
| `Pipe.EarliestErrorStays` | anytls/proxy/pipe/io_pipe.go:23-30 | in every run each slot holds the earliest error its side was closed with |
| `Pipe.ReadAfterClose` | anytls/proxy/pipe/io_pipe.go:52-59 | in every run, a read begun at any moment after a close moves nothing and returns the earliest error the write side was closed with, or the closed-pipe error if the read side was closed too, or a deadline error if that has expired |
| `Pipe.WriteAfterClose` | anytls/proxy/pipe/io_pipe.go:82-91 | in every run, a write begun at any moment after a close moves nothing and returns the earliest error the read side was closed with, or the closed-pipe error if the write side was closed too, or a deadline error if that has expired |
| `Pipe.LoadsNeedNotBeAtomic` | anytls/proxy/pipe/io_pipe.go:118-133 | loading the two errors at different moments gives the answer of the first load |
| `Pool.InsertSorted` | anytls/proxy/session/client.go:109-129 | an insertion keeps the idle list newest first and adds exactly one number |
| `Pool.RemoveSorted` | anytls/proxy/session/client.go:157-181 | a removal keeps the order and drops exactly one number |
| `Pool.SweepKeepsEnough` | anytls/proxy/session/client.go:205-242 | every session is kept or closed; at least the minimum, or all, are kept; every kept one is unexpired |
| `Pool.SweepClosesExactly` | anytls/proxy/session/client.go:205-242 | a session is closed exactly when it has expired and at least the minimum of idle sessions are newer; otherwise it is kept, with its own or a refreshed time |
| `Pool.SweepPartitions` | anytls/proxy/session/client.go:205-242 | closed and kept sessions partition the idle ones |
| `Pool.CleanupKeeps` | anytls/proxy/session/client.go:205-242 | a cleanup keeps the pool invariant and leaves every serving session alone |
| `Pool.ReusesNewest` | anytls/proxy/session/client.go:140-149 | with an idle session at hand, the newest one is taken and becomes serving, and nothing else changes |
| `Pool.StreamReturns` | anytls/proxy/session/client.go:109-129 | with reuse on and the client alive, the session of a finished stream joins the idle ones, idle since now, and nothing else changes |
| `Pool.ReturnedIsReused` | anytls/proxy/session/client.go:109-149 | the next stream then gets the newest of the idle sessions, that one included |
| `Pool.StreamEndsSession` | anytls/proxy/session/client.go:109-124 | without reuse, or once the client is closed, the session of a finished stream is closed, and nothing else changes |
| `Pool.DialsNext` | anytls/proxy/session/client.go:84-181 | with no idle session to take, a stream gets a new session under the next number, and nothing else changes |
| `Pool.FailureCosts` | anytls/proxy/session/client.go:70-101 | a stream that cannot be had costs exactly the session it was tried on |
| `Pool.SessionEndsAlone` | anytls/proxy/session/client.go:159-173 | a session that ends leaves the idle list and the tables, and only it |
| `Pool.ClientClosesAll` | anytls/proxy/session/client.go:183-199 | closing the client leaves nothing idle or open, and no stream can be created any more |
| `Pool.NextKeeps` | anytls/proxy/session/client.go:97-242 | every operation keeps: each live pooled session is idle or serves exactly one stream, never both |
| `Pool.InvAlways` | anytls/proxy/session/client.go:97-242 | in every reachable state each live pooled session is idle or serves exactly one stream, never both |
| `Pool.Client.SessionClose` | anytls/proxy/session/client.go:157-181 | closing a session removes it from the idle list, the table and the open sessions |
| `Pool.Client.GetIdleSession` | anytls/proxy/session/client.go:140-149 | the newest idle session, the one with the largest number, is taken out and no other; none exactly if there is none |
| `Pool.Client.NewStream` | anytls/proxy/session/client.go:70-138 | a stream is opened on an idle or a new session as specified, including every failure, and the invariant holds |
| `Pool.Client.StreamHook` | anytls/proxy/session/client.go:109-135 | the hook of a dying stream puts its session back, idle since now, or closes it, as `Pool.StreamReturns` and `Pool.StreamEndsSession` tell, and the invariant holds |
| `Pool.Client.Close` | anytls/proxy/session/client.go:183-199 | the client is dead and every session closed, and the invariant holds |
| `Pool.Client.IdleCleanup` | anytls/proxy/session/client.go:205-242 | the cleanup loop computes the specified sweep and closes exactly its closed sessions |
| `TcpReceiver.RefinesExactly` | core/aether/src/socks_upstream.rs:766-800 | the 32-bit decision is that of a receiver with unbounded offsets exactly when the segment is not a whole number of wraps away |
| `TcpReceiver.WindowDoesNotAlias` | core/aether/src/socks_upstream.rs:766-800 | segments within a window of 2^31 are never confused |
| `TcpReceiver.StaleSegmentAliases` | core/aether/src/socks_upstream.rs:766-800 | a segment one wrap old is taken for new data: the input on which the refinement fails |
| `TcpReceiver.BehindIsDistance` | core/aether/src/socks_upstream.rs:766-800 | the signed difference of two acknowledgements less than 2^31 apart is their distance |
| `TcpReceiver.SharedAck.Judge` | core/aether/src/socks_upstream.rs:766-800 | the bytes taken and the shared acknowledgement are those of a receiver with unbounded offsets unless the segment is a whole number of wraps away, and differ from it then |
| `TcpBridge.OutputIsSound` | core/aether/src/socks_upstream.rs:475-543 | over every interleaving data segments tile the server stream from isn + 1, a bare acknowledgement is numbered at a boundary between data segments sent before it, every SYN-ACK carries isn, and every segment acknowledges a value the shared acknowledgement held, the end of what had been received in order then |
| `TcpBridge.AcksAlways` | core/aether/src/socks_upstream.rs:515-543 | in every run each acknowledgement sent, or loaded for the next segment, is a value the shared acknowledgement has held |
| `TcpBridge.UpstreamIsPrefix` | core/aether/src/socks_upstream.rs:744-838 | over every interleaving, between packets, the bytes passed upstream are the acknowledged prefix of the app's stream exactly when the channel refused none |
| `TcpBridge.AcksLikeReference` | core/aether/src/socks_upstream.rs:744-800 | over every interleaving the acknowledgement is that of an unbounded receiver given every segment that met a connected, idle handler |
| `TcpBridge.SegmentHandled` | core/aether/src/socks_upstream.rs:744-838 | one segment: exactly its new bytes, none for a duplicate or a gap, go upstream unless the channel refuses them, and one pure acknowledgement of what is then received goes back |
| `TcpBridge.ServerIsRead` | core/aether/src/socks_upstream.rs:515-528 | over every interleaving the stream sent towards the app is the bytes read upstream |
| `TcpBridge.ReadIsSent` | core/aether/src/socks_upstream.rs:515-528 | one read: one data segment at the shared sequence number, which moves on by its length |
| `TcpBridge.EndIsSent` | core/aether/src/socks_upstream.rs:489-543 | the end of the stream: one closing segment of its kind, and the entry goes |
| `TcpBridge.Handshake` | core/aether/src/socks_upstream.rs:628-739 | a connection that comes up is published behind its SYN and announced by one SYN-ACK; one that fails is reset and removed; one given up meanwhile is left alone |
| `TcpBridge.ControlPackets` | core/aether/src/socks_upstream.rs:607-626 | a repeated SYN is answered by one SYN-ACK with the first sequence number exactly if connected; a FIN or RST removes the entry |
| `TcpBridge.NoEntryNoAnswer` | core/aether/src/socks_upstream.rs:755-830 | data for no entry, or one still connecting, is ignored; an entry that goes meanwhile is not acknowledged |
| `TcpBridge.RefusedByteIsAcknowledged` | core/aether/src/socks_upstream.rs:789-837 | a run in which the only byte sent is refused by the channel and acknowledged all the same |
| `TcpBridge.AckNeverRetreats` | core/aether/src/socks_upstream.rs:766-838 | over every interleaving the acknowledgement never moves backwards in serial-number arithmetic |
| `TcpBridge.ConnectorKeeps` | core/aether/src/socks_upstream.rs:648-739 | every step of the connector keeps the invariant |
| `TcpBridge.ReaderKeeps` | core/aether/src/socks_upstream.rs:475-543 | every step of the response reader keeps the invariant |
| `TcpBridge.HandlerKeeps` | core/aether/src/socks_upstream.rs:587-838 | every step of the packet handler keeps the invariant; what the steps achieve is `TcpBridge.SegmentHandled` and `TcpBridge.AcksLikeReference` |
| `DnsCache.Cache.Lookup` | core/aether/src/socks_upstream.rs:419-441 | a fresh entry is returned with the asking query's id; a stale one is dropped |
| `DnsCache.Cache.Store` | core/aether/src/socks_upstream.rs:453-465 | an answer is recorded for sixty seconds, after clearing an overfull cache |
| `DnsCache.KeyInjective` | core/aether/src/socks_upstream.rs:381-388 | two queries with an id share a key exactly if they ask the same server the same question |
| `DnsCache.AlwaysSound` | core/aether/src/socks_upstream.rs:366-465 | in every reachable state each entry is what an upstream answer that arrived earlier in the run, to a query with that key, stored |
| `DnsCache.RepliesAreFreshLookups` | core/aether/src/socks_upstream.rs:366-465 | across any sequence of hits, misses, expiries and clears every reply comes from an upstream answer that arrived in the run less than sixty seconds before, to a query with the same key, and is the answer to a direct lookup of that very query whenever the two are interchangeable |
| `DnsCache.AnsweredFromCache` | core/aether/src/socks_upstream.rs:419-465 | in every run a query is answered from the cache for sixty seconds after an answer with its key arrived, unless another replaced it or the cache overflowed |
| `DnsCache.EntryStays` | core/aether/src/socks_upstream.rs:423-465 | in every run an entry stays as stored until it expires, is replaced or the cache overflows |
| `DnsCache.RepeatGetsSame` | core/aether/src/socks_upstream.rs:419-465 | an answer is passed on as it came, and the same query asked again within sixty seconds gets the same bytes |
| `DnsCache.StoreTouches` | core/aether/src/socks_upstream.rs:458-462 | a store makes its own key available and, up to 512 entries, leaves every other entry alone; above that they all go |
| `DnsCache.FindTouches` | core/aether/src/socks_upstream.rs:423-430 | a lookup costs an entry only if it is the one asked for and has expired |
| `DnsCache.TransparentExactly` | core/aether/src/socks_upstream.rs:381-441 | two queries that share a key are answered rightly from each other's entry, whatever the resolver, exactly when both have an id or they are the same |
| `DnsCache.ShortQueryGetsAnotherId` | core/aether/src/socks_upstream.rs:381-441 | a one-byte query is answered with another query's id |
| `NetstackConn.ReceiveLoop` | core/aether/src/netstack.rs:833-863 | the delivery loop moves chunks as specified, stopping at 128, at a refused permit or at an empty socket |
| `NetstackConn.ServiceLink` | core/aether/src/netstack.rs:740-878 | one iteration of the service loop has the outcome that `NetstackConn.TurnMoves`, `NetstackConn.TurnShuts` and `NetstackConn.ServeAnswers` describe |
| `NetstackConn.TurnMoves` | core/aether/src/netstack.rs:806-863 | a turn hands the socket exactly the first pending bytes, as many as it takes, and the application one chunk for each permit granted in a row while there are chunks |
| `NetstackConn.TurnShuts` | core/aether/src/netstack.rs:824-878 | exactly which closes a turn issues, the state the socket ends in, and when the entry goes, told from the entry, the socket and what the turn offers |
| `NetstackConn.RoomExactly` | core/aether/src/netstack.rs:835-848 | the permits used are those up to the first that is not granted, and 128 at most |
| `NetstackConn.BusyExactly` | core/aether/src/netstack.rs:838-843 | backpressure is reported exactly if the loop gets as far as a full channel |
| `NetstackConn.ReceiverDecides` | core/aether/src/netstack.rs:833-848 | a channel whose receiver is still in the table is never found gone; one whose receiver was dropped always is |
| `NetstackConn.DeadBeforeEstablished` | core/aether/src/netstack.rs:793-804 | a connection that dies before it is seen established is removed with its request refused, and nothing moves |
| `NetstackConn.ServeKeepsStreams` | core/aether/src/netstack.rs:806-863 | a turn keeps: app data is what the socket got followed by pending; received data is what the app got followed by unread |
| `NetstackConn.TurnClosesExactly` | core/aether/src/netstack.rs:824-878 | the closes a turn issues, in order, with their causes and the bytes pending at each |
| `NetstackConn.ServeKeepsOrderly` | core/aether/src/netstack.rs:824-831 | a close requested by the application is issued only with nothing pending |
| `NetstackConn.ReceiveExactly` | core/aether/src/netstack.rs:833-863 | the delivery loop empties the socket exactly if the permits granted in a row, at most 128, suffice for its chunks, and finds the application gone exactly if it gets as far as that refusal |
| `NetstackConn.ClosesEarlyExactly` | core/aether/src/netstack.rs:824-872 | a socket is closed over pending bytes exactly when it does not take all of them and the application is found gone or the peer has closed |
| `NetstackConn.RemovalLosesExactly` | core/aether/src/netstack.rs:793-878 | a removal loses nothing that arrived exactly when the application holds the receiver and the permits of the last turn suffice, or nothing had arrived; nothing the application wrote exactly when the socket takes all that is pending |
| `NetstackConn.RemovalLosesUnread` | core/aether/src/netstack.rs:837-878 | a turn that removes an established connection over a byte a full channel kept unread |
| `NetstackConn.ServeAnswers` | core/aether/src/netstack.rs:752-804 | a request leaves its entry exactly when answered, with success exactly when the socket is seen established; a removed entry has none |
| `NetstackConn.AcceptedIsDropped` | core/aether/src/netstack.rs:752-791 | an accepted connection is not offered when seen established: its receiver is dropped, nothing is delivered and its socket is closed |
| `Netstack.NetStack.AllocPort` | core/aether/src/netstack.rs:452-456 | the k-th request gets port 49152 + k mod 15849 |
| `Netstack.PortsCycle` | core/aether/src/netstack.rs:452-456 | the k-th port is 49152 + k mod 15849 |
| `Netstack.PortsFollowRequests` | core/aether/src/netstack.rs:631-680 | in every run the port at hand is that of the number of requests made so far, failed ones included |
| `Netstack.TablesOwnSockets` | core/aether/src/netstack.rs:548-878 | in every reachable state each entry has its own socket of its own kind, and each socket an entry |
| `Netstack.RequestsAreAccountedFor` | core/aether/src/netstack.rs:631-804 | in every reachable state every open request was answered exactly once, or waits in exactly one live entry |
| `Netstack.BytesArePreserved` | core/aether/src/netstack.rs:710-863 | in every reachable state, for every connection live or removed: what the application wrote is what the socket got followed by what is pending, what arrived is what the application was given followed by what is unread, and requested closes were orderly |
| `Netstack.HistoriesTell` | core/aether/src/netstack.rs:710-878 | over every run and for every connection, live or removed: what the application wrote is the concatenation of its data events, what arrived is that of the polls, the socket has been handed exactly as many bytes as its turns took, the rest is pending, and a close is asked for exactly if one was requested |
| `Netstack.DatagramsHold` | core/aether/src/netstack.rs:920-954 | over every run, the application of a UDP entry has been given the first of the datagrams polled for it, as many as its turns took, and the others are queued |
| `Netstack.OpensFresh` | core/aether/src/netstack.rs:631-698 | an open adds exactly one entry under the next id with a socket of its own and nothing in it; a failed one adds only its answer |
| `Netstack.PollBrings` | core/aether/src/netstack.rs:471-482 | a poll changes exactly the socket state and unread data of the entry that owns the socket |
| `Netstack.UdpMovesExactly` | core/aether/src/netstack.rs:920-954 | a turn moves datagrams up to the first permit not granted, the end of the queue or the limit, and no fewer |
| `Netstack.UdpBusyExactly` | core/aether/src/netstack.rs:920-954 | backpressure is reported exactly if the loop stopped at a full channel |
| `Netstack.ConnectionsLast` | core/aether/src/netstack.rs:793-878 | over every run a connection once opened is live or among the removed, and a removed one stays as it was |
| `Netstack.RemovalsLoseExactly` | core/aether/src/netstack.rs:793-878 | for every removal of every run, exactly when it loses bytes that arrived and bytes the application wrote |
| `Netstack.UnreadByteIsLost` | core/aether/src/netstack.rs:837-878 | a run in which a connection is removed with a byte unread |
| `Netstack.PendingByteIsLost` | core/aether/src/netstack.rs:873-878 | a run in which a connection is removed with a byte pending |
| `Netstack.PendingByteIsCut` | core/aether/src/netstack.rs:869-872 | a run in which the peer's close cuts off a byte pending before a requested close |
| `Netstack.NothingIsEverOffered` | core/aether/src/netstack.rs:763-788 | in no run is an accepted connection put on the accept channel |
| `Netstack.IdsAreNeverReused` | core/aether/src/netstack.rs:558-560 | over every run an id that was given out and is gone never comes back |
| `Netstack.NextKeeps` | core/aether/src/netstack.rs:548-957 | every step keeps ownership, byte streams and the account of requests |
| `Netstack.NetStack.HandleOpenTcp` | core/aether/src/netstack.rs:633-665 | a failed connect is answered at once; otherwise a socket and an entry with a fresh id are added; the port is the next of the cycle and the invariant holds |
| `Netstack.NetStack.HandleOpenUdp` | core/aether/src/netstack.rs:666-698 | a failed bind is answered at once; otherwise a socket and an entry are added and the request answered; the port is the next of the cycle and the invariant holds |
| `Netstack.NetStack.HandleSyn` | core/aether/src/netstack.rs:548-578 | in accept mode a listening socket and an entry without a request are added, and the invariant holds |
| `Netstack.NetStack.HandleTcpData` | core/aether/src/netstack.rs:712-716 | data is appended to pending, data for an unknown id is ignored, and the invariant holds |
| `Netstack.NetStack.HandleTcpClose` | core/aether/src/netstack.rs:717-721 | the half-close is noted, an unknown id is ignored, and the invariant holds |
| `Netstack.NetStack.HandleUdpClose` | core/aether/src/netstack.rs:728-732 | the entry and its socket go together, and the invariant holds |
| `Netstack.NetStack.ServiceOne` | core/aether/src/netstack.rs:740-878 | one iteration updates tables, sockets and answers as specified and reports backpressure |
| `Netstack.NetStack.ServiceTcp` | core/aether/src/netstack.rs:736-882 | the loop over a snapshot of ids is the sequence of its turns, never looks up a missing socket, reports backpressure exactly when a turn met it, and keeps the invariant |
| `Netstack.NetStack.ServiceUdp` | core/aether/src/netstack.rs:920-954 | the datagram loop moves the specified number of datagrams in order and reports a full channel |
| `Varint.RoundTrip` | core/quiche/octets/src/lib.rs:187-209 | reading back a written integer gives the integer and its length |
| `Varint.Stable` | core/quiche/octets/src/lib.rs:187-209 | an integer read is the same whatever follows |
| `Capsules.ParseAddressAssign` | core/aether/src/masque.rs:218-242 | the cursor loop computes the specified list, or none on the first malformed entry |
| `Capsules.AssignedRoundTrip` | core/aether/src/masque.rs:218-242 | parsing inverts encoding for every list of assigned addresses |
| `Capsules.AssignedAreValid` | core/aether/src/masque.rs:218-242 | only four-byte IPv4 and sixteen-byte IPv6 addresses are ever read |
| `Capsules.ParseRouteAdvertisement` | core/aether/src/masque.rs:244-268 | the cursor loop computes the list of `Capsules.RoutesExactly`, or none |
| `Capsules.RoutesExactly` | core/aether/src/masque.rs:244-268 | a value is read as a list of routes exactly if it is the encoding of that list, with addresses of the right length |
| `Capsules.FirstStable` | core/aether/src/masque.rs:176-209 | a complete capsule is the same whatever follows |
| `Capsules.ParseAllAppend` | core/aether/src/masque.rs:164-209 | parsing is compositional over concatenation |
| `Capsules.RoundTrip` | core/aether/src/masque.rs:91-101 | next inverts encode for every kind and value, with anything after it |
| `Capsules.Delivered` | core/aether/src/masque.rs:176-209 | each kind of capsule delivers what was written into it: the assignments, the routes, the payload, or an unknown kind with its bytes |
| `Capsules.CapsuleParser.Push` | core/aether/src/masque.rs:164-174 | data is appended, or everything dropped when the cap would be exceeded; the cap holds |
| `Capsules.CapsuleParser.Next` | core/aether/src/masque.rs:176-209 | the first complete capsule is taken off the buffer, or nothing changes |
| `Capsules.CapsuleParser.Drain` | core/aether/src/masque.rs:176-209 | repeated calls give exactly the capsules in the buffer |
| `Capsules.AlwaysConserves` | core/aether/src/masque.rs:164-209 | over every run within the cap, results taken and the buffer parse to the stream pushed |
| `Capsules.ConservesExactly` | core/aether/src/masque.rs:164-209 | every push fits the cap if and only if after every call the results returned and the buffer make up the stream pushed |
| `Capsules.ChunkingInvariant` | core/aether/src/masque.rs:164-209 | for every split of a stream within the cap and every pattern of calls, the results are a prefix of parsing the stream at once, and all of it exactly when the buffer holds no complete capsule |
| `Capsules.BufferBounded` | core/aether/src/masque.rs:164-174 | in every run the buffer stays within the cap |
| `Capsules.OverflowLosesCapsule` | core/aether/src/masque.rs:164-174 | a capsule larger than the cap is lost: the bound is needed |
| `Datagrams.DecodeInvertsEncode` | core/aether/src/masque.rs:52-89 | decoding gives the packet back exactly for matching quarter stream ids, and nothing otherwise |
| `Datagrams.StripRemovesContext` | core/aether/src/masque.rs:119-141 | a packet behind context id zero is recovered |
| `Datagrams.StripKeepsBareExactly` | core/aether/src/masque.rs:119-148 | a bare packet is kept exactly unless it begins 0x40 0x00 and its rest looks like a packet |
| `Datagrams.BarePacketIsCut` | core/aether/src/masque.rs:119-148 | a bare packet that loses its first two bytes |
| `Datagrams.BothFormsRecovered` | core/aether/src/masque.rs:115-148 | every IPv6 packet, and every IPv4 packet with IHL at least 5, of at least 20 bytes is recovered from both forms |
| `HttpHead.Search` | core/aether/src/socks.rs:1431-1436 | the first blank line from a position on is found, or there is none |
| `HttpHead.ReadHead` | core/aether/src/socks.rs:1417-1446 | for every chunking the incremental search with its three-byte overlap is the naive search of everything read |
| `HttpHead.OutcomeMeaning` | core/aether/src/socks.rs:1417-1446 | head and pipelined bytes are all bytes read and the head ends at their first blank line; an oversized head without one is refused, a close before one is an error |
| `HttpHead.HeadOfStream` | core/aether/src/socks.rs:1417-1446 | a head found ends at the first blank line of the whole stream |
| `HttpHead.SameHead` | core/aether/src/socks.rs:1417-1446 | two chunkings of one stream that both find a head find the same |
| `HttpHead.HeadFound` | core/aether/src/socks.rs:1417-1446 | however a stream is cut, a head that ends within one byte of the limit is found |
| `HttpHead.FoundExactly` | core/aether/src/socks.rs:1417-1446 | every way of cutting a stream finds its head exactly when the first blank line ends within one byte of the limit; beyond it the outcome depends on the cuts |
| `Sni.FindHost` | core/aether/src/sniff.rs:150-183 | the inner loop finds the first host name entry of a list |
| `Sni.ToExtensions` | core/aether/src/sniff.rs:114-150 | the cursor skips the fixed part and the three vectors, or reports a truncated message |
| `Sni.FindSni` | core/aether/src/sniff.rs:114-183 | the nested loops find the specified name |
| `Sni.NameIsStable` | core/aether/src/sniff.rs:114-183 | a name located in a buffer is located in every extension of it |
| `Sni.SniIsStable` | core/aether/src/sniff.rs:114-183 | so is the name reported, for every notion of a plausible host |
| `Sni.FindsFirstHost` | core/aether/src/sniff.rs:114-183 | for every ClientHello and whatever follows it the first host name entry is found; in a message without one, whatever the bytes that follow read as |
| `Sni.CutListGivesUp` | core/aether/src/sniff.rs:160-183 | a server name list that ends in a cut entry ends the search; one with less than an entry's header left over does not |
| `Sni.ShortListGivesUp` | core/aether/src/sniff.rs:160-183 | so does a list too short for its own length |
| `Sni.OnlyInClientHello` | core/aether/src/sniff.rs:114-125 | a name is found only in a handshake record that starts with a ClientHello |
| `Sni.NamelessExactly` | core/aether/src/sniff.rs:114-183 | a message without a name is reported as such exactly when the bytes behind it do not read as extensions with one |
| `Sni.NameBehindIsReported` | core/aether/src/sniff.rs:148-183 | a name in a server name extension behind the message is reported |
| `InternetChecksum.FoldClosedForm` | core/aether/src/exitip.rs:148-153 | folding is arithmetic modulo 65535 in which only zero is represented by zero |
| `InternetChecksum.SumInto` | core/aether/src/exitip.rs:136-146 | the carried 32-bit sum grows by the sum of the 16-bit words, modulo 2^32 |
| `InternetChecksum.FoldDown` | core/aether/src/exitip.rs:148-153 | the fold loop computes the complement of the folded sum |
| `InternetChecksum.OnesComplement` | core/aether/src/socks_upstream.rs:33-47 | the loops compute the complement of the folded 32-bit sum |
| `InternetChecksum.Ipv4HeaderChecksum` | core/aether/src/masque.rs:334-348 | the loops compute the same checksum |
| `InternetChecksum.ShortIsExact` | core/aether/src/socks_upstream.rs:33-47 | below 128 kilobytes the 32-bit sum loses nothing: the checksum is that of RFC 1071 |
| `InternetChecksum.WidthExactly` | core/aether/src/socks_upstream.rs:33-47 | exactly which sums a 32-bit accumulator gets right |
| `InternetChecksum.StoredVerifies` | core/aether/src/socks_upstream.rs:33-52 | storing a checksum in its zeroed aligned field makes the buffer verify, also with the UDP substitution |
| `InternetChecksum.PiecewisePseudo` | core/aether/src/exitip.rs:160-202 | summing the pseudo-header in pieces equals summing the assembled buffer |
| `InternetChecksum.SegmentVerifies` | core/aether/src/socks_upstream.rs:55-79 | a segment filled from its pseudo-header sum verifies |
| `UdpPacket.StampHeader` | core/aether/src/exitip.rs:160-202 | the header verifies and its other fields are as laid out |
| `UdpPacket.FillSegment` | core/aether/src/exitip.rs:160-202 | the segment verifies under its pseudo-header, nothing else changes and the field is never zero |
| `UdpPacket.Build` | core/aether/src/exitip.rs:160-233 | for every payload the header verifies, the segment verifies if its length fits 16 bits, and the payload is recovered exactly then |
| `UdpPacket.LongPayloadIsLost` | core/aether/src/exitip.rs:206-233 | a payload of 65528 bytes is announced with length zero and refused |
| `UdpPacket.PayloadRecovered` | core/aether/src/exitip.rs:206-233 | for every IPv4 header, with or without options, the payload is recovered exactly if the segment length fits 16 bits |
| `UdpPacket.OneFlow` | core/aether/src/exitip.rs:206-233 | a packet is accepted for one sender and pair of ports at most, and only if it is UDP and no later fragment |
| `WireguardLoop.Reconnector.CoolDown` | core/aether/src/main.rs:2377-2395 | after two failures the endpoint cools down and the counter restarts |
| `WireguardLoop.Reconnector.Pick` | core/aether/src/main.rs:2397-2509 | quick start, last good endpoint, pin, hunt: the choice of `WireguardLoop.NextAttempt` |
| `WireguardLoop.Reconnector.Iterate` | core/aether/src/main.rs:2377-2559 | one turn of the loop has the specified effect |
| `WireguardLoop.Reconnector.RunLoop` | core/aether/src/main.rs:2377-2559 | the loop is the run of its turns |
| `WireguardLoop.NoPrematureAttempt` | core/aether/src/main.rs:2377-2559 | in every run no endpoint other than the pin is tunnelled while its cooldown is running |
| `WireguardLoop.PrematureExactly` | core/aether/src/main.rs:2377-2559 | in every run a turn tunnels an endpoint that is still cooling exactly when it chooses the pin while the pin is in the table of cooldowns |
| `WireguardLoop.NextAttempt` | core/aether/src/main.rs:2382-2559 | in every run the next attempt is the last endpoint while it verifies and has failed once, else the pin while it passes, else what the scan finds outside the endpoints still cooling; and the count of failures in a row |
| `WireguardLoop.QuickStartFirst` | core/aether/src/main.rs:2397-2399 | a verified quick start is the first attempt |
| `WireguardLoop.TwoFailuresCool` | core/aether/src/main.rs:2383-2395 | in every run two failures in a row send the endpoint to cool down at the start of the next turn |
| `WireguardLoop.ExcludesExactly` | core/aether/src/main.rs:2383-2395 | the endpoints excluded are exactly those with a cooldown still running |
| `WireguardLoop.TripleIsSpacedOrEarly` | core/aether/src/main.rs:2377-2559 | in every run three attempts in a row on one endpoint span a cooldown, or one of the last two was made while it was cooling |
| `WireguardLoop.ThreeInARowTakeACooldown` | core/aether/src/main.rs:2510-2559 | in every run three attempts in a row on any endpoint but the pin span a cooldown |
| `WireguardLoop.PinIgnoresCooldown` | core/aether/src/main.rs:2397-2430 | a pinned endpoint is tunnelled three times in a row, the last time while cooling |
| `MasqueInMasqueLoop.Reconnector.Iterate` | core/aether/src/main.rs:3721-3829 | one turn of the loop has the specified effect |
| `MasqueInMasqueLoop.ScansArePaidFor` | core/aether/src/main.rs:3721-3829 | in every run successful outer scans are at most 1 + failures / 2 and the counter at most 2 |
| `MasqueInMasqueLoop.SessionCounts` | core/aether/src/main.rs:3766-3826 | in every run what a session leaves behind: the failure counter, the remembered inner edge, the outer edge and the number of scans |
| `MasqueInMasqueLoop.TwoFailuresRescan` | core/aether/src/main.rs:3735-3826 | in every run two outer failures in a row bring a scan, repeated until it succeeds and supplies the edge |
| `MasqueInMasqueLoop.CachedEdgeFirst` | core/aether/src/main.rs:3729-3746 | a run starts with the cached edge, without a scan |
| `MasqueInMasqueLoop.ReturnsExactly` | core/aether/src/main.rs:3772-3788 | in every run the loop returns exactly when an outer edge was chosen and no inner candidate is known |
| `MasqueInMasqueLoop.InnerFailuresKeepTheEdge` | core/aether/src/main.rs:3721-3829 | no number of turns without an outer failure rescans a chosen edge or raises the counter |

## Left out

- AnyTLS replies: what the receiver writes back (settings answer, heartbeat, padding update, FIN) is not part of the reader's model, nor is the client's receiving direction.
- SessionReader.ServerSession.HandleFrame: a reply that fails is the session being closed before the next turn.
- SessionReader.ServerSession.RecvLoop: others act before a turn; a close that comes between reading a frame and handling it is placed before the read.
- SessionReader.ServerSession.CloseStream: the FIN sent to the peer is not recorded, only whether it could be sent.
- Padding schemes as text: splitting a scheme into lines and drawing random numbers are inputs of `PaddingScheme.Generate`.
- PaddingScheme.Generate: requires each random draw to lie within its range, as the random source promises.
- Write failures: after a failed write the connection is taken to be dead, as the session closes on it.
- Stream deadlines, and the session's own idle timers: deadlines appear only in the pipe, as events that may happen at any time.
- Pool steps: each hook and each stream creation is one step; the gap between checking for a closed pool and inserting is not modelled.
- tun2socks connections are modelled per incarnation of one source port; the port-keyed table that holds several, and the byte layout of `send_tcp_ex`, are not.
- TcpBridge.UpstreamIsPrefix: ranges over runs whose segments are shorter than 2^31 and not aliased, the exact condition of `TcpReceiver.RefinesExactly`.
- TcpBridge.OutputIsSound: ranges over the same runs.
- TcpBridge.AckNeverRetreats: ranges over the same runs.
- DnsCache.RepliesAreFreshLookups: an upstream answer and its insertion are one step.
- Steps of the TCP bridge: finding the entry still connecting and storing the sequence number are one step, as are publishing the entry and spawning the reader.
- Writes to the TUN device: the segments of the TCP bridge are those handed to the writer; a write that fails is lost, and the sequence number advances over it.
- The TCP engine under the network stack: its sockets change state, receive and accept arbitrarily, and `close` leads to an arbitrary state given as a parameter; the wire format of packets and `flush_tx` are not modelled.
- Netstack.NetStack.ServiceTcp: the service loop visits any given sequence of ids, standing for the hash map's order.
- UDP sends through the network stack: handing a datagram to a socket leaves no trace in the model; a UDP socket goes, with what it has queued, only when the application closes it.
- Data written to a connection that has been removed is ignored, as in the source, and not recorded.
- `plausible_host` is a parameter of the name parser, so its rules for host names are not modelled.
- Overflow checks: 32-bit sums wrap, as in a release build; a debug build would panic instead.
- WireGuard hunts are inputs; they are taken to honour the set of excluded endpoints.
- The rest of `main.rs`, and TLS, QUIC, HTTP/2, account, configuration, DNS steering, routing and the command-line tools: drivers over libraries, or single steps that would only add easy members.
- Wall-clock time is an integer supplied to each step.
