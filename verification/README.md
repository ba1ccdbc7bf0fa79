# gophermc, modelled in Dafny

gophermc is a Minecraft client library that speaks every protocol version from 1.7 on. This project
models what is hard about it and proves it, for all inputs, runs and schedules:

* the wire codec: VarInts, bounded strings, counted and nested lists, the version-gated packets
  (`wire.dfy`, `streams.dfy`, `packets.dfy`, `packet_laws.dfy`, `packet_fields.dfy`, `codec.dfy`);
* framing with its three layouts, and one read or write of the connection (`framing.dfy`, `conn.dfy`);
* the registry as a cache, its shipped tables, the search for a version by name, and the generator of
  the tables (`registry.dfy`, `tables.dfy`, `versions.dfy`, `generator.dfy`, `shipped.dfy`);
* joining a server: the login and configuration state machine, as a recursive specification, an
  imperative client that refines it, and the laws of every run (`session.dfy`, `client.dfy`,
  `traces.dfy`, `join_laws.dfy`), the verdict read off the trace (`verdicts.dfy`), the join as the server
  sees it (`server_side.dfy`), and when a server can panic it (`panics.dfy`);
* agreement on compression between server and client while frames are in flight (`compression.dfy`);
* concurrent writers on one socket (`writers.dfy`);
* the read loop, its events and its shutdown (`listening.dfy`, `events.dfy`).

`dafny verify dfyconfig.toml` checks everything.

## How it is built

Code that changes things step by step is imperative here too: `Streams.Reader` and `Streams.Writer`
are a stream with a cursor and a buffer that grows, `Connection.Conn` and `Client.Client` have the
fields of the Go structs, and their methods have the loops of the Go functions. Each method is proved
against a function on values (`Wire`, `Packets`, `Framing`, `Session`, `Listening`), and the laws are
lemmas about these functions. A decoder is a function from the unread bytes to a value and the rest,
an error, or a panic (Go's `make` with a negative count). Runs of several goroutines are sequences of
states, one atomic step apart, and their laws hold of every state of every such sequence.

The compression library is any pair of functions with `inflate(deflate(d)) == d`, and SHA-1 any
function to 20 bytes. The inbound stream, the outcome of dialling, the clock reading of a ping, the
trailer that chat signing produces and the moment of cancellation are parameters.

Some things the code does that its shape does not suggest, each with its exact condition: a login
start with the nil UUID cannot be read by servers of 1.19.2 to 1.20, but `SendLogin` never sends one
(`PacketLaws.LoginStartRoundTrip`, `JoinLaws.LoginStartRead`); the ready event need not be the first
event, and with an unbuffered channel that nobody else reads JoinAndListen never returns
(`Events.ReadyReceivedFirst`, `Events.UnbufferedNeverReturns`); a version asked for without a patch can be older than one asked for
with a patch (`Versions.ShortFindsMost`); a negative list count panics the process
(`PacketLaws.FlagsAndPacksPanic`), which a server can make happen while a client joins from 1.20.2 on
and not before (`Panics.ServerCanPanic`); the generated tables depend on map iteration order when two
Minecraft names resolve alike (`Generator.IndependentUnlessClash`).

## Model

| member | source | states |
|---|---|---|
| `Wire.VarIntRoundTrip` | protocol/protocol.go:35-61 | Reading what was written gives back the same int32 and leaves the bytes behind it, for all 2^32 values and any bytes behind. |
| `Wire.VarIntAccepts` | protocol/protocol.go:47-61 | On arbitrary bytes a VarInt is accepted if and only if one of the first five bytes has its high bit clear. |
| `Wire.VarIntMinimal` | protocol/protocol.go:47-61 | An accepted VarInt is the two's-complement reading of its seven-bit digits modulo 2^32 (so over-long spellings are accepted and high bits of a fifth byte are dropped), and no accepted spelling is shorter than the written one. |
| `Wire.VarIntSize` | protocol/protocol.go:35-45 | A written VarInt has one to five bytes. |
| `Wire.VarIntPrefixFree` | protocol/protocol.go:35-45 | No written VarInt is a prefix of the written form of another value. |
| `Streams.Reader.ReadVarInt` | protocol/protocol.go:47-61 | The accumulating loop, with its 32-bit wrap-around, returns the closed-form value, leaves exactly the bytes behind the group, and says what is consumed on an error. |
| `Streams.Writer.WriteVarInt` | protocol/protocol.go:35-45 | The shifting loop appends exactly the written form, one byte at a time. |
| `Wire.BytesRoundTrip` | protocol/protocol.go:63-96 | A byte string or string survives the round trip if and only if it has at most 2097152 bytes. |
| `Streams.Reader.ReadBytes` | protocol/protocol.go:66-88 | Negative and oversized lengths and short reads are errors; what is left unread is fixed in every case, errors included. |
| `Streams.Writer.WriteBytes` | protocol/protocol.go:63-96 | The length goes through an int32 conversion, then the bytes follow. |
| `Streams.Reader.ReadFull` | protocol/protocol.go:74-88 | All or nothing: a short read consumes the rest and fails. |
| `Wire.LongRoundTrip` | protocol/protocol.go:115-123 | Every int64 survives the round trip. |
| `Wire.LongCanonical` | protocol/protocol.go:115-123 | Every eight bytes are the written form of the number they are read as. |
| `Streams.Reader.ReadLong` | protocol/protocol.go:115-119 | Reads eight big-endian bytes as two's complement, or fails. |
| `Wire.UShortRoundTrip` | protocol/protocol.go:125-133 | Every port number survives the round trip. |
| `Streams.Reader.ReadUShort` | protocol/protocol.go:125-129 | Reads two big-endian bytes, or fails with everything consumed. |
| `Streams.Reader.ReadBool` | protocol/protocol.go:135-138 | Any non-zero byte is true; on an error the value is false. |
| `Wire.ListRoundTrip` | protocol/packets.go:217-272 | For any element codec that inverts its encoder on the list's elements, the counted list decoder recovers a list of any size and leaves the bytes behind it. |
| `Packets.UUIDTextRoundTrip` | protocol/protocol.go:21-34 | A UUID written in hexadecimal, with or without dashes (section 3 of RFC 4122), is parsed back. |
| `Codec.ReadStringUUID` | protocol/protocol.go:21-34 | The string is read first, then parsed; either may fail. |
| `Packets.LoginSuccessRoundTrip` | protocol/packets.go:139-185 | For every version, both UUID spellings, any number of properties with optional signatures and any strict flag, decoding recovers UUID and name and consumes exactly the encoding. |
| `Codec.DecodeLoginSuccess` | protocol/packets.go:139-185 | The version-gated steps, with the property loop, do what the reference decoder says. |
| `Codec.DecodeExtras` | protocol/packets.go:154-177 | The property loop of login success reads and drops any number of properties; a non-positive count reads none. |
| `PacketLaws.KnownPacksRoundTrip` | protocol/packets.go:217-272 | The clientbound decoder inverts the serverbound encoder for any number of packs, leaving what follows unread. |
| `Codec.DecodeKnownPacks` | protocol/packets.go:248-272 | The filling loop, with the panic on a negative count. |
| `Codec.EncodeKnownPacks` | protocol/packets.go:217-236 | The writing loop appends count and packs in order. |
| `PacketLaws.FeatureFlagsRoundTrip` | protocol/packets.go:593-608 | Any list of any bounded strings is recovered, with the trailing bytes unread. |
| `Codec.DecodeFeatureFlags` | protocol/packets.go:593-608 | The filling loop, with the panic on a negative count. |
| `PacketLaws.UpdateTagsRoundTrip` | protocol/packets.go:628-671 | Registries of tags of entries, three counted lists deep, are recovered at any sizes, with the trailing bytes unread. |
| `Codec.DecodeUpdateTags` | protocol/packets.go:628-671 | The outermost of the three nested loops. |
| `Codec.DecodeRegistryTag` | protocol/packets.go:636-669 | The middle loop. |
| `Codec.DecodeTag` | protocol/packets.go:649-668 | The innermost loop. |
| `PacketLaws.FlagsAndPacksPanic` | protocol/packets.go:248-272 | The known-packs and feature-flags decoders panic if and only if the count is readable and negative. |
| `PacketLaws.UpdateTagsPanics` | protocol/packets.go:628-671 | The update-tags decoder panics if and only if a count is negative, on any of its three levels, at a place the reading comes to. |
| `PacketLaws.PacketPanics` | protocol/packets.go:37-683 | No other decoder panics, but for that of the serverbound keep-alive, which always does. |
| `PacketLaws.FlatListPanics` | protocol/packets.go:593-608 | A list of elements whose decoder does not panic panics if and only if its count is readable and negative. |
| `PacketLaws.SettingsRoundTrip` | protocol/packets.go:468-531 | From 1.9 on a reader of the same version recovers all six settings, with what follows unread. |
| `PacketLaws.SettingsPrefix` | protocol/packets.go:468-531 | For 1.8 <= v <= w the bytes for v are a prefix of those for w. |
| `Codec.EncodeSettings` | protocol/packets.go:468-531 | The version-gated writes append exactly the layout the laws are about. |
| `PacketLaws.LoginStartRoundTrip` | protocol/packets.go:83-108 | A server reads back the name, and a UUID exactly from 1.19.2 on, if and only if the nil UUID is not given to a version from 1.19.2 to 1.20. |
| `PacketLaws.OfflineUUIDBits` | protocol/types.go:45-54 | Whatever the hash, the version bits are 3 and the variant bits 10 (sections 4.1.3 and 4.1.1 of RFC 4122), so the result is never nil; the other 122 bits are those of the hash. |
| `JoinLaws.LoginStartRead` | client.go:464-483 | What SendLogin sends, any server of that version reads back, for every configured name and UUID: the derived UUID makes the exception of the encoder unreachable. |
| `ServerSide.LoginUUIDDerived` | protocol/types.go:45-54 | A user without a UUID logs in, from 1.19.2 on, with the bits of SHA-1 over OfflinePlayer: and the name, version and variant bits apart; any other user, and any other version, with the UUID given. |
| `Codec.EncodeLoginStart` | protocol/packets.go:83-108 | The gated writes append the layout the round trip is about. |
| `PacketLaws.KeepAliveEcho` | protocol/packets.go:441-459 | For every version and every accepted body, the answer decodes to the same ID and is no longer than what was read: the int32 narrowing below 1.12.2 loses nothing. |
| `Codec.DecodeKeepAlive` | protocol/packets.go:441-453 | A long from 1.12.2 on, a VarInt before. |
| `Codec.EncodeKeepAlive` | protocol/packets.go:454-459 | A long from 1.12.2 on, the low 32 bits as a VarInt before. |
| `Codec.Decode` | protocol/packets.go:37-687 | Decoding into a value of any packet type, step by step on a reader, gives the packet, the error or the panic the reference decoder gives. |
| `Codec.EncodePacket` | protocol/packets.go:31-582 | Encoding any packet the client sends appends its layout and nothing else; the trailer of a chat message is given. |
| `PacketFields.SetCompressionRead` | protocol/packets.go:120-128 | For every version and every threshold, a compression packet written as a VarInt is read as that threshold, with what follows unread. |
| `PacketFields.SetCompressionDecoded` | protocol/packets.go:125-128 | And on arbitrary bytes it is read if and only if they start with a VarInt, as that number, whatever its spelling. |
| `PacketFields.LongsRead` | protocol/packets.go:72-453 | Configuration keep-alive, pong and, from 1.12.2 on, keep-alive: every int64 written is the one read. |
| `PacketFields.LongsSentRead` | protocol/packets.go:65-210 | Likewise for the ping and the configuration keep-alive the client sends. |
| `PacketFields.IntsRead` | protocol/packets.go:309-453 | Configuration ping: every int32 in four bytes; keep-alive before 1.12.2: every int32 as a VarInt. |
| `PacketFields.NumbersCutShort` | protocol/packets.go:65-453 | Too few bytes for the number of such a packet are an error. |
| `PacketFields.TextsRead` | protocol/packets.go:57-342 | Disconnect, status response and cookie request are read as the text written, for every text within the bound. |
| `PacketFields.TextsSentRead` | protocol/packets.go:110-436 | Likewise for chat message and login start, of which only the first string is read. |
| `PacketFields.CustomPayloadRead` | protocol/packets.go:554-583 | In both directions channel and content come back, the content being all that is left; but if the data does not end cleanly it is an error. |
| `PacketFields.RegistryDataRead` | protocol/packets.go:673-687 | Registry and content come back, with what follows unread. |
| `PacketFields.LoginSuccessRead` | protocol/packets.go:139-185 | Decoding the packet type gives user name and UUID of any well-sized login success of any version. |
| `PacketFields.HandshakeDecoded` | protocol/packets.go:37-45 | The decoder of the handshake gives all four fields of what its encoder writes. |
| `PacketFields.ClientboundReadsBack` | protocol/packets.go:54-583 | Every clientbound packet that has an encoder is decoded as itself. |
| `PacketFields.SentReadsBack` | protocol/packets.go:31-582 | A reader of the layouts a server of the same version expects recovers, from the encoding of any packet the client sends, every field that this version carries, and leaves nothing over: protocol number, address, port and next state, ping and keep-alive IDs, name and UUID, packs, cookie key and data, settings, channel and content, message and trailer. |
| `Framing.FrameRoundTrip` | protocol/conn.go:74-158 | For every non-empty payload below 2^31 bytes, every threshold and any bytes behind, unframing gives the payload and leaves exactly those bytes, if and only if the laid-out body's length fits an int32. |
| `Framing.BodyOpens` | protocol/conn.go:74-158 | The stored marker 0 is never taken for a compressed body, at any threshold including 0 and negative ones. |
| `Framing.BodyLayout` | protocol/conn.go:143-155 | Which layout a payload gets: itself below threshold 0; otherwise a data length, which is 0, with the payload stored behind it, if and only if the payload is shorter than the threshold, and else its length, with the compressed form behind it. |
| `Framing.ReceiveFrame` | protocol/conn.go:55-121 | A whole frame at the head of the stream is read as its payload is understood in the current state, and the stream is left behind it. |
| `Framing.ReceiveResynchronises` | protocol/conn.go:55-121 | Whenever prefix and body are there, a read consumes exactly prefix plus max(0, length) bytes whatever it returns, and a length that is not positive is an error. This restates how the reference read cuts a frame; that the code reads so is `Connection.Conn.ReadPacket`, and what follows for a sequence of reads is the next row. |
| `Framing.ReadsStayInStep` | protocol/conn.go:55-121 | The k-th read sees the k-th frame, whatever the reads before it returned and whatever states and thresholds they ran under. |
| `Framing.JoinedCuts` | protocol/conn.go:55-78 | Concatenated frames are cut into their bodies again, with any bytes behind them. |
| `Framing.Receive` | protocol/conn.go:55-121 | Every read of a non-empty stream strictly shortens it, the measure on which the login, configuration and read loops all terminate; a read at the end fails. |
| `Connection.Conn.constructor` | protocol/conn.go:32-39 | A new connection is in handshaking, uncompressed, with nothing sent or heard. |
| `Connection.Conn.ReadPacket` | protocol/conn.go:55-121 | One call does to the connection what the reference read does: outcome, unread bytes, trace, and nothing else. |
| `Connection.Conn.ReadBody` | protocol/conn.go:74-98 | The compression branches on the buffered frame. |
| `Connection.Conn.ReadData` | protocol/conn.go:100-120 | Packet ID, registry lookup and decoding, with the unknown-packet outcome. |
| `Connection.Conn.WritePacket` | protocol/conn.go:123-167 | Fails without an ID and then writes nothing; otherwise the wire grows by exactly one frame in the current state and threshold. |
| `Connection.Conn.WriteFrame` | protocol/conn.go:141-160 | Length prefix byte by byte, then the laid-out body. |
| `Connection.Conn.SetState` | protocol/conn.go:45-47 | Changes the state, and nothing else. |
| `Connection.Conn.SetCompression` | protocol/conn.go:49-51 | Changes the threshold, and nothing else. |
| `Registry.NearestIsGreatest` | protocol/registry.go:18-28 | The downward search answers with the greatest registered version in [0, v], or with nothing if and only if there is none. |
| `Registry.CachedKeeps` | protocol/registry.go:21-24 | Writing one answer back changes no other answer. |
| `Registry.MemoisedLookup` | protocol/registry.go:18-28 | After any sequence of lookups on any initial registry, every lookup answers as on the initial one. |
| `Registry.Store.GetDefinition` | protocol/registry.go:18-28 | The scan terminates, answers from the initial registry and changes at most the one cache entry. |
| `Registry.Store.NewPacket` | protocol/registry.go:30-46 | The lookup has no answer without a definition, an entry or a constructor, and is independent of earlier lookups. |
| `Registry.Store.GetPacketID` | protocol/registry.go:48-62 | Likewise for outgoing packets. |
| `Tables.NearestGenerated` | protocol/generated_registry.go:7-4322 | The search over the shipped registry: each released version answers for itself, any later number for the latest. |
| `Tables.TablesInverse` | protocol/generated_registry.go:7-4322 | The two tables of every state, direction and version are each other's inverse. |
| `Tables.GeneratedWellFormed` | protocol/generated_registry.go:7-4322 | For every version from the first on the tables hold all a session needs: every packet the client sends in a state, replies wherever the requests are, and neither join-game nor keep-alive in any login table. |
| `Tables.ConfigurationSends` | protocol/generated_registry.go:3055-3077 | The known-packs and cookie replies have IDs exactly from 1.20.5 on, the other configuration packets exactly from 1.20.2 on. |
| `Client.Client.Close` | client.go:87-97 | The connection, if there is one, is closed and forgotten. |
| `Client.Client.Connect` | client.go:72-85 | An old connection is closed first; success gives a fresh connection, failure none. |
| `Client.Client.SendHandshake` | client.go:449-462 | An error without a connection; the protocol number comes from the registry, and without one the call panics. |
| `Client.Client.SendLogin` | client.go:464-483 | An error without a connection, and no send without a username; from 1.19.2 on a derived UUID stands in for the nil one. |
| `Client.Client.Join` | client.go:172-228 | For every inbound byte stream, result, final connection state, unread bytes and all traces equal the recursive specification; the loop terminates. |
| `Client.Client.LoginPhase` | client.go:187-228 | The login loop refines its specification. |
| `Client.Client.ReactToLogin` | client.go:197-226 | The type switch of the login loop, one case at a time. |
| `Client.Client.Accepted` | client.go:204-215 | Login success: acknowledgement and configuration from 1.20.2 on, straight to play before. |
| `Client.Client.HandleConfiguration` | client.go:355-437 | The configuration loop refines its specification. |
| `Client.Client.TakeConfigurationPacket` | client.go:360-436 | One turn: an unknown packet is skipped, an error returns, finish leads to play. |
| `Client.Client.Answer` | client.go:372-432 | The replies of the type switch, in order, stopping at the first that fails. |
| `Client.Client.GetStatus` | client.go:115-146 | The status query refines its specification, and hands back the text of the response exactly when the ping succeeds too. |
| `Client.Client.SendClientSettings` | client.go:501-509 | An error without a connection, otherwise one send of the settings. |
| `Client.Client.Ping` | client.go:148-170 | An error without a connection; one ping, one read, success only on a pong. |
| `Client.Client.Chat` | client.go:252-268 | Sends in the play state; without a connection or in any other state it fails and touches nothing. |
| `Client.Client.HandlePacket` | client.go:320-353 | The echo, the events and the cancellation of one packet. |
| `Client.Client.ReadLoop` | client.go:291-318 | The loop terminates on the shrinking stream, and world and events after it are those of its specification, never cancelled from outside or at whatever turn. |
| `JoinLaws.JoinGood` | client.go:172-437 | The invariant of every run over a well-formed registry, with everything Join sends determined by the state it reached: login packets only; plus settings before 1.20.2; plus acknowledgement, settings and the answers from 1.20.2 on. |
| `JoinLaws.JoinStates` | client.go:172-228 | States only move handshaking, login, configuration (if and only if from 1.20.2 on), play; a nil result means play and only that; join-game is never read during login, so its early return is unreachable. |
| `JoinLaws.NoUnmappedSend` | protocol/conn.go:127-130 | On every run of Join over the shipped registry, for every version and every server, each packet given to WritePacket has an ID in the state of that moment. |
| `JoinLaws.JoinThreshold` | client.go:198-199 | The final threshold is the last one received during login, or -1, and everything after login was sent and received under it. |
| `JoinLaws.JoinTrace` | client.go:172-437 | On every run that gets past login the packets sent are handshake, login start, settings and nothing else before 1.20.2; from then on handshake, login start, acknowledgement, settings, and the in-order concatenation of the replies to what was read. |
| `JoinLaws.JoinAnswers` | client.go:372-416 | From 1.20.2 on, on every run that gets past login, configuration keep-alive IDs are echoed in order; finish-configuration is sent once per known-packs request from 1.21.3 on, and before that once on success and otherwise never. |
| `ServerSide.JoinAnswersDue` | client.go:372-432 | On every run that gets past login, what was sent in configuration besides settings and finish packets is, in order, what was called for: a keep-alive with the same ID, the brand for the channel minecraft:brand, an empty list of packs for known packs, no data for the key of a cookie request. |
| `Verdicts.JoinVerdict` | client.go:187-437 | Which verdict Join returns, read off the trace: the last read ends Join and no earlier one does, where a failure, a panic, a disconnect, an unknown packet in login, and the server's admission (login success before 1.20.2, finish in configuration from then on) end it; nil if and only if the last read is an admission, a panic if and only if it crashed, an error otherwise. Reads are in login up to the acceptance and in configuration after it. |
| `Verdicts.UnknownSkipped` | client.go:363-365 | A packet of an unknown type ends Join with an error in login; in configuration Join reads on. |
| `Panics.ServerCanPanic` | client.go:355-437 | Over the shipped registry some server input panics Join if and only if the version is 1.20.2 or later and there is a user name. |
| `Panics.FatalJoin` | client.go:355-437 | Such an input: an uncompressed login success, then feature flags with a count of -1. |
| `Panics.PanicsOnPayload` | client.go:172-437 | Against a server that frames its payloads under its threshold of the moment, Join panics if and only if the last payload it read is, after login, feature flags or known packs with a negative count. |
| `Panics.ShippedCrashes` | protocol/conn.go:100-118 | Over the shipped registry a payload panics in some state if and only if its ID stands there for feature flags or known packs and the count is negative; in login none does. |
| `JoinLaws.JoinPanics` | client.go:172-437 | For any registry: Join panics if and only if the version has no definition or the last packet read made its decoder panic. |
| `JoinLaws.UnderstandCrashes` | protocol/conn.go:100-118 | A payload panics if and only if its ID stands for a list packet whose body panics, or for the serverbound keep-alive. |
| `JoinLaws.OutputIsFrames` | protocol/conn.go:123-167 | The bytes on the wire are the frames of the mapped packets sent, in order, with nothing between. |
| `JoinLaws.ServerCutsOutput` | protocol/conn.go:123-167 | A server cutting the client's bytes into frames gets one body per packet sent, whatever comes later, if no body is too long for an int32 length. |
| `JoinLaws.ServerOpensOutput` | protocol/conn.go:132-160 | Opening the i-th body under the threshold of that moment gives the ID and the encoding of the i-th packet sent. |
| `ServerSide.ServerReadsJoin` | client.go:172-437 | For every release and any later version number, over the shipped tables, on every run: the i-th frame of Join, opened under the threshold of that moment and read by a server of that version in the state of that moment, is the i-th packet with every field the version carries. |
| `ServerSide.JoinHandshake` | client.go:449-462 | The handshake of a join names the protocol number of the client's release, host and port, and next state 2. |
| `ServerSide.QueryHandshake` | client.go:449-462 | That of a status query names next state 1. |
| `JoinLaws.StatusTrace` | client.go:115-170 | A status query sends handshake and request, and a ping if and only if the first answer is a status response; it succeeds if and only if the second is a pong. |
| `JoinLaws.StatusResult` | client.go:115-146 | Read off the stream: a status query succeeds if and only if the first frame is a status response and the second a pong, and then hands back the text of the first; otherwise it hands back nothing. |
| `JoinLaws.NoUnmappedStatusSend` | client.go:115-170 | Over the shipped registry, for every version, every packet of a status query has an ID in the state of that moment. |
| `JoinLaws.StatusSendsMapped` | client.go:115-170 | The same over any well-formed registry. |
| `Compression.CompressionAgreement` | client.go:187-199 | In every interleaving of a server emitting frames (switching, right after each compression packet of its login phase, to the threshold it wrote) and a client reading and sending, until a read fails, each read so far was of the payload in its turn under the threshold it was framed with, and the rest is in flight, undamaged. |
| `Compression.ServerChooses` | client.go:198-199 | The server's side of it does not depend on the client's decoder: an ID that stands for compression and any number behind it make the server switch to that number, and an ID that stands for login success ends its login. |
| `Compression.ClientReadsChosen` | protocol/packets.go:120-128 | And the client reads the threshold the server wrote. |
| `Compression.ClientReadsAcceptance` | protocol/packets.go:139-185 | And the identity in the login success it wrote. |
| `Compression.ReadsAnnounced` | protocol/conn.go:100-118 | On arbitrary payloads, in login: a compression packet is read if and only if the payload announces one and a number follows, as that number; a login success only if it announces one. |
| `Compression.FlightReadable` | protocol/conn.go:55-96 | In every such interleaving a frame can be read if and only if one is in flight. |
| `Compression.JoinReadsInOrder` | client.go:172-437 | Against any such server, for every version and registry, the i-th read of Join is of the i-th payload under the threshold it was framed with; only a read past the last complete frame fails on the stream. |
| `Writers.WritersNeverInterleave` | protocol/conn.go:123-167 | For any number of callers and any schedule, with state and threshold changing between any two accesses, at most one caller is in the critical section, and the wire holds what the finished calls would have written one after the other in lock order, then a prefix of the lock holder's frame. |
| `Writers.CallersKeepTheirOrder` | protocol/conn.go:123-167 | No call of any thread is lost, repeated or reordered among its own. |
| `Writers.ServerSeesWholeFrames` | protocol/conn.go:123-167 | At any moment a server cutting the wire into frames finds the bodies of the finished calls in lock order. |
| `Writers.StepKeepsExclusive` | protocol/conn.go:124-125 | Every step keeps a thread in the critical section exactly while it holds the mutex. |
| `Writers.SteadyCalls` | protocol/conn.go:127-158 | In a run in which nobody changes state or threshold, every finished call used exactly these. |
| `Listening.ReadLoopReports` | client.go:291-353 | Cancelled at whatever turn or never, and whatever arrives: the events are those of the reads, each keep-alive is echoed and reported in order, at most one disconnect is reported and nothing after it. |
| `Listening.ReadLoopEnds` | client.go:291-318 | Uncancelled, or with more turns than bytes to read, the loop ends by itself, on a read error, a disconnect or a panic, after at most one read per byte and one more; more turns change nothing. |
| `Listening.IdsReported` | client.go:325-332 | The keep-alive IDs reported are exactly those read, in order. |
| `Listening.DisconnectIsLast` | client.go:294-353 | Reads of which only the last may end the loop report at most one disconnect, as the last event. |
| `Compression.ReadInStep` | protocol/conn.go:55-96 | With a frame in flight, a client that agrees with the server reads that payload and leaves the stream at the next frame. |
| `Listening.NoUnmappedPlaySend` | client.go:252-353 | Over the shipped registry, for every version, whatever the read loop sends in the play state has an ID, and so has every chat message. |
| `Listening.PlaySendsMapped` | client.go:320-353 | The same of the read loop over any well-formed registry. |
| `Events.NothingUsedAfterEnd` | client.go:99-109 | Over all interleavings of one JoinAndListen, its reader, its consumer and one Destroy: no send on a closed channel, no second close, no use of a dropped connection, and the reader is done before the channel closes. |
| `Events.OneDisconnect` | client.go:291-353 | In every interleaving the reader has emitted at most one disconnect event, and nothing after it. |
| `Events.KeepAlivesInOrder` | client.go:325-332 | The IDs put on the channel, answered, and received by the consumer are each the IDs read, in order, up to some point; all of them once the reader is done. |
| `Events.ReadyOnce` | client.go:230-250 | The channel keeps the order and loses nothing; the ready event is on it exactly once from the return of JoinAndListen on. |
| `Events.ReadyMayBeLast` | client.go:245-247 | The claim that the ready event comes first is false: for any capacity there is a run whose consumer, with the channel from Events, gets a disconnect before it. |
| `Events.ReadyFirstUnlessReported` | client.go:245-247 | For every capacity and every sequence of outcomes the server causes: the ready event is first on the channel in every run if and only if none of the outcomes is reported as an event. |
| `Events.ReadyReceivedFirst` | client.go:230-250 | For a consumer that has the channel JoinAndListen returns: the ready event is received first in every run if and only if the channel has fewer than two slots or none of the outcomes is reported. |
| `Events.UnbufferedNeverReturns` | client.go:235-249 | With no buffer and such a consumer, JoinAndListen never returns and nothing is ever sent. |
| `Events.OneMoreReadAtMost` | client.go:294-299 | Once cancelled, at most the read under way still completes. |
| `Events.DestroyCancels` | client.go:99-109 | From the moment Destroy waits for the reader, the context is cancelled, in every interleaving. |
| `Events.ReadsTheStream` | client.go:291-318 | In every interleaving over an inbound stream, what the reader has read is the first of what the uncancelled loop reads, and all of it once it is done without Destroy. |
| `Events.ReportsTheStream` | client.go:291-353 | And the events it has put on the channel are the first of those of the uncancelled loop on that stream, and likewise all of them. |
| `Versions.ReleaseReadsBack` | protocol/registry.go:98-122 | Releases written in decimal, with and without a patch, are parsed back. |
| `Versions.VersionFromString` | protocol/registry.go:64-96 | An exact match wins; otherwise, whatever the order of visiting, the version found belongs to an eligible known name with the greatest patch, and none is found if and only if there is no such name or the string is malformed. |
| `Versions.AnswerUnique` | protocol/registry.go:64-96 | Over known names with distinct numbers the answer is independent of the order of map iteration. |
| `Versions.ExactAgrees` | protocol/registry.go:65-94 | For a known three-part name the search finds what the exact match gives, if and only if its patch is not negative. |
| `Versions.AnswerMonotone` | protocol/registry.go:64-96 | For strings with a patch, of any sign, the answer is monotone in the requested patch, exact matches included, if and only if it is not the case that the earlier string is known under a negative patch and nothing is found for the later one. |
| `Versions.ShortFindsMost` | protocol/registry.go:64-96 | A query without a patch finds at least as much as every query of its release with one, if and only if it is unknown or no eligible name of the release has a greater version. |
| `Versions.ShortFindsLess` | protocol/registry.go:65-68 | Over the shipped names that fails: 1.9 is found as itself, and 1.9.4 is newer. |
| `Versions.LaterPatchFindsLater` | protocol/registry.go:75-94 | The search behind the exact match finds at least as much for a later patch, and for no patch in particular. |
| `Versions.ShippedInOrder` | protocol/generated_versions.go:65-109 | The shipped names have distinct numbers and ascend with the version numbers, so both laws apply to them. |
| `Versions.GateReleases` | protocol/generated_versions.go:9-56 | Each version number at which a packet layout changes is that of the release it is named after. |
| `Generator.Contains` | generator/main.go:407-414 | The search loop finds an item if and only if it is there. |
| `Generator.ListedResolves` | generator/main.go:28-470 | All Go names that list a given Minecraft name resolve to one and the same final name, or all to none, in every state and direction. |
| `Generator.SharedDirection` | generator/main.go:417-470 | A Minecraft name that several Go names list always becomes a type of the direction being filled. |
| `Generator.ConfigurationTypes` | generator/main.go:417-470 | Ping, pong, keep-alive and finish become a configuration type in configuration and nowhere else, and nothing else does. |
| `Generator.FinalListed` | generator/main.go:28-59 | Every Minecraft name that stands for something is listed by some Go name. |
| `Generator.EnterName` | generator/main.go:303-322 | The inner loop over the Go names enters the same thing in whatever order they come. |
| `Generator.ProcessDirection` | generator/main.go:291-324 | The outer loop computes the tables of some order of the Minecraft names. |
| `Generator.IdsLeadBack` | generator/main.go:318-319 | Over distinct IDs, names[ids[g]] == g for every entry, in whatever order the maps were visited. |
| `Generator.NamesIndependent` | generator/main.go:291-324 | The table of names does not depend on the order. |
| `Generator.InverseUnlessClash` | generator/main.go:291-324 | The tables are mutual inverses if and only if no two present Minecraft names resolve alike. |
| `Generator.IndependentUnlessClash` | generator/main.go:291-324 | Both tables are independent of the order of map iteration if and only if no two present Minecraft names resolve alike. |
| `Shipped.ShippedGenerated` | protocol/generated_registry.go:7-4322 | For every version, state and direction there is a map of Minecraft names to IDs from which the generator fills exactly the two shipped tables, in whatever order it visits the map. |

## Left out

- `ServerboundChatMessage` signing: foreign cryptography around fixed bytes; the trailer it produces is a parameter.
- `ClientboundChatMessage` and `ServerboundPlayerPosition`: neither has a constructor, so neither can be read or sent; `SetPosition` is left out with them.
- Codec.EncodePacket: does not model what chat signing appends to a message from 1.19 on, but takes it as given.
- Bit operations are written as arithmetic: masking as a remainder, shifting as repeated doubling, or-ing of disjoint bits as a sum, with every 32-bit and 64-bit wrap-around explicit.
- Packet names are an enumeration of the Go packet types instead of strings, and so are the Minecraft names the generator mentions.
- List decoders append to a sequence instead of filling a slice made at full length; running out of memory on a huge count is not modelled.
- Failing writes to the socket: every write succeeds. Read errors are modelled as the end of the inbound stream.
- The reuse of one zlib reader across packets: resetting it and making a new one are taken to behave alike.
- The UUID library is taken to accept the plain, dashed, urn and bracketed spellings.
- Error texts, logging, buffer pooling, contexts and timeouts, dialling and address resolution, client options, `cmd/main.go`.
- JSON chat components, which are on no reachable path.
- Data races on the registry map and on state and threshold: in `Writers` both may change between any two accesses of a writer (which reads the threshold twice), but each single access is atomic.
- A second JoinAndListen on one client, and whether Destroy ever returns: the code guarantees neither.
- The generator's file reading, JSON parsing, template output, `findBestProtoNum` and the sorting of versions.
- Versions.Atoi: characters beyond ASCII are not modelled; none is accepted by either.
- Listening.ReadLoop: cancellation from outside is the number of turns the loop gets, if it ever comes; `Events` has the interleaved version.
- Connection.Conn.WritePacket: does not model failing socket writes or an error of chat signing; it fails only when the packet has no ID.
- Client.Client.GetStatus: does not model the latency, which is the difference of two clock readings.
