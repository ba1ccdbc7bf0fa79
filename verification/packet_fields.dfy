/** What a packet's bytes mean: the fields the client takes from what a server writes, and the fields a
    server takes from what the client writes. */
module PacketFields {
  import opened Wire
  import opened Packets
  import opened PacketLaws

  // ---------------------------------------------------------------- clientbound

  /** A compression packet is a VarInt, whatever its spelling, and its threshold is that number. */
  lemma {:induction false} SetCompressionDecoded(v: int, s: bytes, clean: bool)
    ensures DecodePacket(CSetCompression, v, s, clean) ==
      if DecVarInt(s).Ok? then Ok(ClientboundSetCompression(DecVarInt(s).value), DecVarInt(s).rest) else Fail
  {
  }

  lemma {:induction false} SetCompressionRead(v: int, threshold: int32, rest: bytes, clean: bool)
    ensures DecodePacket(CSetCompression, v, EncVarInt(threshold) + rest, clean) == Ok(ClientboundSetCompression(threshold), rest)
  {
    VarIntRoundTrip(threshold, rest);
    SetCompressionDecoded(v, EncVarInt(threshold) + rest, clean);
  }

  lemma {:induction false} LongsRead(v: int, n: int64, rest: bytes, clean: bool)
    ensures DecodePacket(CConfigKeepAlive, v, EncLong(n) + rest, clean) == Ok(ClientboundConfigKeepAlive(n), rest)
    ensures DecodePacket(CPong, v, EncLong(n) + rest, clean) == Ok(ClientboundPong(n), rest)
    ensures v >= V1_12_2 ==> DecodePacket(CKeepAlive, v, EncLong(n) + rest, clean) == Ok(ClientboundKeepAlive(n), rest)
  {
    LongRoundTrip(n, rest);
  }

  /** The server's side of a ping and of a configuration keep-alive, and what any number packet makes of too
      few bytes. */
  lemma {:induction false} LongsSentRead(v: int, n: int64, rest: bytes, clean: bool)
    ensures DecodePacket(SPing, v, EncLong(n) + rest, clean) == Ok(ServerboundPing(n), rest)
    ensures DecodePacket(SConfigKeepAlive, v, EncLong(n) + rest, clean) == Ok(ServerboundConfigKeepAlive(n), rest)
  {
    LongRoundTrip(n, rest);
  }

  lemma {:induction false} NumbersCutShort(k: Kind, v: int, s: bytes, clean: bool)
    requires IsNumber(k) && |s| < 8
    requires k == CConfigPing ==> |s| < 4
    requires k == CSetCompression || (k == CKeepAlive && v < V1_12_2) ==> s == []
    ensures DecodePacket(k, v, s, clean) == Fail
  {
    assert DecVarInt([]) == Fail;
  }

  lemma {:induction false} IntsRead(v: int, n: int32, rest: bytes, clean: bool)
    ensures DecodePacket(CConfigPing, v, EncInt(n) + rest, clean) == Ok(ClientboundConfigPing(n), rest)
    ensures v < V1_12_2 ==> DecodePacket(CKeepAlive, v, EncVarInt(n) + rest, clean) == Ok(ClientboundKeepAlive(n), rest)
  {
    IntRoundTrip(n, rest);
    VarIntRoundTrip(n, rest);
  }

  lemma {:induction false} TextsRead(v: int, text: bytes, rest: bytes, clean: bool)
    requires Bounded(text)
    ensures DecodePacket(CDisconnect, v, EncBytes(text) + rest, clean) == Ok(ClientboundDisconnect(text), rest)
    ensures DecodePacket(CStatusResponse, v, EncBytes(text) + rest, clean) == Ok(ClientboundStatusResponse(text), rest)
    ensures DecodePacket(CCookieRequest, v, EncBytes(text) + rest, clean) == Ok(ClientboundCookieRequest(text), rest)
  {
    BytesRoundTrip(text, rest);
  }

  /** The server's texts: of a chat message only the text is read, and of a login start only the name. */
  lemma {:induction false} TextsSentRead(v: int, text: bytes, rest: bytes, clean: bool)
    requires Bounded(text)
    ensures DecodePacket(SChatMessage, v, EncBytes(text) + rest, clean) == Ok(ServerboundChatMessage(text, []), rest)
    ensures DecodePacket(SLoginStart, v, EncBytes(text) + rest, clean) == Ok(ServerboundLoginStart(text, NIL_UUID), rest)
  {
    BytesRoundTrip(text, rest);
  }

  /** The repository's own handshake decoder, on what its encoder writes. */
  lemma {:induction false} HandshakeDecoded(protocol: int32, address: bytes, port: uint16, next: int32, v: int, rest: bytes, clean: bool)
    requires Bounded(address)
    ensures DecodePacket(SHandshake, v, Encode(ServerboundHandshake(protocol, address, port, next), v) + rest, clean)
         == Ok(ServerboundHandshake(protocol, address, port, next), rest)
  {
    var s3 := EncVarInt(next) + rest;
    var s2 := EncUShort(port) + s3;
    var s1 := EncBytes(address) + s2;
    var s := EncVarInt(protocol) + s1;
    assert Encode(ServerboundHandshake(protocol, address, port, next), v) + rest == s by {
      Concat4(EncVarInt(protocol), EncBytes(address), EncUShort(port), EncVarInt(next), rest);
    }
    HandshakeFieldsDecoded(protocol, address, port, next, rest, s3, s2, s1, s);
    HandshakeDecoder(SHandshake, v, s, clean, Ok(ServerboundHandshake(protocol, address, port, next), rest));
  }

  lemma {:induction false} HandshakeDecoder(k: Kind, v: int, s: bytes, clean: bool, decoded: Parse<Packet>)
    requires k == SHandshake && decoded == DecodeHandshake(s)
    ensures DecodePacket(k, v, s, clean) == decoded
  {
    assert !IsText(k) && !IsNumber(k) && !IsList(k) && !IsZero(k);
  }

  lemma {:induction false} HandshakeFieldsDecoded(protocol: int32, address: bytes, port: uint16, next: int32, rest: bytes,
      s3: bytes, s2: bytes, s1: bytes, s: bytes)
    requires Bounded(address)
    requires s3 == EncVarInt(next) + rest && s2 == EncUShort(port) + s3 && s1 == EncBytes(address) + s2
    requires s == EncVarInt(protocol) + s1
    ensures DecodeHandshake(s) == Ok(ServerboundHandshake(protocol, address, port, next), rest)
  {
    VarIntRoundTrip(protocol, s1);
    BytesSkipped(address, s2);
    UShortRoundTrip(port, s3);
    VarIntRoundTrip(next, rest);
  }

  /** A custom payload takes everything after its channel, if the data ends cleanly. */
  lemma {:induction false} CustomPayloadRead(v: int, channel: bytes, content: bytes)
    requires Bounded(channel)
    ensures DecodePacket(CCustomPayload, v, EncBytes(channel) + content, true) == Ok(ClientboundCustomPayload(channel, content), [])
    ensures DecodePacket(SCustomPayload, v, EncBytes(channel) + content, true) == Ok(ServerboundCustomPayload(channel, content), [])
    ensures DecodePacket(CCustomPayload, v, EncBytes(channel) + content, false) == Fail
    ensures DecodePacket(SCustomPayload, v, EncBytes(channel) + content, false) == Fail
  {
    BytesRoundTrip(channel, content);
  }

  lemma {:induction false} RegistryDataRead(v: int, registry: bytes, content: bytes, rest: bytes, clean: bool)
    requires Bounded(registry) && Bounded(content)
    ensures DecodePacket(CRegistryData, v, EncBytes(registry) + (EncBytes(content) + rest), clean)
         == Ok(ClientboundRegistryData(registry, content), rest)
  {
    var s := EncBytes(registry) + (EncBytes(content) + rest);
    BytesSkipped(registry, EncBytes(content) + rest);
    BytesSkipped(content, rest);
    RegistryDecoder(v, s, clean, EncBytes(content) + rest);
  }

  lemma {:induction false} RegistryDecoder(v: int, s: bytes, clean: bool, t: bytes)
    requires DecBytes(s).Ok? && SkipBytes(s) == t
    ensures DecodePacket(CRegistryData, v, s, clean) == Ok(ClientboundRegistryData(DecBytes(s).value, DecBytesPadded(t)), SkipBytes(t))
  {
    assert DecodePacket(CRegistryData, v, s, clean) == DecodeRegistryData(s);
  }

  lemma {:induction false} BytesSkipped(d: bytes, rest: bytes)
    requires Bounded(d)
    ensures DecBytes(EncBytes(d) + rest) == Ok(d, rest)
    ensures DecBytesPadded(EncBytes(d) + rest) == d && SkipBytes(EncBytes(d) + rest) == rest
  {
    BytesRoundTrip(d, rest);
    var n := Trunc32(|d|);
    Append2(EncVarInt(n), d, rest);
    VarIntRoundTrip(n, d + rest);
  }

  lemma {:induction false} LoginSuccessRead(v: int, username: bytes, uuid: UUID, dashes: bool,
      props: seq<Property>, strict: bool, rest: bytes, clean: bool)
    requires Bounded(username) && |props| < TWO31
    requires forall p :: p in props ==> BoundedProperty(p)
    ensures DecodePacket(CLoginSuccess, v, EncLoginSuccess(v, username, uuid, dashes, props, strict) + rest, clean)
         == Ok(ClientboundLoginSuccess(username, uuid), rest)
  {
    LoginSuccessRoundTrip(v, username, uuid, dashes, props, strict, rest);
    SuccessDecoder(CLoginSuccess, v, EncLoginSuccess(v, username, uuid, dashes, props, strict) + rest, clean,
      Ok(ClientboundLoginSuccess(username, uuid), rest));
  }

  lemma {:induction false} SuccessDecoder(k: Kind, v: int, s: bytes, clean: bool, decoded: Parse<Packet>)
    requires k == CLoginSuccess && decoded == DecLoginSuccess(v, s)
    ensures DecodePacket(k, v, s, clean) == decoded
  {
    assert !IsText(k) && !IsNumber(k) && !IsList(k) && !IsZero(k);
  }

  /** The packets without fields. */
  lemma {:induction false} BareRead(v: int, s: bytes, clean: bool)
    ensures DecodePacket(CFinishConfiguration, v, s, clean) == Ok(ClientboundFinishConfiguration, s)
    ensures DecodePacket(CJoinGame, v, s, clean) == if clean then Ok(ClientboundJoinGame, []) else Fail
  {
  }

  /** What the client would write of a clientbound packet, it reads back. */
  lemma {:induction false} ClientboundReadsBack(p: Packet, v: int)
    requires Encodable(p) && !IsServerbound(p) && ClientText(p)
    ensures DecodePacket(KindOf(p), v, Encode(p, v), true) == Ok(p, [])
  {
    var s := Encode(p, v);
    assert s + [] == s;
    match p {
      case ClientboundDisconnect(reason) => TextsRead(v, reason, [], true);
      case ClientboundStatusResponse(json) => TextsRead(v, json, [], true);
      case ClientboundCookieRequest(key) => TextsRead(v, key, [], true);
      case ClientboundPong(payload) => LongsRead(v, payload, [], true);
      case ClientboundConfigKeepAlive(id) => LongsRead(v, id, [], true);
      case ClientboundSetCompression(threshold) => SetCompressionRead(v, threshold, [], true);
      case ClientboundConfigPing(number) => IntsRead(v, number, [], true);
      case ClientboundCustomPayload(channel, content) => CustomPayloadRead(v, channel, content);
      case ClientboundFinishConfiguration => BareRead(v, [], true);
    }
  }

  predicate IsServerbound(p: Packet)
  {
    || p.ServerboundHandshake? || p.ServerboundStatusRequest? || p.ServerboundPing? || p.ServerboundLoginStart?
    || p.ServerboundLoginAcknowledged? || p.ServerboundFinishConfiguration? || p.ServerboundConfigKeepAlive?
    || p.ServerboundSelectKnownPacks? || p.ServerboundCookieResponse? || p.ServerboundConfigPong?
    || p.ServerboundChatMessage? || p.ServerboundKeepAlive? || p.ServerboundClientSettings?
    || p.ServerboundCustomPayload?
  }

  predicate ClientText(p: Packet)
  {
    && (p.ClientboundDisconnect? ==> Bounded(p.reason))
    && (p.ClientboundStatusResponse? ==> Bounded(p.json))
    && (p.ClientboundCookieRequest? ==> Bounded(p.key))
    && (p.ClientboundCustomPayload? ==> Bounded(p.channel))
  }

  // ---------------------------------------------------------------- serverbound: the readers of a server

  function ReadHandshake(s: bytes): Parse<Packet>
  {
    var (protocol, s1) :- DecVarInt(s);
    var (address, s2) :- DecBytes(s1);
    var (port, s3) :- DecUShort(s2);
    var (next, s4) :- DecVarInt(s3);
    if port < 0x1_0000 then Ok(ServerboundHandshake(protocol, address, port, next), s4) else Fail
  }

  function ReadLong(make: int64 -> Packet, s: bytes): Parse<Packet>
  {
    var (n, t) :- DecLong(s);
    Ok(make(n), t)
  }

  function ReadLoginStart(v: int, s: bytes): Parse<Packet>
  {
    var (login, t) :- DecLoginStart(v, s);
    Ok(ServerboundLoginStart(login.0, if login.1.Some? then login.1.value else NIL_UUID), t)
  }

  function ReadKnownPacks(s: bytes): Parse<Packet>
  {
    var (packs, t) :- DecList(DecKnownPack, s);
    Ok(ServerboundSelectKnownPacks(packs), t)
  }

  function ReadCookie(s: bytes): Parse<Packet>
  {
    var (key, s1) :- DecBytes(s);
    var (present, s2) :- DecBool(s1);
    if !present then Ok(ServerboundCookieResponse(key, None), s2)
    else
      var (data, s3) :- DecBytes(s2);
      Ok(ServerboundCookieResponse(key, Some(data)), s3)
  }

  function ReadPong(s: bytes): Parse<Packet>
  {
    var (n, t) :- DecInt(s);
    Ok(ServerboundConfigPong(n), t)
  }

  function ReadChat(s: bytes): Parse<Packet>
  {
    var (message, trailer) :- DecBytes(s);
    Ok(ServerboundChatMessage(message, trailer), [])
  }

  function ReadKeepAlive(v: int, s: bytes): Parse<Packet>
  {
    var (id, t) :- DecKeepAlive(v, s);
    Ok(ServerboundKeepAlive(id), t)
  }

  /** The settings as 1.7 has them: a view mode, the colours, the cape bit and a difficulty flag. */
  function ReadFirstSettings(s: bytes): Parse<Packet>
  {
    var (locale, s1) :- DecBytes(s);
    var (view, s2) :- DecByte(s1);
    var (_, s3) :- DecByte(s2);
    var (colors, s4) :- DecBool(s3);
    var (cape, s5) :- DecByte(s4);
    var (_, s6) :- DecBool(s5);
    Ok(ServerboundClientSettings(ClientSettings(locale, view, 0, colors, cape, 0)), s6)
  }

  function ReadSettings(v: int, s: bytes): Parse<Packet>
  {
    if v < V1_8 then ReadFirstSettings(s)
    else
      var (settings, t) :- if v < V1_9 then DecSettingsHead(s) else DecSettings(v, s);
      Ok(ServerboundClientSettings(settings), t)
  }

  function ReadCustomPayload(s: bytes): Parse<Packet>
  {
    var (channel, content) :- DecBytes(s);
    Ok(ServerboundCustomPayload(channel, content), [])
  }

  /** How a server of version v reads the body of a packet of type k. */
  function ServerRead(k: Kind, v: int, s: bytes): Parse<Packet>
  {
    match k
    case SHandshake => ReadHandshake(s)
    case SStatusRequest => Ok(ServerboundStatusRequest, s)
    case SPing => ReadLong((n: int64) => ServerboundPing(n), s)
    case SLoginStart => ReadLoginStart(v, s)
    case SLoginAcknowledged => Ok(ServerboundLoginAcknowledged, s)
    case SFinishConfiguration => Ok(ServerboundFinishConfiguration, s)
    case SConfigKeepAlive => ReadLong((n: int64) => ServerboundConfigKeepAlive(n), s)
    case SSelectKnownPacks => ReadKnownPacks(s)
    case SCookieResponse => ReadCookie(s)
    case SConfigPong => ReadPong(s)
    case SChatMessage => ReadChat(s)
    case SKeepAlive => ReadKeepAlive(v, s)
    case SClientSettings => ReadSettings(v, s)
    case SCustomPayload => ReadCustomPayload(s)
    case _ => Fail
  }

  /** What of a packet version v can carry: no login UUID before 1.19.2, no main hand before 1.9, before
      1.8 neither a chat mode nor more of the skin than the cape, keep-alive IDs of 32 bits before 1.12.2,
      and nothing behind a chat message before 1.19. */
  function Carried(p: Packet, v: int): Packet
  {
    match p
    case ServerboundLoginStart(name, uuid) => ServerboundLoginStart(name, if v >= V1_19_2 then uuid else NIL_UUID)
    case ServerboundKeepAlive(id) => ServerboundKeepAlive(if v >= V1_12_2 then id else ToI32Of64(id) as int64)
    case ServerboundChatMessage(message, trailer) => ServerboundChatMessage(message, if v < V1_19 then [] else trailer)
    case ServerboundClientSettings(c) =>
      ServerboundClientSettings(
        if v >= V1_9 then c else if v >= V1_8 then c.(mainHand := 0)
        else c.(mainHand := 0, chatMode := 0, skinParts := c.skinParts % 2))
    case _ => p
  }

  /** The strings are within the reader's bound, and no nil UUID goes to a version that marks it absent. */
  predicate Legible(p: Packet, v: int)
  {
    match p
    case ServerboundHandshake(_, address, _, _) => Bounded(address)
    case ServerboundLoginStart(name, uuid) => Bounded(name) && !(V1_19_2 <= v < V1_20_2 && uuid == NIL_UUID)
    case ServerboundSelectKnownPacks(packs) => |packs| < TWO31 && forall k :: k in packs ==> SmallPack(k)
    case ServerboundCookieResponse(key, data) => Bounded(key) && (data.Some? ==> Bounded(data.value))
    case ServerboundChatMessage(message, _) => Bounded(message)
    case ServerboundClientSettings(c) => Bounded(c.locale)
    case ServerboundCustomPayload(channel, _) => Bounded(channel)
    case _ => true
  }

  /** A server of version v reads of p all that the version can carry, and nothing is left over. */
  predicate ReadsBack(p: Packet, v: int)
    requires Encodable(p)
  {
    ServerRead(KindOf(p), v, Encode(p, v)) == Ok(Carried(p, v), [])
  }

  lemma {:induction false} HandshakeRead(protocol: int32, address: bytes, port: uint16, next: int32, v: int)
    requires Bounded(address)
    ensures ReadHandshake(Encode(ServerboundHandshake(protocol, address, port, next), v))
         == Ok(ServerboundHandshake(protocol, address, port, next), [])
  {
    var s3 := EncVarInt(next) + [];
    var s2 := EncUShort(port) + s3;
    var s1 := EncBytes(address) + s2;
    assert EncVarInt(next) == s3;
    VarIntRoundTrip(protocol, s1);
    BytesRoundTrip(address, s2);
    UShortRoundTrip(port, s3);
    VarIntRoundTrip(next, []);
  }

  lemma {:induction false} LongSentRead(n: int64, v: int)
    ensures ReadLong((m: int64) => ServerboundPing(m), Encode(ServerboundPing(n), v)) == Ok(ServerboundPing(n), [])
    ensures ReadLong((m: int64) => ServerboundConfigKeepAlive(m), Encode(ServerboundConfigKeepAlive(n), v))
         == Ok(ServerboundConfigKeepAlive(n), [])
  {
    LongRoundTrip(n, []);
    assert EncLong(n) + [] == EncLong(n);
  }

  lemma {:induction false} LoginStartSentRead(name: bytes, uuid: UUID, v: int)
    requires Legible(ServerboundLoginStart(name, uuid), v)
    ensures ReadLoginStart(v, Encode(ServerboundLoginStart(name, uuid), v)) == Ok(Carried(ServerboundLoginStart(name, uuid), v), [])
  {
    LoginStartRoundTrip(name, uuid, v);
  }

  lemma {:induction false} KnownPacksSentRead(packs: seq<KnownPack>, v: int)
    requires Legible(ServerboundSelectKnownPacks(packs), v)
    ensures ReadKnownPacks(Encode(ServerboundSelectKnownPacks(packs), v)) == Ok(ServerboundSelectKnownPacks(packs), [])
  {
    PackListReadsBack(packs, []);
    assert EncList(EncKnownPack, packs) + [] == EncList(EncKnownPack, packs);
  }

  lemma {:induction false} CookieSentRead(key: bytes, data: Option<bytes>, v: int)
    requires Legible(ServerboundCookieResponse(key, data), v)
    ensures ReadCookie(Encode(ServerboundCookieResponse(key, data), v)) == Ok(ServerboundCookieResponse(key, data), [])
  {
    var t := if data.Some? then EncBytes(data.value) else [];
    BytesRoundTrip(key, EncBool(data.Some?) + t);
    assert (EncBool(data.Some?) + t)[1..] == t;
    if data.Some? {
      BytesRoundTrip(data.value, []);
      assert t + [] == t;
    }
  }

  lemma {:induction false} PongSentRead(n: int32, v: int)
    ensures ReadPong(Encode(ServerboundConfigPong(n), v)) == Ok(ServerboundConfigPong(n), [])
  {
    IntRoundTrip(n, []);
    assert EncInt(n) + [] == EncInt(n);
  }

  lemma {:induction false} ChatSentRead(message: bytes, trailer: bytes, v: int)
    requires Bounded(message)
    ensures ReadChat(Encode(ServerboundChatMessage(message, trailer), v)) == Ok(Carried(ServerboundChatMessage(message, trailer), v), [])
  {
    BytesRoundTrip(message, if v < V1_19 then [] else trailer);
  }

  lemma {:induction false} KeepAliveSentRead(id: int64, v: int)
    ensures ReadKeepAlive(v, Encode(ServerboundKeepAlive(id), v)) == Ok(Carried(ServerboundKeepAlive(id), v), [])
  {
    if v >= V1_12_2 {
      LongRoundTrip(id, []);
      assert EncLong(id) + [] == EncLong(id);
    } else {
      VarIntRoundTrip(ToI32Of64(id), []);
      assert EncVarInt(ToI32Of64(id)) + [] == EncVarInt(ToI32Of64(id));
    }
  }

  lemma {:induction false} FirstSettingsRead(c: ClientSettings, v: int)
    requires Bounded(c.locale) && v < V1_8
    ensures ReadFirstSettings(EncSettings(c, v)) == Ok(Carried(ServerboundClientSettings(c), v), [])
  {
    var s5 := EncBool(true) + [];
    var s4 := [c.skinParts % 2] + s5;
    var s3 := EncBool(c.chatColors) + s4;
    var s2 := [1] + s3;
    var s1 := [c.view] + s2;
    assert EncSettings(c, v) == EncBytes(c.locale) + s1 by {
      assert SettingsTail(c, v) == [];
      assert EncSettings(c, v) == SettingsHead(c, v);
      assert EncBool(true) == s5;
    }
    BytesRoundTrip(c.locale, s1);
    assert s1[1..] == s2 && s2[1..] == s3 && s3[1..] == s4 && s4[1..] == s5 && s5[1..] == [];
  }

  lemma {:induction false} SettingsSentRead(c: ClientSettings, v: int)
    requires Bounded(c.locale)
    ensures ReadSettings(v, Encode(ServerboundClientSettings(c), v)) == Ok(Carried(ServerboundClientSettings(c), v), [])
  {
    var s := EncSettings(c, v);
    assert s + [] == s;
    if v < V1_8 {
      FirstSettingsRead(c, v);
    } else if v < V1_9 {
      assert SettingsTail(c, v) == [] && SettingsHead(c, v) + [] == s;
      SettingsHeadReadsBack(c, v, []);
    } else {
      SettingsRoundTrip(c, v, []);
    }
  }

  lemma {:induction false} CustomPayloadSentRead(channel: bytes, content: bytes, v: int)
    requires Bounded(channel)
    ensures ReadCustomPayload(Encode(ServerboundCustomPayload(channel, content), v)) == Ok(ServerboundCustomPayload(channel, content), [])
  {
    BytesRoundTrip(channel, content);
  }

  lemma {:induction false} CookieReadsBack(key: bytes, data: Option<bytes>, v: int)
    requires Legible(ServerboundCookieResponse(key, data), v)
    ensures ReadsBack(ServerboundCookieResponse(key, data), v)
  {
    var p := ServerboundCookieResponse(key, data);
    CookieSentRead(key, data, v);
    CookieReader(SCookieResponse, v, Encode(p, v), Ok(p, []));
    AsRead(p, SCookieResponse, v, Encode(p, v), p);
  }

  lemma {:induction false} PacksReadBack(packs: seq<KnownPack>, v: int)
    requires Legible(ServerboundSelectKnownPacks(packs), v)
    ensures ReadsBack(ServerboundSelectKnownPacks(packs), v)
  {
    var p := ServerboundSelectKnownPacks(packs);
    KnownPacksSentRead(packs, v);
    ListReader(SSelectKnownPacks, v, Encode(p, v), Ok(p, []));
    AsRead(p, SSelectKnownPacks, v, Encode(p, v), p);
  }

  lemma {:induction false} ListReader(k: Kind, v: int, s: bytes, r: Parse<Packet>)
    requires k == SSelectKnownPacks && r == ReadKnownPacks(s)
    ensures ServerRead(k, v, s) == r
  {
  }

  lemma {:induction false} CookieReader(k: Kind, v: int, s: bytes, r: Parse<Packet>)
    requires k == SCookieResponse && r == ReadCookie(s)
    ensures ServerRead(k, v, s) == r
  {
  }

  lemma {:induction false} ChatReader(k: Kind, v: int, s: bytes, r: Parse<Packet>)
    requires k == SChatMessage && r == ReadChat(s)
    ensures ServerRead(k, v, s) == r
  {
  }

  lemma {:induction false} PayloadReader(k: Kind, v: int, s: bytes, r: Parse<Packet>)
    requires k == SCustomPayload && r == ReadCustomPayload(s)
    ensures ServerRead(k, v, s) == r
  {
  }

  lemma {:induction false} SettingsReader(k: Kind, v: int, s: bytes, r: Parse<Packet>)
    requires k == SClientSettings && r == ReadSettings(v, s)
    ensures ServerRead(k, v, s) == r
  {
  }

  lemma {:induction false} AsRead(p: Packet, k: Kind, v: int, s: bytes, carried: Packet)
    requires Encodable(p) && k == KindOf(p) && s == Encode(p, v) && carried == Carried(p, v)
    requires ServerRead(k, v, s) == Ok(carried, [])
    ensures ReadsBack(p, v)
  {
  }

  lemma {:induction false} NumbersReadBack(n: int64, v: int)
    ensures ReadsBack(ServerboundPing(n), v) && ReadsBack(ServerboundConfigKeepAlive(n), v)
  {
    LongSentRead(n, v);
  }

  lemma {:induction false} PongReadsBack(n: int32, v: int)
    ensures ReadsBack(ServerboundConfigPong(n), v)
  {
    PongSentRead(n, v);
  }

  lemma {:induction false} ChatReadsBack(message: bytes, trailer: bytes, v: int)
    requires Bounded(message)
    ensures ReadsBack(ServerboundChatMessage(message, trailer), v)
  {
    var p := ServerboundChatMessage(message, trailer);
    ChatSentRead(message, trailer, v);
    ChatReader(SChatMessage, v, Encode(p, v), Ok(Carried(p, v), []));
    AsRead(p, SChatMessage, v, Encode(p, v), Carried(p, v));
  }

  lemma {:induction false} KeepAliveReadsBack(id: int64, v: int)
    ensures ReadsBack(ServerboundKeepAlive(id), v)
  {
    KeepAliveSentRead(id, v);
  }

  lemma {:induction false} SettingsReadBack(c: ClientSettings, v: int)
    requires Bounded(c.locale)
    ensures ReadsBack(ServerboundClientSettings(c), v)
  {
    var p := ServerboundClientSettings(c);
    SettingsSentRead(c, v);
    SettingsReader(SClientSettings, v, Encode(p, v), Ok(Carried(p, v), []));
    AsRead(p, SClientSettings, v, Encode(p, v), Carried(p, v));
  }

  lemma {:induction false} PayloadReadsBack(channel: bytes, content: bytes, v: int)
    requires Bounded(channel)
    ensures ReadsBack(ServerboundCustomPayload(channel, content), v)
  {
    var p := ServerboundCustomPayload(channel, content);
    CustomPayloadSentRead(channel, content, v);
    PayloadReader(SCustomPayload, v, Encode(p, v), Ok(p, []));
    AsRead(p, SCustomPayload, v, Encode(p, v), p);
  }

  predicate InLogin(p: Packet)
  {
    p.ServerboundHandshake? || p.ServerboundPing? || p.ServerboundLoginStart? || p.ServerboundStatusRequest?
    || p.ServerboundLoginAcknowledged?
  }

  predicate InConfiguration(p: Packet)
  {
    p.ServerboundFinishConfiguration? || p.ServerboundConfigKeepAlive? || p.ServerboundSelectKnownPacks?
    || p.ServerboundCookieResponse? || p.ServerboundConfigPong?
  }

  lemma {:induction false} LoginReadsBack(p: Packet, v: int)
    requires InLogin(p) && Legible(p, v)
    ensures ReadsBack(p, v)
  {
    match p {
      case ServerboundHandshake(protocol, address, port, next) => HandshakeRead(protocol, address, port, next, v);
      case ServerboundPing(payload) => NumbersReadBack(payload, v);
      case ServerboundLoginStart(name, uuid) => LoginStartSentRead(name, uuid, v);
      case ServerboundStatusRequest =>
      case ServerboundLoginAcknowledged =>
    }
  }

  lemma {:induction false} ConfigurationReadsBack(p: Packet, v: int)
    requires InConfiguration(p) && Legible(p, v)
    ensures ReadsBack(p, v)
  {
    match p {
      case ServerboundConfigKeepAlive(id) => NumbersReadBack(id, v);
      case ServerboundSelectKnownPacks(packs) => PacksReadBack(packs, v);
      case ServerboundCookieResponse(key, data) => CookieReadsBack(key, data, v);
      case ServerboundConfigPong(number) => PongReadsBack(number, v);
      case ServerboundFinishConfiguration =>
    }
  }

  lemma {:induction false} PlayReadsBack(p: Packet, v: int)
    requires p.ServerboundChatMessage? || p.ServerboundKeepAlive? || p.ServerboundClientSettings? || p.ServerboundCustomPayload?
    requires Legible(p, v)
    ensures ReadsBack(p, v)
  {
    match p {
      case ServerboundChatMessage(message, trailer) => ChatReadsBack(message, trailer, v);
      case ServerboundKeepAlive(id) => KeepAliveReadsBack(id, v);
      case ServerboundClientSettings(c) => SettingsReadBack(c, v);
      case ServerboundCustomPayload(channel, content) => PayloadReadsBack(channel, content, v);
    }
  }

  /** Whatever the client sends, a server of its version reads: every field that the version can carry. */
  lemma {:induction false} SentReadsBack(p: Packet, v: int)
    requires IsServerbound(p) && Legible(p, v)
    ensures ServerRead(KindOf(p), v, Encode(p, v)) == Ok(Carried(p, v), [])
  {
    assert ReadsBack(p, v) by {
      if InLogin(p) {
        LoginReadsBack(p, v);
      } else if InConfiguration(p) {
        ConfigurationReadsBack(p, v);
      } else {
        PlayReadsBack(p, v);
      }
    }
  }
}
