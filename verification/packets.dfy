/** The packets of protocol/packets.go with their version-gated layouts, as functions:
    Encode gives the bytes an Encode method writes, DecodePacket what a Decode method reads. */
module Packets {
  import opened Wire

  // Version numbers are positions in the generated list of releases.
  const V1_7 := 0
  const V1_8 := 1
  const V1_9 := 2
  const V1_12_2 := 9
  const V1_16 := 20
  const V1_17_1 := 24
  const V1_18 := 25
  const V1_19 := 27
  const V1_19_2 := 28
  const V1_20_2 := 32
  const V1_20_5 := 34
  const V1_21_1 := 35
  const V1_21_3 := 36
  const FIRST := V1_7
  const LATEST := 42

  datatype Option<+T> = None | Some(value: T)

  datatype State = Handshaking | Status | Login | Play | Configuration

  function StateNumber(s: State): int32
  {
    match s
    case Handshaking => 0
    case Status => 1
    case Login => 2
    case Play => 3
    case Configuration => 4
  }

  datatype Direction = Serverbound | Clientbound

  /** The Go packet types, S for serverbound and C for clientbound. */
  datatype Kind =
    | SHandshake | SStatusRequest | SPing | SLoginStart | SLoginAcknowledged
    | SFinishConfiguration | SConfigKeepAlive | SSelectKnownPacks | SCookieResponse | SConfigPong
    | SChatMessage | SKeepAlive | SClientSettings | SCustomPayload | SPlayerPosition
    | CDisconnect | CStatusResponse | CPong | CLoginSuccess | CSetCompression
    | CFinishConfiguration | CConfigKeepAlive | CSelectKnownPacks | CCookieRequest | CConfigPing
    | CKeepAlive | CJoinGame | CCustomPayload | CFeatureFlags | CUpdateTags | CRegistryData
    | CChatMessage

  /** Whether the type is in packetConstructors (and so in packetTypes). */
  predicate HasConstructor(k: Kind) { k != SPlayerPosition && k != CChatMessage }

  type UUID = u: bytes | |u| == 16 witness [0, 0, 0, 0, 0, 0, 0, 0, 0, 0, 0, 0, 0, 0, 0, 0]

  const NIL_UUID: UUID := [0, 0, 0, 0, 0, 0, 0, 0, 0, 0, 0, 0, 0, 0, 0, 0]

  datatype ClientSettings = ClientSettings(
    locale: bytes, view: byte, chatMode: int32, chatColors: bool, skinParts: byte, mainHand: int32)

  datatype KnownPack = KnownPack(namespace: bytes, id: bytes, version: bytes)

  datatype Tag = Tag(name: bytes, entries: seq<int32>)

  datatype RegistryTag = RegistryTag(registry: bytes, tags: seq<Tag>)

  datatype Property = Property(name: bytes, value: bytes, signature: Option<bytes>)

  /** A chat message carries the trailer that signing produces from 1.19 on. */
  datatype Packet =
    | ServerboundHandshake(protocolVersion: int32, address: bytes, port: uint16, next: int32)
    | ServerboundStatusRequest
    | ServerboundPing(payload: int64)
    | ServerboundLoginStart(username: bytes, uuid: UUID)
    | ServerboundLoginAcknowledged
    | ServerboundFinishConfiguration
    | ServerboundConfigKeepAlive(id: int64)
    | ServerboundSelectKnownPacks(packs: seq<KnownPack>)
    | ServerboundCookieResponse(key: bytes, data: Option<bytes>)
    | ServerboundConfigPong(number: int32)
    | ServerboundChatMessage(message: bytes, trailer: bytes)
    | ServerboundKeepAlive(id: int64)
    | ServerboundClientSettings(settings: ClientSettings)
    | ServerboundCustomPayload(channel: bytes, content: bytes)
    | ServerboundPlayerPosition(position: bytes)
    | ClientboundDisconnect(reason: bytes)
    | ClientboundStatusResponse(json: bytes)
    | ClientboundPong(payload: int64)
    | ClientboundLoginSuccess(username: bytes, uuid: UUID)
    | ClientboundSetCompression(threshold: int32)
    | ClientboundFinishConfiguration
    | ClientboundConfigKeepAlive(id: int64)
    | ClientboundSelectKnownPacks(packs: seq<KnownPack>)
    | ClientboundCookieRequest(key: bytes)
    | ClientboundConfigPing(number: int32)
    | ClientboundKeepAlive(id: int64)
    | ClientboundJoinGame
    | ClientboundCustomPayload(channel: bytes, content: bytes)
    | ClientboundFeatureFlags(features: seq<bytes>)
    | ClientboundUpdateTags(registries: seq<RegistryTag>)
    | ClientboundRegistryData(registry: bytes, content: bytes)
    | ClientboundChatMessage(text: bytes)

  function KindOf(p: Packet): Kind
  {
    match p
    case ServerboundHandshake(_, _, _, _) => SHandshake
    case ServerboundStatusRequest => SStatusRequest
    case ServerboundPing(_) => SPing
    case ServerboundLoginStart(_, _) => SLoginStart
    case ServerboundLoginAcknowledged => SLoginAcknowledged
    case ServerboundFinishConfiguration => SFinishConfiguration
    case ServerboundConfigKeepAlive(_) => SConfigKeepAlive
    case ServerboundSelectKnownPacks(_) => SSelectKnownPacks
    case ServerboundCookieResponse(_, _) => SCookieResponse
    case ServerboundConfigPong(_) => SConfigPong
    case ServerboundChatMessage(_, _) => SChatMessage
    case ServerboundKeepAlive(_) => SKeepAlive
    case ServerboundClientSettings(_) => SClientSettings
    case ServerboundCustomPayload(_, _) => SCustomPayload
    case ServerboundPlayerPosition(_) => SPlayerPosition
    case ClientboundDisconnect(_) => CDisconnect
    case ClientboundStatusResponse(_) => CStatusResponse
    case ClientboundPong(_) => CPong
    case ClientboundLoginSuccess(_, _) => CLoginSuccess
    case ClientboundSetCompression(_) => CSetCompression
    case ClientboundFinishConfiguration => CFinishConfiguration
    case ClientboundConfigKeepAlive(_) => CConfigKeepAlive
    case ClientboundSelectKnownPacks(_) => CSelectKnownPacks
    case ClientboundCookieRequest(_) => CCookieRequest
    case ClientboundConfigPing(_) => CConfigPing
    case ClientboundKeepAlive(_) => CKeepAlive
    case ClientboundJoinGame => CJoinGame
    case ClientboundCustomPayload(_, _) => CCustomPayload
    case ClientboundFeatureFlags(_) => CFeatureFlags
    case ClientboundUpdateTags(_) => CUpdateTags
    case ClientboundRegistryData(_, _) => CRegistryData
    case ClientboundChatMessage(_) => CChatMessage
  }

  // ---------------------------------------------------------------- UUIDs

  function DecUUID(s: bytes): Parse<UUID> { if |s| < 16 then Fail else Ok(s[..16], s[16..]) }

  const DASH: byte := 45

  function HexValue(b: byte): Option<byte>
  {
    if 48 <= b <= 57 then Some(b - 48)
    else if 65 <= b <= 70 then Some(b - 55)
    else if 97 <= b <= 102 then Some(b - 87)
    else None
  }

  predicate IsDashAt(k: nat) { k == 8 || k == 13 || k == 18 || k == 23 }

  /** Position in the 36-character text of the two digits of byte i. */
  function DigitsAt(i: nat): nat
    requires i < 16
  {
    2 * i + (if i < 4 then 0 else if i < 6 then 1 else if i < 8 then 2 else if i < 10 then 3 else 4)
  }

  /** The 32-character spelling with the dashes put back. */
  function Dashed(t: bytes): bytes
    requires |t| == 32
  {
    t[..8] + [DASH] + t[8..12] + [DASH] + t[12..16] + [DASH] + t[16..20] + [DASH] + t[20..]
  }

  const URN_LOWER: bytes := [117, 114, 110, 58, 117, 117, 105, 100, 58]

  function LowerCase(b: byte): byte { if 65 <= b <= 90 then b + 32 else b }

  predicate HasUrnPrefix(t: bytes) { |t| >= 9 && forall i :: 0 <= i < 9 ==> LowerCase(t[i]) == URN_LOWER[i] }

  /** The spellings the UUID library takes: dashed, with a urn:uuid: prefix, or in brackets. */
  function DashedPart(t: bytes): Option<bytes>
  {
    if |t| == 36 then Some(t)
    else if |t| == 45 && HasUrnPrefix(t) then Some(t[9..])
    else if |t| == 38 then Some(t[1..])
    else None
  }

  predicate IsUUIDText(t: bytes)
  {
    && |t| >= 36
    && (forall k :: 0 <= k < 36 && IsDashAt(k) ==> t[k] == DASH)
    && (forall i :: 0 <= i < 16 ==> HexValue(t[DigitsAt(i)]).Some? && HexValue(t[DigitsAt(i) + 1]).Some?)
  }

  function ParsedBytes(d: bytes): UUID
    requires IsUUIDText(d)
  {
    seq(16, i requires 0 <= i < 16 => 16 * HexValue(d[DigitsAt(i)]).value + HexValue(d[DigitsAt(i) + 1]).value)
  }

  /** uuid.Parse */
  function ParseUUID(t: bytes): Option<UUID>
  {
    match DashedPart(t)
    case None => None
    case Some(d) =>
      if !IsUUIDText(d) then None
      else Some(ParsedBytes(d))
  }

  /** ReadStringUUID */
  function DecUUIDText(s: bytes): Parse<UUID>
  {
    var (t, rest) :- DecBytes(s);
    match ParseUUID(if |t| == 32 then Dashed(t) else t)
    case None => Fail
    case Some(u) => Ok(u, rest)
  }

  /** The 32 hexadecimal digits of a UUID, as section 3 of RFC 4122 writes them without dashes. */
  function HexDigits(u: UUID): (t: bytes)
    ensures |t| == 32
  {
    seq(32, k requires 0 <= k < 32 => HexDigit(if k % 2 == 0 then u[k / 2] / 16 else u[k / 2] % 16))
  }

  function HexDigit(n: int): byte
    requires 0 <= n < 16
  {
    if n < 10 then 48 + n else 87 + n
  }

  lemma {:induction false} DashedAt(t: bytes, i: nat)
    requires |t| == 32 && i < 16
    ensures Dashed(t)[DigitsAt(i)] == t[2 * i] && Dashed(t)[DigitsAt(i) + 1] == t[2 * i + 1]
  {
    var a := t[..8] + [DASH];
    var b := a + t[8..12] + [DASH];
    var c := b + t[12..16] + [DASH];
    var d := c + t[16..20] + [DASH];
    assert Dashed(t) == d + t[20..];
    assert forall k :: 0 <= k < 8 ==> a[k] == t[k];
    assert forall k :: 9 <= k < 13 ==> b[k] == t[k - 1];
    assert forall k :: 14 <= k < 18 ==> c[k] == t[k - 2];
    assert forall k :: 19 <= k < 23 ==> d[k] == t[k - 3];
    assert forall k :: 24 <= k < 36 ==> (d + t[20..])[k] == t[k - 4];
  }

  lemma {:induction false} DashesAt(t: bytes)
    requires |t| == 32
    ensures forall k :: 0 <= k < 36 && IsDashAt(k) ==> Dashed(t)[k] == DASH
  {
  }

  lemma {:induction false} HexDigitValue(n: nat)
    requires n < 16
    ensures HexValue(HexDigit(n)) == Some(n)
  {
  }

  lemma {:induction false} HexDigitsAt(u: UUID, i: nat)
    requires i < 16
    ensures HexValue(HexDigits(u)[2 * i]) == Some(u[i] / 16)
    ensures HexValue(HexDigits(u)[2 * i + 1]) == Some(u[i] % 16)
  {
    assert (2 * i) / 2 == i && (2 * i + 1) / 2 == i;
    HexDigitValue(u[i] / 16);
    HexDigitValue(u[i] % 16);
  }

  /** The digits of u, two for each byte. */
  predicate DigitsOf(d: bytes, u: UUID)
    requires |d| == 36
  {
    forall i :: 0 <= i < 16 ==> HexValue(d[DigitsAt(i)]) == Some(u[i] / 16) && HexValue(d[DigitsAt(i) + 1]) == Some(u[i] % 16)
  }

  lemma {:induction false} DashedDigits(u: UUID)
    ensures |Dashed(HexDigits(u))| == 36 && DigitsOf(Dashed(HexDigits(u)), u)
  {
    forall i | 0 <= i < 16
      ensures HexValue(Dashed(HexDigits(u))[DigitsAt(i)]) == Some(u[i] / 16)
      ensures HexValue(Dashed(HexDigits(u))[DigitsAt(i) + 1]) == Some(u[i] % 16)
    {
      DashedAt(HexDigits(u), i);
      HexDigitsAt(u, i);
    }
  }

  lemma {:induction false} DigitsParsed(d: bytes, u: UUID)
    requires |d| == 36 && DigitsOf(d, u) && IsUUIDText(d)
    ensures ParsedBytes(d) == u
  {
  }

  lemma {:induction false} UUIDTextRoundTrip(u: UUID)
    ensures ParseUUID(Dashed(HexDigits(u))) == Some(u)
  {
    var d := Dashed(HexDigits(u));
    DashedDigits(u);
    DashesAt(HexDigits(u));
    assert IsUUIDText(d);
    DigitsParsed(d, u);
  }

  // ---------------------------------------------------------------- LoginSuccess

  /** A property's signature flag is read with its error dropped. */
  function DecProperty(s: bytes): Parse<Property>
  {
    var (name, s1) :- DecBytes(s);
    var (value, s2) :- DecBytes(s1);
    var (signed, s3) := DecBoolLax(s2);
    if !signed then Ok(Property(name, value, None), s3)
    else
      var (signature, s4) :- DecBytes(s3);
      Ok(Property(name, value, Some(signature)), s4)
  }

  /** Here a negative count only skips the loop. */
  function DecProperties(s: bytes): Parse<seq<Property>>
  {
    var (n, t) :- DecVarInt(s);
    DecN(DecProperty, if n < 0 then 0 else n, t)
  }

  function DecIdentity(v: int, s: bytes): Parse<UUID> { if v >= V1_16 then DecUUID(s) else DecUUIDText(s) }

  /** The properties are read and dropped: only their number is left. */
  function DecExtras(v: int, s: bytes): Parse<nat>
  {
    if v < V1_19 then Ok(0, s)
    else
      match DecProperties(s)
      case Ok(props, rest) => Ok(|props|, rest)
      case Fail => Fail
      case Panic => Panic
  }

  function DecStrict(v: int, s: bytes): Parse<bool>
  {
    if V1_20_5 <= v <= V1_21_1 then DecBool(s) else Ok(false, s)
  }

  /** The user name, the properties, which are dropped, and the strict flag. */
  function DecProfile(v: int, s: bytes): Parse<bytes>
  {
    var username := DecBytes(s);
    if !username.Ok? then Fail
    else
      var extras := DecExtras(v, username.rest);
      if !extras.Ok? then extras.PropagateFailure()
      else
        var strict := DecStrict(v, extras.rest);
        if !strict.Ok? then Fail else Ok(username.value, strict.rest)
  }

  function DecLoginSuccess(v: int, s: bytes): (r: Parse<Packet>)
    ensures r.Ok? ==> r.value.ClientboundLoginSuccess?
  {
    match DecIdentity(v, s)
    case Fail => Fail
    case Panic => Panic
    case Ok(uuid, s1) =>
      match DecProfile(v, s1)
      case Fail => Fail
      case Panic => Panic
      case Ok(username, s2) => Ok(ClientboundLoginSuccess(username, uuid), s2)
  }

  /** What a server of version v sends: the layout the decoder is meant for. Before 1.16 the UUID
      is text, with or without dashes. */
  function EncLoginSuccess(v: int, username: bytes, uuid: UUID, dashes: bool, props: seq<Property>, strict: bool): bytes
  {
    EncIdentity(v, uuid, dashes) + EncProfile(v, username, props, strict)
  }

  function EncProfile(v: int, username: bytes, props: seq<Property>, strict: bool): bytes
  {
    EncBytes(username) + (EncExtras(v, props) + EncStrict(v, strict))
  }

  function EncIdentity(v: int, uuid: UUID, dashes: bool): bytes
  {
    if v >= V1_16 then uuid else EncBytes(if dashes then Dashed(HexDigits(uuid)) else HexDigits(uuid))
  }

  function EncExtras(v: int, props: seq<Property>): bytes
  {
    if v >= V1_19 then EncList(EncProperty, props) else []
  }

  function EncStrict(v: int, strict: bool): bytes { if V1_20_5 <= v <= V1_21_1 then EncBool(strict) else [] }

  function EncProperty(p: Property): bytes
  {
    EncBytes(p.name) + (EncBytes(p.value) + (EncBool(p.signature.Some?)
    + if p.signature.Some? then EncBytes(p.signature.value) else []))
  }

  predicate Bounded(d: bytes) { |d| <= MAX_DATA }

  predicate BoundedProperty(p: Property)
  {
    Bounded(p.name) && Bounded(p.value) && (p.signature.Some? ==> Bounded(p.signature.value))
  }

  lemma {:induction false} PropertyRoundTrip(p: Property)
    requires BoundedProperty(p)
    ensures Inverts(DecProperty, EncProperty, p)
  {
    forall rest: bytes
      ensures DecProperty(EncProperty(p) + rest) == Ok(p, rest)
    {
      var signature := if p.signature.Some? then EncBytes(p.signature.value) else [];
      var t3 := signature + rest;
      var t2 := EncBool(p.signature.Some?) + t3;
      var t1 := EncBytes(p.value) + t2;
      assert EncProperty(p) + rest == EncBytes(p.name) + t1 by {
        Concat4(EncBytes(p.name), EncBytes(p.value), EncBool(p.signature.Some?), signature, rest);
      }
      BytesRoundTrip(p.name, t1);
      BytesRoundTrip(p.value, t2);
      assert t2[1..] == t3;
      if p.signature.Some? {
        BytesRoundTrip(p.signature.value, rest);
      } else {
        assert t3 == rest;
      }
    }
  }

  lemma {:induction false} IdentityRoundTrip(v: int, uuid: UUID, dashes: bool, rest: bytes)
    ensures DecIdentity(v, EncIdentity(v, uuid, dashes) + rest) == Ok(uuid, rest)
  {
    if v >= V1_16 {
      assert (uuid + rest)[..16] == uuid && (uuid + rest)[16..] == rest;
    } else {
      UUIDTextRoundTrip(uuid);
      BytesRoundTrip(if dashes then Dashed(HexDigits(uuid)) else HexDigits(uuid), rest);
    }
  }

  lemma {:induction false} ExtrasRoundTrip(v: int, props: seq<Property>, rest: bytes)
    requires |props| < TWO31
    requires forall p :: p in props ==> BoundedProperty(p)
    ensures DecExtras(v, EncExtras(v, props) + rest) == Ok(if v >= V1_19 then |props| else 0, rest)
  {
    if v >= V1_19 {
      forall p | p in props
        ensures Inverts(DecProperty, EncProperty, p)
      {
        PropertyRoundTrip(p);
      }
      var tail := EncN(EncProperty, props) + rest;
      assert EncExtras(v, props) + rest == EncVarInt(Trunc32(|props|)) + tail;
      VarIntRoundTrip(Trunc32(|props|), tail);
      NRoundTrip(DecProperty, EncProperty, props, rest);
    } else {
      assert [] + rest == rest;
    }
  }

  lemma {:induction false} StrictRoundTrip(v: int, strict: bool, rest: bytes)
    ensures var r := DecStrict(v, EncStrict(v, strict) + rest); r.Ok? && r.rest == rest
  {
    if V1_20_5 <= v <= V1_21_1 {
      assert (EncBool(strict) + rest)[1..] == rest;
    } else {
      assert [] + rest == rest;
    }
  }

  lemma {:induction false} ProfileRoundTrip(v: int, username: bytes, props: seq<Property>, strict: bool, rest: bytes)
    requires Bounded(username) && |props| < TWO31
    requires forall p :: p in props ==> BoundedProperty(p)
    ensures DecProfile(v, EncProfile(v, username, props, strict) + rest) == Ok(username, rest)
  {
    var t2 := EncStrict(v, strict) + rest;
    var t1 := EncExtras(v, props) + t2;
    var s := EncBytes(username) + t1;
    assert EncProfile(v, username, props, strict) + rest == s by {
      Concat3(EncBytes(username), EncExtras(v, props), EncStrict(v, strict), rest);
    }
    assert DecBytes(s) == Ok(username, t1) by { BytesRoundTrip(username, t1); }
    assert DecExtras(v, t1).Ok? && DecExtras(v, t1).rest == t2 by { ExtrasRoundTrip(v, props, t2); }
    assert DecStrict(v, t2).Ok? && DecStrict(v, t2).rest == rest by { StrictRoundTrip(v, strict, rest); }
  }

  /** The decoder gives back the identity and takes exactly the encoding, for every version, both
      UUID spellings, any number of properties, and any strict flag. */
  lemma {:induction false} LoginSuccessRoundTrip(v: int, username: bytes, uuid: UUID, dashes: bool,
      props: seq<Property>, strict: bool, rest: bytes)
    requires Bounded(username) && |props| < TWO31
    requires forall p :: p in props ==> BoundedProperty(p)
    ensures DecLoginSuccess(v, EncLoginSuccess(v, username, uuid, dashes, props, strict) + rest)
         == Ok(ClientboundLoginSuccess(username, uuid), rest)
  {
    var t := EncProfile(v, username, props, strict) + rest;
    assert EncLoginSuccess(v, username, uuid, dashes, props, strict) + rest == EncIdentity(v, uuid, dashes) + t by {
      Append2(EncIdentity(v, uuid, dashes), EncProfile(v, username, props, strict), rest);
    }
    assert DecIdentity(v, EncIdentity(v, uuid, dashes) + t) == Ok(uuid, t) by { IdentityRoundTrip(v, uuid, dashes, t); }
    assert DecProfile(v, t) == Ok(username, rest) by { ProfileRoundTrip(v, username, props, strict, rest); }
  }

  // ---------------------------------------------------------------- nested lists

  function DecKnownPack(s: bytes): Parse<KnownPack>
  {
    var (namespace, s1) :- DecBytes(s);
    var (id, s2) :- DecBytes(s1);
    var (version, s3) :- DecBytes(s2);
    Ok(KnownPack(namespace, id, version), s3)
  }

  function EncKnownPack(k: KnownPack): bytes
  {
    EncBytes(k.namespace) + (EncBytes(k.id) + EncBytes(k.version))
  }

  function DecTag(s: bytes): Parse<Tag>
  {
    var (name, s1) :- DecBytes(s);
    var (entries, s2) :- DecList(DecVarInt, s1);
    Ok(Tag(name, entries), s2)
  }

  function EncTag(t: Tag): bytes { EncBytes(t.name) + EncList(EncVarInt, t.entries) }

  function DecRegistryTag(s: bytes): Parse<RegistryTag>
  {
    var (registry, s1) :- DecBytes(s);
    var (tags, s2) :- DecList(DecTag, s1);
    Ok(RegistryTag(registry, tags), s2)
  }

  function EncRegistryTag(r: RegistryTag): bytes { EncBytes(r.registry) + EncList(EncTag, r.tags) }

  lemma {:induction false} KnownPackRoundTrip(k: KnownPack)
    requires Bounded(k.namespace) && Bounded(k.id) && Bounded(k.version)
    ensures Inverts(DecKnownPack, EncKnownPack, k)
  {
    forall rest: bytes
      ensures DecKnownPack(EncKnownPack(k) + rest) == Ok(k, rest)
    {
      var t2 := EncBytes(k.version) + rest;
      var t1 := EncBytes(k.id) + t2;
      assert EncKnownPack(k) + rest == EncBytes(k.namespace) + t1;
      BytesRoundTrip(k.namespace, t1);
      BytesRoundTrip(k.id, t2);
      BytesRoundTrip(k.version, rest);
    }
  }

  predicate SmallTag(t: Tag) { Bounded(t.name) && |t.entries| < TWO31 }

  predicate SmallRegistryTag(r: RegistryTag)
  {
    Bounded(r.registry) && |r.tags| < TWO31 && forall t :: t in r.tags ==> SmallTag(t)
  }

  lemma {:induction false} TagRoundTrip(t: Tag)
    requires SmallTag(t)
    ensures Inverts(DecTag, EncTag, t)
  {
    forall rest: bytes
      ensures DecTag(EncTag(t) + rest) == Ok(t, rest)
    {
      var tail := EncList(EncVarInt, t.entries) + rest;
      assert EncTag(t) + rest == EncBytes(t.name) + tail;
      BytesRoundTrip(t.name, tail);
      forall e | e in t.entries
        ensures Inverts(DecVarInt, EncVarInt, e)
      {
        forall more: bytes ensures DecVarInt(EncVarInt(e) + more) == Ok(e, more) { VarIntRoundTrip(e, more); }
      }
      ListRoundTrip(DecVarInt, EncVarInt, t.entries, rest);
    }
  }

  lemma {:induction false} RegistryTagReadsBack(r: RegistryTag, rest: bytes)
    requires SmallRegistryTag(r)
    ensures DecRegistryTag(EncRegistryTag(r) + rest) == Ok(r, rest)
  {
    var tail := EncList(EncTag, r.tags) + rest;
    assert EncRegistryTag(r) + rest == EncBytes(r.registry) + tail;
    BytesRoundTrip(r.registry, tail);
    assert DecList(DecTag, tail) == Ok(r.tags, rest) by {
      forall t | t in r.tags ensures Inverts(DecTag, EncTag, t) { TagRoundTrip(t); }
      ListRoundTrip(DecTag, EncTag, r.tags, rest);
    }
  }

  lemma {:induction false} RegistryTagRoundTrip(r: RegistryTag)
    requires SmallRegistryTag(r)
    ensures Inverts(DecRegistryTag, EncRegistryTag, r)
  {
    forall rest: bytes
      ensures DecRegistryTag(EncRegistryTag(r) + rest) == Ok(r, rest)
    {
      RegistryTagReadsBack(r, rest);
    }
  }

  // ---------------------------------------------------------------- settings and login start

  /** A field that only some versions send. */
  function Gate(sent: bool, d: bytes): bytes { if sent then d else [] }

  function EncSettings(s: ClientSettings, v: int): bytes { SettingsHead(s, v) + SettingsTail(s, v) }

  /** 1.7 sends a fixed view mode, the cape bit and a difficulty flag in place of chat mode and skin parts. */
  function SettingsHead(s: ClientSettings, v: int): bytes
  {
    EncBytes(s.locale) + ([s.view] +
    if v <= V1_7 then [1] + (EncBool(s.chatColors) + ([s.skinParts % 2] + EncBool(true)))
    else EncVarInt(s.chatMode) + (EncBool(s.chatColors) + [s.skinParts]))
  }

  function SettingsTail(s: ClientSettings, v: int): bytes
  {
    Gate(v >= V1_9, EncVarInt(s.mainHand)) +
    (Gate(v >= V1_17_1, EncBool(false)) +
     (Gate(v >= V1_18, EncBool(true)) +
      Gate(v >= V1_21_3, EncVarInt(0))))
  }

  /** The UUID as the versions send it: bare, or after a presence flag unless it is nil. */
  function LoginIdentity(uuid: UUID, v: int): bytes
  {
    if v >= V1_20_2 then uuid
    else if v >= V1_19_2 && uuid != NIL_UUID then EncBool(true) + uuid
    else []
  }

  function EncLoginStart(username: bytes, uuid: UUID, v: int): bytes
  {
    EncBytes(username) + (Gate(V1_19 <= v <= V1_19_2, EncBool(false)) + LoginIdentity(uuid, v))
  }

  function EncKeepAlive(id: int64, v: int): bytes
  {
    if v >= V1_12_2 then EncLong(id) else EncVarInt(ToI32Of64(id))
  }

  /** Go's int32(id): the low 32 bits, as a signed number. */
  function ToI32Of64(id: int64): int32
  {
    if id >= 0 then Trunc32(id) else Trunc32(id + TWO64)
  }

  function DecKeepAlive(v: int, s: bytes): Parse<int64>
  {
    if v >= V1_12_2 then DecLong(s)
    else
      var (id, t) :- DecVarInt(s);
      Ok(id as int64, t)
  }

  // ---------------------------------------------------------------- all packets

  /** The types the client can send, and the clientbound ones with a real Encode method. */
  predicate Encodable(p: Packet)
  {
    || p.ServerboundHandshake? || p.ServerboundStatusRequest? || p.ServerboundPing? || p.ServerboundLoginStart?
    || p.ServerboundLoginAcknowledged? || p.ServerboundFinishConfiguration? || p.ServerboundConfigKeepAlive?
    || p.ServerboundSelectKnownPacks? || p.ServerboundCookieResponse? || p.ServerboundConfigPong?
    || p.ServerboundChatMessage? || p.ServerboundKeepAlive? || p.ServerboundClientSettings?
    || p.ServerboundCustomPayload? || p.ClientboundDisconnect? || p.ClientboundStatusResponse?
    || p.ClientboundPong? || p.ClientboundSetCompression? || p.ClientboundFinishConfiguration?
    || p.ClientboundConfigKeepAlive? || p.ClientboundCookieRequest? || p.ClientboundConfigPing?
    || p.ClientboundCustomPayload?
  }

  function Encode(p: Packet, v: int): bytes
    requires Encodable(p)
  {
    match p
    case ServerboundHandshake(protocolVersion, address, port, next) =>
      EncVarInt(protocolVersion) + (EncBytes(address) + (EncUShort(port) + EncVarInt(next)))
    case ServerboundPing(payload) => EncLong(payload)
    case ServerboundLoginStart(username, uuid) => EncLoginStart(username, uuid, v)
    case ServerboundConfigKeepAlive(id) => EncLong(id)
    case ServerboundSelectKnownPacks(packs) => EncList(EncKnownPack, packs)
    case ServerboundCookieResponse(key, data) =>
      EncBytes(key) + (EncBool(data.Some?) + if data.Some? then EncBytes(data.value) else [])
    case ServerboundConfigPong(number) => EncInt(number)
    case ServerboundChatMessage(message, trailer) =>
      EncBytes(message) + (if v < V1_19 then [] else trailer)
    case ServerboundKeepAlive(id) => EncKeepAlive(id, v)
    case ServerboundClientSettings(settings) => EncSettings(settings, v)
    case ServerboundCustomPayload(channel, content) => EncBytes(channel) + content
    case ClientboundDisconnect(reason) => EncBytes(reason)
    case ClientboundStatusResponse(json) => EncBytes(json)
    case ClientboundPong(payload) => EncLong(payload)
    case ClientboundSetCompression(threshold) => EncVarInt(threshold)
    case ClientboundConfigKeepAlive(id) => EncLong(id)
    case ClientboundCookieRequest(key) => EncBytes(key)
    case ClientboundConfigPing(number) => EncInt(number)
    case ClientboundCustomPayload(channel, content) => EncBytes(channel) + content
    case ServerboundStatusRequest => []
    case ServerboundLoginAcknowledged => []
    case ServerboundFinishConfiguration => []
    case ClientboundFinishConfiguration => []
  }

  /** p is of the Go type k names. */
  predicate Is(p: Packet, k: Kind)
  {
    match k
    case CDisconnect => p.ClientboundDisconnect?
    case CStatusResponse => p.ClientboundStatusResponse?
    case CCookieRequest => p.ClientboundCookieRequest?
    case SChatMessage => p.ServerboundChatMessage?
    case SLoginStart => p.ServerboundLoginStart?
    case CPong => p.ClientboundPong?
    case SPing => p.ServerboundPing?
    case CSetCompression => p.ClientboundSetCompression?
    case CConfigKeepAlive => p.ClientboundConfigKeepAlive?
    case SConfigKeepAlive => p.ServerboundConfigKeepAlive?
    case CConfigPing => p.ClientboundConfigPing?
    case CKeepAlive => p.ClientboundKeepAlive?
    case CSelectKnownPacks => p.ClientboundSelectKnownPacks?
    case CFeatureFlags => p.ClientboundFeatureFlags?
    case CUpdateTags => p.ClientboundUpdateTags?
    case CCustomPayload => p.ClientboundCustomPayload?
    case SCustomPayload => p.ServerboundCustomPayload?
    case CLoginSuccess => p.ClientboundLoginSuccess?
    case CFinishConfiguration => p.ClientboundFinishConfiguration?
    case CJoinGame => p.ClientboundJoinGame?
    case CRegistryData => p.ClientboundRegistryData?
    case SHandshake => p.ServerboundHandshake?
    case SStatusRequest => p.ServerboundStatusRequest?
    case SLoginAcknowledged => p.ServerboundLoginAcknowledged?
    case SFinishConfiguration => p.ServerboundFinishConfiguration?
    case SSelectKnownPacks => p.ServerboundSelectKnownPacks?
    case SCookieResponse => p.ServerboundCookieResponse?
    case SConfigPong => p.ServerboundConfigPong?
    case SKeepAlive => p.ServerboundKeepAlive?
    case SClientSettings => p.ServerboundClientSettings?
    case SPlayerPosition => p.ServerboundPlayerPosition?
    case CChatMessage => p.ClientboundChatMessage?
  }

  predicate IsText(k: Kind)
  {
    k.CDisconnect? || k.CStatusResponse? || k.CCookieRequest? || k.SChatMessage? || k.SLoginStart?
  }

  predicate IsNumber(k: Kind)
  {
    k.CPong? || k.SPing? || k.CSetCompression? || k.CConfigKeepAlive? || k.SConfigKeepAlive?
    || k.CConfigPing? || k.CKeepAlive?
  }

  predicate IsList(k: Kind)
  {
    k.CSelectKnownPacks? || k.CFeatureFlags? || k.CUpdateTags?
  }

  predicate IsZero(k: Kind)
  {
    k.SStatusRequest? || k.SLoginAcknowledged? || k.SFinishConfiguration? || k.CFinishConfiguration? || k.SSelectKnownPacks?
    || k.SCookieResponse? || k.SConfigPong? || k.SClientSettings?
  }

  /** The packets that are a single string. A server-side login start only reads the name. */
  function DecodeText(k: Kind, s: bytes): (r: Parse<Packet>)
    requires IsText(k)
    ensures r.Ok? ==> Is(r.value, k)
  {
    var (text, t) :- DecBytes(s);
    var p := match k {
      case CDisconnect => ClientboundDisconnect(text)
      case CStatusResponse => ClientboundStatusResponse(text)
      case CCookieRequest => ClientboundCookieRequest(text)
      case SChatMessage => ServerboundChatMessage(text, [])
      case SLoginStart => ServerboundLoginStart(text, NIL_UUID)
    };
    Ok(p, t)
  }

  /** The packets that are a single number. */
  function DecodeNumber(k: Kind, v: int, s: bytes): (r: Parse<Packet>)
    requires IsNumber(k)
    ensures r.Ok? ==> Is(r.value, k)
  {
    match k
    case CPong => var (n, t) :- DecLong(s); Ok(ClientboundPong(n), t)
    case SPing => var (n, t) :- DecLong(s); Ok(ServerboundPing(n), t)
    case CSetCompression => var (n, t) :- DecVarInt(s); Ok(ClientboundSetCompression(n), t)
    case CConfigKeepAlive => var (n, t) :- DecLong(s); Ok(ClientboundConfigKeepAlive(n), t)
    case SConfigKeepAlive => var (n, t) :- DecLong(s); Ok(ServerboundConfigKeepAlive(n), t)
    case CConfigPing => var (n, t) :- DecInt(s); Ok(ClientboundConfigPing(n), t)
    case CKeepAlive => var (n, t) :- DecKeepAlive(v, s); Ok(ClientboundKeepAlive(n), t)
  }

  function KnownPacksFrom(p: Parse<seq<KnownPack>>): Parse<Packet>
  {
    match p
    case Ok(packs, rest) => Ok(ClientboundSelectKnownPacks(packs), rest)
    case Fail => Fail
    case Panic => Panic
  }

  function FeatureFlagsFrom(p: Parse<seq<bytes>>): Parse<Packet>
  {
    match p
    case Ok(features, rest) => Ok(ClientboundFeatureFlags(features), rest)
    case Fail => Fail
    case Panic => Panic
  }

  function UpdateTagsFrom(p: Parse<seq<RegistryTag>>): Parse<Packet>
  {
    match p
    case Ok(registries, rest) => Ok(ClientboundUpdateTags(registries), rest)
    case Fail => Fail
    case Panic => Panic
  }

  /** The packets that hold lists. */
  function DecodeList(k: Kind, s: bytes): (r: Parse<Packet>)
    requires IsList(k)
    ensures r.Ok? ==> Is(r.value, k)
  {
    match k
    case CSelectKnownPacks => KnownPacksFrom(DecList(DecKnownPack, s))
    case CFeatureFlags => FeatureFlagsFrom(DecList(DecBytes, s))
    case CUpdateTags => UpdateTagsFrom(DecList(DecRegistryTag, s))
  }

  const NO_SETTINGS := ClientSettings([], 0, 0, false, 0, 0)

  /** The types whose Decode reads nothing and leaves the zero value. */
  function ZeroPacket(k: Kind): (p: Packet)
    requires IsZero(k)
    ensures Is(p, k)
  {
    match k
    case SStatusRequest => ServerboundStatusRequest
    case SLoginAcknowledged => ServerboundLoginAcknowledged
    case SFinishConfiguration => ServerboundFinishConfiguration
    case CFinishConfiguration => ClientboundFinishConfiguration
    case SSelectKnownPacks => ServerboundSelectKnownPacks([])
    case SCookieResponse => ServerboundCookieResponse([], None)
    case SConfigPong => ServerboundConfigPong(0)
    case SClientSettings => ServerboundClientSettings(NO_SETTINGS)
  }

  function DecodeCustomPayload(k: Kind, s: bytes, clean: bool): (r: Parse<Packet>)
    requires k.CCustomPayload? || k.SCustomPayload?
    ensures r.Ok? ==> Is(r.value, k)
  {
    var (channel, t) :- DecBytes(s);
    if !clean then Fail
    else if k.CCustomPayload? then Ok(ClientboundCustomPayload(channel, t), [])
    else Ok(ServerboundCustomPayload(channel, t), [])
  }

  /** The registry-data decoder drops both of its errors. */
  function DecodeRegistryData(s: bytes): (r: Parse<Packet>)
    ensures r.Ok? ==> Is(r.value, CRegistryData)
  {
    var registry := if DecBytes(s).Ok? then DecBytes(s).value else [];
    var t := SkipBytes(s);
    Ok(ClientboundRegistryData(registry, DecBytesPadded(t)), SkipBytes(t))
  }

  /** The handshake decoder only reports the error of its last field. */
  function DecodeHandshake(s: bytes): (r: Parse<Packet>)
    ensures r.Ok? ==> Is(r.value, SHandshake)
  {
    var (protocolVersion, s1) := DecVarIntLax(s);
    var address := if DecBytes(s1).Ok? then DecBytes(s1).value else [];
    var s2 := SkipBytes(s1);
    BigEndianBound(if |s2| < 2 then [] else s2[..2]);
    Pow256Eight();
    var port: uint16 := if |s2| < 2 then 0 else BigEndian(s2[..2]);
    var (next, t) :- DecVarInt(if |s2| < 2 then [] else s2[2..]);
    Ok(ServerboundHandshake(protocolVersion, address, port, next), t)
  }

  /** The Decode method of type k on unread bytes s; clean says that s ends in io.EOF rather than
      in a decompression error, which only the calls that read to the end notice. */
  function DecodePacket(k: Kind, v: int, s: bytes, clean: bool): (r: Parse<Packet>)
    requires HasConstructor(k)
    ensures r.Ok? ==> Is(r.value, k)
  {
    if IsText(k) then DecodeText(k, s)
    else if IsNumber(k) then DecodeNumber(k, v, s)
    else if IsList(k) then DecodeList(k, s)
    else if IsZero(k) then Ok(ZeroPacket(k), s)
    else
      match k
      case CLoginSuccess => DecLoginSuccess(v, s)
      case CJoinGame => if clean then Ok(ClientboundJoinGame, []) else Fail
      case CCustomPayload => DecodeCustomPayload(k, s, clean)
      case SCustomPayload => DecodeCustomPayload(k, s, clean)
      case CRegistryData => DecodeRegistryData(s)
      case SHandshake => DecodeHandshake(s)
      case SKeepAlive => Panic
  }
}
