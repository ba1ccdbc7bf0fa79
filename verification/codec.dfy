/** The Decode and Encode methods of protocol/packets.go, field by field over a reader or writer,
    each proved to do what the layout functions of module Packets say. */
module Codec {
  import opened Wire
  import opened Streams
  import opened Packets

  // ---------------------------------------------------------------- UUIDs

  method ReadUUID(r: Reader) returns (res: Res<UUID>)
    modifies r`unread
    ensures Did(res, r.unread, DecUUID(old(r.unread)))
  {
    var b := r.ReadFull(16);
    res := if b.Val? then Val(b.value) else Err;
  }

  method ReadStringUUID(r: Reader) returns (res: Res<UUID>)
    modifies r`unread
    ensures Did(res, r.unread, DecUUIDText(old(r.unread)))
  {
    var s := r.ReadBytes();
    if !s.Val? {
      return Err;
    }
    var t := if |s.value| == 32 then Dashed(s.value) else s.value;
    var u := ParseUUID(t);
    res := if u.Some? then Val(u.value) else Err;
  }

  // ---------------------------------------------------------------- decoding

  method DecodeProperty(r: Reader) returns (res: Res<Property>)
    modifies r`unread
    ensures Did(res, r.unread, DecProperty(old(r.unread)))
  {
    var name := r.ReadBytes();
    if !name.Val? {
      return Err;
    }
    var value := r.ReadBytes();
    if !value.Val? {
      return Err;
    }
    var signed := r.ReadBool();
    if signed != Val(true) {
      return Val(Property(name.value, value.value, None));
    }
    var signature := r.ReadBytes();
    if !signature.Val? {
      return Err;
    }
    res := Val(Property(name.value, value.value, Some(signature.value)));
  }

  /** The property loop of ClientboundLoginSuccess.Decode; only the number of properties is kept. */
  method DecodeExtras(r: Reader, v: int) returns (res: Res<nat>)
    modifies r`unread
    ensures Did(res, r.unread, DecExtras(v, old(r.unread)))
  {
    if v < V1_19 {
      return Val(0);
    }
    var count := r.ReadVarInt();
    if !count.Val? {
      return Err;
    }
    ghost var start := r.unread;
    var n := if count.value < 0 then 0 else count.value;
    var props: seq<Property> := [];
    ListStart(DecProperty, n, start);
    var i: nat := 0;
    while i < n
      invariant i == |props| <= n
      invariant ListLoop(DecProperty, n, start, props, r.unread)
    {
      ghost var s := r.unread;
      var p := DecodeProperty(r);
      if !p.Val? {
        ListStops(DecProperty, n, start, props, s);
        return if p.Err? then Err else Crash;
      }
      ListStep(DecProperty, n, start, props, s, p.value, r.unread);
      props := props + [p.value];
      i := i + 1;
    }
    ListDone(DecProperty, n, start, props, r.unread);
    res := Val(|props|);
  }

  method DecodeProfile(r: Reader, v: int) returns (res: Res<bytes>)
    modifies r`unread
    ensures Did(res, r.unread, DecProfile(v, old(r.unread)))
  {
    res := r.ReadBytes();
    if !res.Val? {
      return Err;
    }
    var extras := DecodeExtras(r, v);
    if !extras.Val? {
      return if extras.Err? then Err else Crash;
    }
    if V1_20_5 <= v <= V1_21_1 {
      var strict := r.ReadBool();
      if !strict.Val? {
        return Err;
      }
    }
  }

  method DecodeIdentity(r: Reader, v: int) returns (res: Res<UUID>)
    modifies r`unread
    ensures Did(res, r.unread, DecIdentity(v, old(r.unread)))
  {
    if v >= V1_16 {
      res := ReadUUID(r);
    } else {
      res := ReadStringUUID(r);
    }
  }

  method DecodeLoginSuccess(r: Reader, v: int) returns (res: Res<Packet>)
    modifies r`unread
    ensures Did(res, r.unread, DecLoginSuccess(v, old(r.unread)))
  {
    var uuid := DecodeIdentity(r, v);
    if !uuid.Val? {
      return Err;
    }
    var username := DecodeProfile(r, v);
    if !username.Val? {
      return if username.Err? then Err else Crash;
    }
    res := Val(ClientboundLoginSuccess(username.value, uuid.value));
  }

  method DecodeKnownPack(r: Reader) returns (res: Res<KnownPack>)
    modifies r`unread
    ensures Did(res, r.unread, DecKnownPack(old(r.unread)))
  {
    var namespace := r.ReadBytes();
    if !namespace.Val? {
      return Err;
    }
    var id := r.ReadBytes();
    if !id.Val? {
      return Err;
    }
    var version := r.ReadBytes();
    if !version.Val? {
      return Err;
    }
    res := Val(KnownPack(namespace.value, id.value, version.value));
  }

  method DecodeKnownPacks(r: Reader) returns (res: Res<seq<KnownPack>>)
    modifies r`unread
    ensures Did(res, r.unread, DecList(DecKnownPack, old(r.unread)))
  {
    var count := r.ReadVarInt();
    if !count.Val? {
      return Err;
    }
    if count.value < 0 {
      return Crash;
    }
    var n: nat := count.value;
    ghost var start := r.unread;
    var packs: seq<KnownPack> := [];
    ListStart(DecKnownPack, n, start);
    var i: nat := 0;
    while i < n
      invariant i == |packs| <= n
      invariant ListLoop(DecKnownPack, n, start, packs, r.unread)
    {
      ghost var s := r.unread;
      var k := DecodeKnownPack(r);
      if !k.Val? {
        ListStops(DecKnownPack, n, start, packs, s);
        return Err;
      }
      ListStep(DecKnownPack, n, start, packs, s, k.value, r.unread);
      packs := packs + [k.value];
      i := i + 1;
    }
    ListDone(DecKnownPack, n, start, packs, r.unread);
    res := Val(packs);
  }

  method DecodeFeatureFlags(r: Reader) returns (res: Res<seq<bytes>>)
    modifies r`unread
    ensures Did(res, r.unread, DecList(DecBytes, old(r.unread)))
  {
    var count := r.ReadVarInt();
    if !count.Val? {
      return Err;
    }
    if count.value < 0 {
      return Crash;
    }
    ghost var start := r.unread;
    var features: seq<bytes> := [];
    ListStart(DecBytes, count.value, start);
    var i: nat := 0;
    while i < count.value
      invariant i == |features| <= count.value
      invariant ListLoop(DecBytes, count.value, start, features, r.unread)
    {
      ghost var s := r.unread;
      var f := r.ReadBytes();
      if !f.Val? {
        ListStops(DecBytes, count.value, start, features, s);
        return Err;
      }
      ListStep(DecBytes, count.value, start, features, s, f.value, r.unread);
      features := features + [f.value];
      i := i + 1;
    }
    ListDone(DecBytes, count.value, start, features, r.unread);
    res := Val(features);
  }

  /** The innermost loop of ClientboundUpdateTags.Decode. */
  method DecodeTag(r: Reader) returns (res: Res<Tag>)
    modifies r`unread
    ensures Did(res, r.unread, DecTag(old(r.unread)))
  {
    var name := r.ReadBytes();
    if !name.Val? {
      return Err;
    }
    var count := r.ReadVarInt();
    if !count.Val? {
      return Err;
    }
    if count.value < 0 {
      return Crash;
    }
    ghost var start := r.unread;
    var entries: seq<int32> := [];
    ListStart(DecVarInt, count.value, start);
    var k: nat := 0;
    while k < count.value
      invariant k == |entries| <= count.value
      invariant ListLoop(DecVarInt, count.value, start, entries, r.unread)
    {
      ghost var s := r.unread;
      var e := r.ReadVarInt();
      if !e.Val? {
        ListStops(DecVarInt, count.value, start, entries, s);
        return Err;
      }
      ListStep(DecVarInt, count.value, start, entries, s, e.value, r.unread);
      entries := entries + [e.value];
      k := k + 1;
    }
    ListDone(DecVarInt, count.value, start, entries, r.unread);
    res := Val(Tag(name.value, entries));
  }

  /** The middle loop: the tags of one registry. */
  method DecodeRegistryTag(r: Reader) returns (res: Res<RegistryTag>)
    modifies r`unread
    ensures Did(res, r.unread, DecRegistryTag(old(r.unread)))
  {
    var registry := r.ReadBytes();
    if !registry.Val? {
      return Err;
    }
    var count := r.ReadVarInt();
    if !count.Val? {
      return Err;
    }
    if count.value < 0 {
      return Crash;
    }
    ghost var start := r.unread;
    var tags: seq<Tag> := [];
    ListStart(DecTag, count.value, start);
    var j: nat := 0;
    while j < count.value
      invariant j == |tags| <= count.value
      invariant ListLoop(DecTag, count.value, start, tags, r.unread)
    {
      ghost var s := r.unread;
      var t := DecodeTag(r);
      if !t.Val? {
        ListStops(DecTag, count.value, start, tags, s);
        return if t.Err? then Err else Crash;
      }
      ListStep(DecTag, count.value, start, tags, s, t.value, r.unread);
      tags := tags + [t.value];
      j := j + 1;
    }
    ListDone(DecTag, count.value, start, tags, r.unread);
    res := Val(RegistryTag(registry.value, tags));
  }

  /** The outermost loop. */
  method DecodeUpdateTags(r: Reader) returns (res: Res<seq<RegistryTag>>)
    modifies r`unread
    ensures Did(res, r.unread, DecList(DecRegistryTag, old(r.unread)))
  {
    var count := r.ReadVarInt();
    if !count.Val? {
      return Err;
    }
    if count.value < 0 {
      return Crash;
    }
    ghost var start := r.unread;
    var registries: seq<RegistryTag> := [];
    ListStart(DecRegistryTag, count.value, start);
    var i: nat := 0;
    while i < count.value
      invariant i == |registries| <= count.value
      invariant ListLoop(DecRegistryTag, count.value, start, registries, r.unread)
    {
      ghost var s := r.unread;
      var t := DecodeRegistryTag(r);
      if !t.Val? {
        ListStops(DecRegistryTag, count.value, start, registries, s);
        return if t.Err? then Err else Crash;
      }
      ListStep(DecRegistryTag, count.value, start, registries, s, t.value, r.unread);
      registries := registries + [t.value];
      i := i + 1;
    }
    ListDone(DecRegistryTag, count.value, start, registries, r.unread);
    res := Val(registries);
  }

  method DecodeHandshakeFields(r: Reader) returns (res: Res<Packet>)
    modifies r`unread
    ensures Did(res, r.unread, DecodeHandshake(old(r.unread)))
  {
    var protocolVersion := r.ReadVarInt();
    var address := r.ReadBytes();
    var port := r.ReadUShort();
    var next := r.ReadVarInt();
    if !next.Val? {
      return Err;
    }
    res := Val(ServerboundHandshake(
      if protocolVersion.Val? then protocolVersion.value else 0,
      if address.Val? then address.value else [],
      if port.Val? then port.value else 0,
      next.value));
  }

  method DecodeString(k: Kind, r: Reader) returns (res: Res<Packet>)
    requires IsText(k)
    modifies r`unread
    ensures Did(res, r.unread, DecodeText(k, old(r.unread)))
  {
    var text := r.ReadBytes();
    if !text.Val? {
      return Err;
    }
    match k {
      case CDisconnect => res := Val(ClientboundDisconnect(text.value));
      case CStatusResponse => res := Val(ClientboundStatusResponse(text.value));
      case CCookieRequest => res := Val(ClientboundCookieRequest(text.value));
      case SChatMessage => res := Val(ServerboundChatMessage(text.value, []));
      case SLoginStart => res := Val(ServerboundLoginStart(text.value, NIL_UUID));
    }
  }

  method DecodeNumbers(k: Kind, r: Reader, v: int) returns (res: Res<Packet>)
    requires IsNumber(k)
    modifies r`unread
    ensures Did(res, r.unread, DecodeNumber(k, v, old(r.unread)))
  {
    if k.CKeepAlive? {
      res := DecodeKeepAlive(r, v);
    } else if k.CConfigPing? {
      var n := r.ReadInt();
      res := if n.Val? then Val(ClientboundConfigPing(n.value)) else Err;
    } else if k.CSetCompression? {
      var n := r.ReadVarInt();
      res := if n.Val? then Val(ClientboundSetCompression(n.value)) else Err;
    } else {
      var n := r.ReadLong();
      if !n.Val? {
        return Err;
      }
      match k {
        case CPong => res := Val(ClientboundPong(n.value));
        case SPing => res := Val(ServerboundPing(n.value));
        case CConfigKeepAlive => res := Val(ClientboundConfigKeepAlive(n.value));
        case SConfigKeepAlive => res := Val(ServerboundConfigKeepAlive(n.value));
      }
    }
  }

  /** ClientboundKeepAlive.Decode: a long from 1.12.2 on, a widened VarInt before. */
  method DecodeKeepAlive(r: Reader, v: int) returns (res: Res<Packet>)
    modifies r`unread
    ensures Did(res, r.unread, DecodeNumber(CKeepAlive, v, old(r.unread)))
  {
    if v >= V1_12_2 {
      var n := r.ReadLong();
      res := if n.Val? then Val(ClientboundKeepAlive(n.value)) else Err;
    } else {
      var n := r.ReadVarInt();
      res := if n.Val? then Val(ClientboundKeepAlive(n.value)) else Err;
    }
  }

  method DecodePayload(k: Kind, r: Reader) returns (res: Res<Packet>)
    requires k.CCustomPayload? || k.SCustomPayload?
    modifies r`unread
    ensures Did(res, r.unread, DecodeCustomPayload(k, old(r.unread), r.clean))
  {
    var channel := r.ReadBytes();
    if !channel.Val? {
      return Err;
    }
    var content := r.ReadAll();
    if !content.Val? {
      return Err;
    }
    res := Val(if k.CCustomPayload? then ClientboundCustomPayload(channel.value, content.value)
               else ServerboundCustomPayload(channel.value, content.value));
  }

  method DecodeLists(k: Kind, r: Reader) returns (res: Res<Packet>)
    requires IsList(k)
    modifies r`unread
    ensures Did(res, r.unread, DecodeList(k, old(r.unread)))
  {
    match k {
      case CSelectKnownPacks =>
        var packs := DecodeKnownPacks(r);
        res := if packs.Val? then Val(ClientboundSelectKnownPacks(packs.value)) else if packs.Err? then Err else Crash;
      case CFeatureFlags =>
        var features := DecodeFeatureFlags(r);
        res := if features.Val? then Val(ClientboundFeatureFlags(features.value)) else if features.Err? then Err else Crash;
      case CUpdateTags =>
        var registries := DecodeUpdateTags(r);
        res := if registries.Val? then Val(ClientboundUpdateTags(registries.value)) else if registries.Err? then Err else Crash;
    }
  }

  method DecodeRegistryDataFields(r: Reader) returns (res: Res<Packet>)
    modifies r`unread
    ensures Did(res, r.unread, DecodeRegistryData(old(r.unread)))
  {
    var registry := r.ReadBytes();
    var content := r.ReadBytesPadded();
    res := Val(ClientboundRegistryData(if registry.Val? then registry.value else [], content));
  }

  /** packet.Decode for a packet of type k. */
  method Decode(k: Kind, r: Reader, v: int) returns (res: Res<Packet>)
    requires HasConstructor(k)
    modifies r`unread
    ensures Did(res, r.unread, DecodePacket(k, v, old(r.unread), r.clean))
  {
    if IsText(k) {
      res := DecodeString(k, r);
    } else if IsNumber(k) {
      res := DecodeNumbers(k, r, v);
    } else if IsList(k) {
      res := DecodeLists(k, r);
    } else if IsZero(k) {
      res := Val(ZeroPacket(k));
    } else {
      match k {
        case CLoginSuccess => res := DecodeLoginSuccess(r, v);
        case CJoinGame =>
          var body := r.ReadAll();
          res := if body.Val? then Val(ClientboundJoinGame) else Err;
        case CCustomPayload => res := DecodePayload(k, r);
        case SCustomPayload => res := DecodePayload(k, r);
        case CRegistryData => res := DecodeRegistryDataFields(r);
        case SHandshake => res := DecodeHandshakeFields(r);
        case SKeepAlive => res := Crash;
      }
    }
  }

  // ---------------------------------------------------------------- encoding

  method EncodeSettingsHead(w: Writer, c: ClientSettings, v: int)
    modifies w
    ensures w.out == old(w.out) + SettingsHead(c, v)
  {
    w.WriteBytes(c.locale);
    w.WriteByte(c.view);
    ghost var view := w.out;
    if v <= V1_7 {
      w.WriteByte(1);
      w.WriteBool(c.chatColors);
      w.WriteByte(c.skinParts % 2);
      w.WriteBool(true);
      Append4(view, [1], EncBool(c.chatColors), [c.skinParts % 2], EncBool(true));
    } else {
      w.WriteVarInt(c.chatMode);
      w.WriteBool(c.chatColors);
      w.WriteByte(c.skinParts);
      Append3(view, EncVarInt(c.chatMode), EncBool(c.chatColors), [c.skinParts]);
    }
    Append3(old(w.out), EncBytes(c.locale), [c.view],
      if v <= V1_7 then [1] + (EncBool(c.chatColors) + ([c.skinParts % 2] + EncBool(true)))
      else EncVarInt(c.chatMode) + (EncBool(c.chatColors) + [c.skinParts]));
  }

  method EncodeSettingsTail(w: Writer, c: ClientSettings, v: int)
    modifies w
    ensures w.out == old(w.out) + SettingsTail(c, v)
  {
    WriteGated(w, v >= V1_9, EncVarInt(c.mainHand));
    WriteGated(w, v >= V1_17_1, EncBool(false));
    WriteGated(w, v >= V1_18, EncBool(true));
    WriteGated(w, v >= V1_21_3, EncVarInt(0));
    Append4(old(w.out), Gate(v >= V1_9, EncVarInt(c.mainHand)), Gate(v >= V1_17_1, EncBool(false)),
      Gate(v >= V1_18, EncBool(true)), Gate(v >= V1_21_3, EncVarInt(0)));
  }

  method WriteGated(w: Writer, sent: bool, d: bytes)
    modifies w
    ensures w.out == old(w.out) + Gate(sent, d)
  {
    if sent {
      w.Write(d);
    }
    assert !sent ==> w.out == old(w.out) + [];
  }

  /** ServerboundClientSettings.Encode */
  method EncodeSettings(w: Writer, c: ClientSettings, v: int)
    modifies w
    ensures w.out == old(w.out) + EncSettings(c, v)
  {
    EncodeSettingsHead(w, c, v);
    EncodeSettingsTail(w, c, v);
    Append2(old(w.out), SettingsHead(c, v), SettingsTail(c, v));
  }

  method EncodeLoginIdentity(w: Writer, uuid: UUID, v: int)
    modifies w
    ensures w.out == old(w.out) + LoginIdentity(uuid, v)
  {
    if v >= V1_20_2 {
      w.Write(uuid);
    } else if v >= V1_19_2 && uuid != NIL_UUID {
      w.WriteBool(true);
      w.Write(uuid);
      Append2(old(w.out), EncBool(true), uuid);
    } else {
      w.Write([]);
    }
  }

  /** ServerboundLoginStart.Encode */
  method EncodeLoginStart(w: Writer, username: bytes, uuid: UUID, v: int)
    modifies w
    ensures w.out == old(w.out) + EncLoginStart(username, uuid, v)
  {
    w.WriteBytes(username);
    WriteGated(w, V1_19 <= v <= V1_19_2, EncBool(false));
    EncodeLoginIdentity(w, uuid, v);
    Append3(old(w.out), EncBytes(username), Gate(V1_19 <= v <= V1_19_2, EncBool(false)), LoginIdentity(uuid, v));
  }

  method EncodePack(w: Writer, k: KnownPack)
    modifies w
    ensures w.out == old(w.out) + EncKnownPack(k)
  {
    w.WriteBytes(k.namespace);
    w.WriteBytes(k.id);
    w.WriteBytes(k.version);
    Append3(old(w.out), EncBytes(k.namespace), EncBytes(k.id), EncBytes(k.version));
  }

  /** ServerboundSelectKnownPacks.Encode */
  method EncodeKnownPacks(w: Writer, packs: seq<KnownPack>)
    modifies w
    ensures w.out == old(w.out) + EncList(EncKnownPack, packs)
  {
    w.WriteVarInt(Trunc32(|packs|));
    ghost var start := w.out;
    assert packs[0..] == packs;
    var i := 0;
    while i < |packs|
      invariant 0 <= i <= |packs|
      invariant w.out + EncN(EncKnownPack, packs[i..]) == start + EncN(EncKnownPack, packs)
    {
      ghost var before := w.out;
      EncodePack(w, packs[i]);
      EncNFrom(EncKnownPack, packs, i);
      Append2(before, EncKnownPack(packs[i]), EncN(EncKnownPack, packs[i + 1..]));
      i := i + 1;
    }
    assert w.out + [] == w.out && packs[|packs|..] == [];
    Append2(old(w.out), EncVarInt(Trunc32(|packs|)), EncN(EncKnownPack, packs));
  }

  method EncodeHandshake(w: Writer, protocolVersion: int32, address: bytes, port: uint16, next: int32)
    modifies w
    ensures w.out == old(w.out) + (EncVarInt(protocolVersion) + (EncBytes(address) + (EncUShort(port) + EncVarInt(next))))
  {
    w.WriteVarInt(protocolVersion);
    w.WriteBytes(address);
    w.WriteUShort(port);
    w.WriteVarInt(next);
    Append4(old(w.out), EncVarInt(protocolVersion), EncBytes(address), EncUShort(port), EncVarInt(next));
  }

  method EncodeCookieResponse(w: Writer, key: bytes, data: Option<bytes>)
    modifies w
    ensures w.out == old(w.out) + (EncBytes(key) + (EncBool(data.Some?) + if data.Some? then EncBytes(data.value) else []))
  {
    w.WriteBytes(key);
    w.WriteBool(data.Some?);
    WriteGated(w, data.Some?, if data.Some? then EncBytes(data.value) else []);
    Append3(old(w.out), EncBytes(key), EncBool(data.Some?), if data.Some? then EncBytes(data.value) else []);
  }

  /** A string followed by bare bytes: the layout of custom payloads and of chat messages. */
  method EncodeStringAnd(w: Writer, s: bytes, d: bytes)
    modifies w
    ensures w.out == old(w.out) + (EncBytes(s) + d)
  {
    w.WriteBytes(s);
    w.Write(d);
    assert w.out == old(w.out) + (EncBytes(s) + d);
  }

  method EncodeKeepAlive(w: Writer, id: int64, v: int)
    modifies w
    ensures w.out == old(w.out) + EncKeepAlive(id, v)
  {
    if v >= V1_12_2 {
      w.WriteLong(id);
    } else {
      w.WriteVarInt(ToI32Of64(id));
    }
  }

  /** p.Encode */
  method EncodePacket(w: Writer, p: Packet, v: int)
    requires Encodable(p)
    modifies w
    ensures w.out == old(w.out) + Encode(p, v)
  {
    match p {
      case ServerboundHandshake(protocolVersion, address, port, next) =>
        EncodeHandshake(w, protocolVersion, address, port, next);
      case ServerboundPing(payload) => w.WriteLong(payload);
      case ServerboundLoginStart(username, uuid) => EncodeLoginStart(w, username, uuid, v);
      case ServerboundConfigKeepAlive(id) => w.WriteLong(id);
      case ServerboundSelectKnownPacks(packs) => EncodeKnownPacks(w, packs);
      case ServerboundCookieResponse(key, data) => EncodeCookieResponse(w, key, data);
      case ServerboundConfigPong(number) => w.Write(EncInt(number));
      case ServerboundChatMessage(message, trailer) => EncodeStringAnd(w, message, if v < V1_19 then [] else trailer);
      case ServerboundKeepAlive(id) => EncodeKeepAlive(w, id, v);
      case ServerboundClientSettings(settings) => EncodeSettings(w, settings, v);
      case ServerboundCustomPayload(channel, content) => EncodeStringAnd(w, channel, content);
      case ClientboundDisconnect(reason) => w.WriteBytes(reason);
      case ClientboundStatusResponse(json) => w.WriteBytes(json);
      case ClientboundPong(payload) => w.WriteLong(payload);
      case ClientboundSetCompression(threshold) => w.WriteVarInt(threshold);
      case ClientboundConfigKeepAlive(id) => w.WriteLong(id);
      case ClientboundCookieRequest(key) => w.WriteBytes(key);
      case ClientboundConfigPing(number) => w.Write(EncInt(number));
      case ClientboundCustomPayload(channel, content) => EncodeStringAnd(w, channel, content);
      case ServerboundStatusRequest => w.Write([]);
      case ServerboundLoginAcknowledged => w.Write([]);
      case ServerboundFinishConfiguration => w.Write([]);
      case ClientboundFinishConfiguration => w.Write([]);
    }
  }
}
