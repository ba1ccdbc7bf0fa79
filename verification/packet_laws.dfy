/** Round trips and version laws of the packet layouts. */
module PacketLaws {
  import opened Wire
  import opened Packets

  // ---------------------------------------------------------------- nested lists

  predicate SmallPack(k: KnownPack) { Bounded(k.namespace) && Bounded(k.id) && Bounded(k.version) }

  lemma {:induction false} PackListReadsBack(packs: seq<KnownPack>, rest: bytes)
    requires |packs| < TWO31 && forall k :: k in packs ==> SmallPack(k)
    ensures DecList(DecKnownPack, EncList(EncKnownPack, packs) + rest) == Ok(packs, rest)
  {
    forall k | k in packs
      ensures Inverts(DecKnownPack, EncKnownPack, k)
    {
      KnownPackRoundTrip(k);
    }
    ListRoundTrip(DecKnownPack, EncKnownPack, packs, rest);
  }

  /** The clientbound decoder reads back what the serverbound encoder writes, any number of packs,
      and leaves what follows unread. */
  lemma {:induction false} KnownPacksRoundTrip(packs: seq<KnownPack>, v: int, rest: bytes)
    requires |packs| < TWO31 && forall k :: k in packs ==> SmallPack(k)
    ensures DecodeList(CSelectKnownPacks, Encode(ServerboundSelectKnownPacks(packs), v) + rest)
         == Ok(ClientboundSelectKnownPacks(packs), rest)
  {
    var e := EncList(EncKnownPack, packs);
    assert Encode(ServerboundSelectKnownPacks(packs), v) == e;
    assert DecodeList(CSelectKnownPacks, e + rest) == KnownPacksFrom(DecList(DecKnownPack, e + rest));
    PackListReadsBack(packs, rest);
  }

  lemma {:induction false} StringListReadsBack(strings: seq<bytes>, rest: bytes)
    requires |strings| < TWO31 && forall f :: f in strings ==> Bounded(f)
    ensures DecList(DecBytes, EncList(EncBytes, strings) + rest) == Ok(strings, rest)
  {
    forall f | f in strings
      ensures Inverts(DecBytes, EncBytes, f)
    {
      forall more: bytes ensures DecBytes(EncBytes(f) + more) == Ok(f, more) { BytesRoundTrip(f, more); }
    }
    ListRoundTrip(DecBytes, EncBytes, strings, rest);
  }

  lemma {:induction false} FeatureFlagsRoundTrip(features: seq<bytes>, rest: bytes)
    requires |features| < TWO31 && forall f :: f in features ==> Bounded(f)
    ensures DecodeList(CFeatureFlags, EncList(EncBytes, features) + rest)
         == Ok(ClientboundFeatureFlags(features), rest)
  {
    var e := EncList(EncBytes, features);
    assert DecodeList(CFeatureFlags, e + rest) == FeatureFlagsFrom(DecList(DecBytes, e + rest));
    StringListReadsBack(features, rest);
  }

  lemma {:induction false} TagListReadsBack(registries: seq<RegistryTag>, rest: bytes)
    requires |registries| < TWO31 && forall r :: r in registries ==> SmallRegistryTag(r)
    ensures DecList(DecRegistryTag, EncList(EncRegistryTag, registries) + rest) == Ok(registries, rest)
  {
    forall r | r in registries
      ensures Inverts(DecRegistryTag, EncRegistryTag, r)
    {
      RegistryTagRoundTrip(r);
    }
    ListRoundTrip(DecRegistryTag, EncRegistryTag, registries, rest);
  }

  /** Registries of tags of entries, three lists deep. */
  lemma {:induction false} UpdateTagsRoundTrip(registries: seq<RegistryTag>, rest: bytes)
    requires |registries| < TWO31 && forall r :: r in registries ==> SmallRegistryTag(r)
    ensures DecodeList(CUpdateTags, EncList(EncRegistryTag, registries) + rest)
         == Ok(ClientboundUpdateTags(registries), rest)
  {
    var e := EncList(EncRegistryTag, registries);
    assert DecodeList(CUpdateTags, e + rest) == UpdateTagsFrom(DecList(DecRegistryTag, e + rest));
    TagListReadsBack(registries, rest);
  }

  lemma {:induction false} NeverPanics<T>(p: bytes -> Parse<T>, n: nat, s: bytes)
    requires forall t :: !p(t).Panic?
    ensures !DecN(p, n, s).Panic?
  {
    if n > 0 && p(s).Ok? {
      NeverPanics(p, n - 1, p(s).rest);
    }
  }

  /** A list of plain elements panics exactly when its count is readable and negative. */
  lemma {:induction false} FlatListPanics<T>(p: bytes -> Parse<T>, s: bytes)
    requires forall t :: !p(t).Panic?
    ensures DecList(p, s).Panic? <==> DecVarInt(s).Ok? && DecVarInt(s).value < 0
  {
    if DecVarInt(s).Ok? && DecVarInt(s).value >= 0 {
      NeverPanics(p, DecVarInt(s).value, DecVarInt(s).rest);
    }
  }

  predicate NegativeCount(s: bytes) { DecVarInt(s).Ok? && DecVarInt(s).value < 0 }

  /** Reading the list at s comes to its element i: that stands at t. */
  ghost predicate Reaches<T>(p: bytes -> Parse<T>, s: bytes, i: nat, t: bytes)
  {
    && DecVarInt(s).Ok? && i < DecVarInt(s).value
    && DecN(p, i, DecVarInt(s).rest).Ok? && DecN(p, i, DecVarInt(s).rest).rest == t
  }

  /** Element i of n stands at t. */
  ghost predicate ReachesOf<T>(p: bytes -> Parse<T>, n: nat, s: bytes, i: nat, t: bytes)
  {
    i < n && DecN(p, i, s).Ok? && DecN(p, i, s).rest == t
  }

  lemma {:induction false} ReachesNext<T>(p: bytes -> Parse<T>, n: nat, fewer: nat, s: bytes, i: nat, j: nat, t: bytes)
    requires n == fewer + 1 && j == i + 1 && p(s).Ok?
    ensures ReachesOf(p, n, s, j, t) <==> ReachesOf(p, fewer, p(s).rest, i, t)
  {
    assert DecN(p, j, s) == Prepend([p(s).value], DecN(p, i, p(s).rest));
  }

  /** Elements in a row panic if and only if the reading comes to one that does. */
  lemma {:induction false} ElementsPanic<T>(p: bytes -> Parse<T>, n: nat, s: bytes)
    ensures DecN(p, n, s).Panic? <==> exists i: nat, t :: ReachesOf(p, n, s, i, t) && p(t).Panic?
  {
    if n > 0 {
      assert ReachesOf(p, n, s, 0, s);
      if p(s).Ok? {
        var fewer: nat := n - 1;
        ElementsPanic(p, fewer, p(s).rest);
        assert DecN(p, n, s) == Prepend([p(s).value], DecN(p, fewer, p(s).rest));
        forall i: nat, t | ReachesOf(p, fewer, p(s).rest, i, t) && p(t).Panic?
          ensures ReachesOf(p, n, s, i + 1, t)
        {
          ReachesNext(p, n, fewer, s, i, i + 1, t);
        }
        forall j: nat, t | ReachesOf(p, n, s, j, t) && p(t).Panic?
          ensures exists i: nat :: ReachesOf(p, fewer, p(s).rest, i, t)
        {
          var i: nat := j - 1;
          ReachesNext(p, n, fewer, s, i, j, t);
        }
      }
    }
  }

  /** A list panics if and only if its count is negative or the reading comes to an element that does. */
  lemma {:induction false} ListPanics<T>(p: bytes -> Parse<T>, s: bytes)
    ensures DecList(p, s).Panic? <==> NegativeCount(s) || exists i: nat, t :: Reaches(p, s, i, t) && p(t).Panic?
  {
    if DecVarInt(s).Ok? && DecVarInt(s).value >= 0 {
      var n: nat := DecVarInt(s).value;
      var rest := DecVarInt(s).rest;
      ElementsPanic(p, n, rest);
      assert forall i: nat, t :: ReachesOf(p, n, rest, i, t) <==> Reaches(p, s, i, t);
    }
  }

  /** The feature-flags and known-packs decoders panic if and only if the count is negative. */
  lemma {:induction false} FlagsAndPacksPanic(s: bytes)
    ensures DecodeList(CFeatureFlags, s).Panic? <==> NegativeCount(s)
    ensures DecodeList(CSelectKnownPacks, s).Panic? <==> NegativeCount(s)
  {
    FlatListPanics(DecBytes, s);
    FlatListPanics(DecKnownPack, s);
  }

  /** A tag has a negative number of entries. */
  predicate NegativeTag(s: bytes) { DecBytes(s).Ok? && NegativeCount(DecBytes(s).rest) }

  /** A registry has a negative number of tags, or the reading comes to a tag that is negative. */
  ghost predicate NegativeRegistry(s: bytes)
  {
    && DecBytes(s).Ok?
    && var tags := DecBytes(s).rest;
       NegativeCount(tags) || exists i: nat, t :: Reaches(DecTag, tags, i, t) && NegativeTag(t)
  }

  lemma {:induction false} TagPanics(s: bytes)
    ensures DecTag(s).Panic? <==> NegativeTag(s)
  {
    if DecBytes(s).Ok? {
      FlatListPanics(DecVarInt, DecBytes(s).rest);
    }
  }

  lemma {:induction false} RegistryTagPanics(s: bytes)
    ensures DecRegistryTag(s).Panic? <==> NegativeRegistry(s)
  {
    if DecBytes(s).Ok? {
      ListPanics(DecTag, DecBytes(s).rest);
      forall t: bytes
        ensures DecTag(t).Panic? <==> NegativeTag(t)
      {
        TagPanics(t);
      }
    }
  }

  /** The update-tags decoder panics if and only if one of its counts is negative, on any of the three
      levels, at a place the reading comes to. */
  lemma {:induction false} UpdateTagsPanics(s: bytes)
    ensures DecodeList(CUpdateTags, s).Panic? <==>
      NegativeCount(s) || exists i: nat, t :: Reaches(DecRegistryTag, s, i, t) && NegativeRegistry(t)
  {
    ListPanics(DecRegistryTag, s);
    forall t: bytes
      ensures DecRegistryTag(t).Panic? <==> NegativeRegistry(t)
    {
      RegistryTagPanics(t);
    }
  }

  /** Besides the three lists, only one decoder panics, always: that of the keep-alive the client sends. */
  lemma {:induction false} PacketPanics(k: Kind, v: int, s: bytes, clean: bool)
    requires HasConstructor(k)
    ensures DecodePacket(k, v, s, clean).Panic? <==> (IsList(k) && DecodeList(k, s).Panic?) || k == SKeepAlive
  {
    if k == CLoginSuccess {
      LoginSuccessSafe(v, s);
    }
  }

  lemma {:induction false} ExtrasSafe(v: int, s: bytes)
    ensures !DecExtras(v, s).Panic?
  {
    if DecVarInt(s).Ok? {
      var n := DecVarInt(s).value;
      NeverPanics(DecProperty, if n < 0 then 0 else n, DecVarInt(s).rest);
    }
  }

  lemma {:induction false} IdentitySafe(v: int, s: bytes)
    ensures !DecIdentity(v, s).Panic?
  {
  }

  lemma {:induction false} LoginSuccessSafe(v: int, s: bytes)
    ensures !DecLoginSuccess(v, s).Panic?
  {
    IdentitySafe(v, s);
    if DecIdentity(v, s).Ok? {
      var profile := DecIdentity(v, s).rest;
      if DecBytes(profile).Ok? {
        ExtrasSafe(v, DecBytes(profile).rest);
      }
    }
  }

  // ---------------------------------------------------------------- client settings

  /** The fields that every version from 1.8 on reads. */
  function DecSettingsHead(s: bytes): Parse<ClientSettings>
  {
    var (locale, s1) :- DecBytes(s);
    var (view, s2) :- DecByte(s1);
    var (chatMode, s3) :- DecVarInt(s2);
    var (colors, s4) :- DecBool(s3);
    var (skin, s5) :- DecByte(s4);
    Ok(ClientSettings(locale, view, chatMode, colors, skin, 0), s5)
  }

  /** The main hand, then the filtering, listing and particle fields of later versions. */
  function DecSettingsTail(v: int, s: bytes): Parse<int32>
  {
    var (hand, s1) :- DecVarInt(s);
    var (_, s2) :- if v >= V1_17_1 then DecBool(s1) else Ok(false, s1);
    var (_, s3) :- if v >= V1_18 then DecBool(s2) else Ok(false, s2);
    var (_, s4) :- if v >= V1_21_3 then DecVarInt(s3) else Ok(0, s3);
    Ok(hand, s4)
  }

  /** A server of version v, 1.9 or later, reading the settings. */
  function DecSettings(v: int, s: bytes): Parse<ClientSettings>
  {
    var (head, t) :- DecSettingsHead(s);
    var (hand, u) :- DecSettingsTail(v, t);
    Ok(head.(mainHand := hand), u)
  }

  lemma {:induction false} SettingsHeadReadsBack(c: ClientSettings, v: int, rest: bytes)
    requires v >= V1_8 && Bounded(c.locale)
    ensures DecSettingsHead(SettingsHead(c, v) + rest) == Ok(c.(mainHand := 0), rest)
  {
    var t4 := [c.skinParts] + rest;
    var t3 := EncBool(c.chatColors) + t4;
    var t2 := EncVarInt(c.chatMode) + t3;
    var t1 := [c.view] + t2;
    assert SettingsHead(c, v) + rest == EncBytes(c.locale) + t1;
    BytesRoundTrip(c.locale, t1);
    VarIntRoundTrip(c.chatMode, t3);
    assert t1[1..] == t2 && t3[1..] == t4 && t4[1..] == rest;
  }

  lemma {:induction false} SettingsTailReadsBack(c: ClientSettings, v: int, rest: bytes)
    requires v >= V1_9
    ensures DecSettingsTail(v, SettingsTail(c, v) + rest) == Ok(c.mainHand, rest)
  {
    var t3 := Gate(v >= V1_21_3, EncVarInt(0)) + rest;
    var t2 := Gate(v >= V1_18, EncBool(true)) + t3;
    var t1 := Gate(v >= V1_17_1, EncBool(false)) + t2;
    assert SettingsTail(c, v) + rest == EncVarInt(c.mainHand) + t1;
    VarIntRoundTrip(c.mainHand, t1);
    assert if v >= V1_17_1 then t1[1..] == t2 else t1 == t2;
    assert if v >= V1_18 then t2[1..] == t3 else t2 == t3;
    VarIntRoundTrip(0, rest);
    assert v < V1_21_3 ==> t3 == rest;
  }

  /** All six settings come back from 1.9 on. */
  lemma {:induction false} SettingsRoundTrip(c: ClientSettings, v: int, rest: bytes)
    requires v >= V1_9 && Bounded(c.locale)
    ensures DecSettings(v, EncSettings(c, v) + rest) == Ok(c, rest)
  {
    assert EncSettings(c, v) + rest == SettingsHead(c, v) + (SettingsTail(c, v) + rest);
    SettingsHeadReadsBack(c, v, SettingsTail(c, v) + rest);
    SettingsTailReadsBack(c, v, rest);
  }

  /** From 1.8 on every version only appends fields. */
  lemma {:induction false} SettingsPrefix(c: ClientSettings, v: int, w: int)
    requires V1_8 <= v <= w
    ensures EncSettings(c, v) <= EncSettings(c, w)
  {
    assert SettingsHead(c, v) == SettingsHead(c, w);
    TailPrefix(c, v, w);
  }

  lemma {:induction false} TailPrefix(c: ClientSettings, v: int, w: int)
    requires v <= w
    ensures SettingsTail(c, v) <= SettingsTail(c, w)
  {
    var tail := Gate(w >= V1_17_1, EncBool(false)) + (Gate(w >= V1_18, EncBool(true)) + Gate(w >= V1_21_3, EncVarInt(0)));
    if v < V1_9 {
      assert SettingsTail(c, v) == [];
    } else if v < V1_17_1 {
      assert SettingsTail(c, v) == EncVarInt(c.mainHand);
      assert SettingsTail(c, w) == EncVarInt(c.mainHand) + tail;
    } else if v < V1_18 {
      assert SettingsTail(c, v) == EncVarInt(c.mainHand) + EncBool(false);
      assert SettingsTail(c, w) == (EncVarInt(c.mainHand) + EncBool(false)) +
        (Gate(w >= V1_18, EncBool(true)) + Gate(w >= V1_21_3, EncVarInt(0)));
    } else if v < V1_21_3 {
      assert SettingsTail(c, v) == EncVarInt(c.mainHand) + (EncBool(false) + EncBool(true));
      assert SettingsTail(c, w) == (EncVarInt(c.mainHand) + (EncBool(false) + EncBool(true))) + Gate(w >= V1_21_3, EncVarInt(0));
    }
  }

  // ---------------------------------------------------------------- login start

  /** What follows the name and the signature flag: always a UUID from 1.20.2 on, an optional one
      from 1.19.2, none before. */
  function DecLoginIdentity(v: int, s: bytes): Parse<Option<UUID>>
  {
    if v >= V1_20_2 then
      var (u, t) :- DecUUID(s);
      Ok(Some(u), t)
    else if v >= V1_19_2 then
      var (present, t) :- DecBool(s);
      if !present then Ok(None, t)
      else
        var (u, t2) :- DecUUID(t);
        Ok(Some(u), t2)
    else Ok(None, s)
  }

  /** A server of version v reading the login packet. The 1.19 and 1.19.2 servers first read
      whether signature data follows. */
  function DecLoginStart(v: int, s: bytes): Parse<(bytes, Option<UUID>)>
  {
    var (name, s1) :- DecBytes(s);
    var (signed, s2) :- if V1_19 <= v <= V1_19_2 then DecBool(s1) else Ok(false, s1);
    if signed then Fail
    else
      var (identity, s3) :- DecLoginIdentity(v, s2);
      Ok((name, identity), s3)
  }

  lemma {:induction false} LoginIdentityReadsBack(uuid: UUID, v: int)
    ensures DecLoginIdentity(v, LoginIdentity(uuid, v)) == Ok(if v >= V1_19_2 then Some(uuid) else None, [])
       <==> !(V1_19_2 <= v < V1_20_2 && uuid == NIL_UUID)
  {
    var s := LoginIdentity(uuid, v);
    assert uuid[..16] == uuid && uuid[16..] == [];
    if V1_19_2 <= v < V1_20_2 && uuid != NIL_UUID {
      assert s[1..] == uuid;
    }
  }

  /** The server reads the name back, and the UUID exactly from 1.19.2 on, unless the nil UUID is
      given to a version from 1.19.2 to 1.20: then the presence flag is missing. */
  lemma {:induction false} LoginStartRoundTrip(name: bytes, uuid: UUID, v: int)
    requires Bounded(name)
    ensures DecLoginStart(v, EncLoginStart(name, uuid, v)) == Ok((name, if v >= V1_19_2 then Some(uuid) else None), [])
       <==> !(V1_19_2 <= v < V1_20_2 && uuid == NIL_UUID)
  {
    var flag := Gate(V1_19 <= v <= V1_19_2, EncBool(false));
    var last := LoginIdentity(uuid, v);
    assert EncLoginStart(name, uuid, v) == EncBytes(name) + (flag + last);
    BytesRoundTrip(name, flag + last);
    assert if V1_19 <= v <= V1_19_2 then (flag + last)[1..] == last else flag + last == last;
    LoginIdentityReadsBack(uuid, v);
  }

  /** OfflineUUID on a 20-byte hash: the first 16 bytes with the version and variant bits forced. */
  function OfflineUUID(hash: bytes): UUID
    requires |hash| == 20
  {
    hash[..16][6 := hash[6] % 16 + 48][8 := hash[8] % 64 + 128]
  }

  /** The version bits say 3 and the variant bits 10 (sections 4.1.3 and 4.1.1 of RFC 4122), whatever
      the hash, so the result is not the nil UUID; the other 122 bits are those of the hash. */
  lemma {:induction false} OfflineUUIDBits(hash: bytes)
    requires |hash| == 20
    ensures OfflineUUID(hash)[6] / 16 == 3 && OfflineUUID(hash)[8] / 64 == 2
    ensures forall i :: 0 <= i < 16 && i != 6 && i != 8 ==> OfflineUUID(hash)[i] == hash[i]
    ensures OfflineUUID(hash)[6] % 16 == hash[6] % 16 && OfflineUUID(hash)[8] % 64 == hash[8] % 64
    ensures OfflineUUID(hash) != NIL_UUID
  {
    assert OfflineUUID(hash)[6] != NIL_UUID[6];
  }

  // ---------------------------------------------------------------- keep-alive

  /** Answering a keep-alive loses nothing: for every version and every body the client accepts,
      the answer decodes to the same number and is no longer than what was read. */
  lemma {:induction false} KeepAliveEcho(v: int, s: bytes, rest: bytes)
    requires DecKeepAlive(v, s).Ok?
    ensures var id := DecKeepAlive(v, s).value;
            && DecKeepAlive(v, EncKeepAlive(id, v) + rest) == Ok(id, rest)
            && |EncKeepAlive(id, v)| <= |s| - |DecKeepAlive(v, s).rest|
  {
    var id := DecKeepAlive(v, s).value;
    if v >= V1_12_2 {
      LongRoundTrip(id, rest);
    } else {
      VarIntRoundTrip(id, rest);
      VarIntMinimal(s);
      NarrowingKeeps(id);
    }
  }

  lemma {:induction false} NarrowingKeeps(n: int32)
    ensures ToI32Of64(n) == n
  {
    if n < 0 {
      NarrowNegative(n);
    }
  }

  /** The low 32 bits of a small negative int64 are those of the int32. */
  lemma {:induction false} NarrowNegative(n: int32)
    requires n < 0
    ensures Wrap32(n + TWO64) == n + TWO32
  {
    Wrap32IsMod(n + TWO64);
    assert n + TWO64 == TWO32 * 0xFFFF_FFFF + (n + TWO32);
  }
}
