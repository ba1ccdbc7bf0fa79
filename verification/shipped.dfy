/** The shipped tables as output of the generator. */
module Shipped {
  import opened Wire
  import opened Packets
  import opened Registry
  import opened Tables
  import opened Generator

  /** A Minecraft name that becomes the Go type k where k belongs. */
  function NameFor(k: Kind): McName
  {
    match k
    case SHandshake => SetProtocol
    case CStatusResponse => ServerInfo
    case CPong => PingName
    case SStatusRequest => PingStart
    case SPing => PingName
    case SLoginStart => LoginStartName
    case CLoginSuccess => Success
    case CSetCompression => Compress
    case SLoginAcknowledged => LoginAcknowledgedName
    case CKeepAlive => KeepAliveName
    case SKeepAlive => KeepAliveName
    case SChatMessage => Chat
    case SClientSettings => Settings
    case SCustomPayload => CustomPayloadName
    case CCustomPayload => CustomPayloadName
    case CDisconnect => DisconnectName
    case SFinishConfiguration => FinishConfigurationName
    case CFinishConfiguration => FinishConfigurationName
    case SConfigKeepAlive => KeepAliveName
    case CConfigKeepAlive => KeepAliveName
    case SSelectKnownPacks => SelectKnownPacksName
    case CSelectKnownPacks => SelectKnownPacksName
    case CCookieRequest => CookieRequestName
    case SCookieResponse => CookieResponseName
    case CConfigPing => PingName
    case SConfigPong => PongName
    case CJoinGame => LoginName
    case CFeatureFlags => FeatureFlagsName
    case CUpdateTags => UpdateTagsName
    case CRegistryData => RegistryDataName
    case SPlayerPosition => OtherName("position")
    case CChatMessage => OtherName("chat")
  }

  // ---------------------------------------------------------------- the types each table lists

  /** The types that some version lists in a slot. */
  function TypesOf(slot: Slot): set<Kind>
  {
    match slot
    case Slot(Handshaking, Serverbound) => {SHandshake}
    case Slot(Handshaking, Clientbound) => {}
    case Slot(Status, Serverbound) => {SStatusRequest, SPing}
    case Slot(Status, Clientbound) => {CStatusResponse, CPong}
    case Slot(Login, Serverbound) => {SLoginStart, SLoginAcknowledged, SCookieResponse}
    case Slot(Login, Clientbound) => {CDisconnect, CLoginSuccess, CSetCompression, CCookieRequest}
    case Slot(Configuration, Serverbound) =>
      {SClientSettings, SCookieResponse, SCustomPayload, SFinishConfiguration, SConfigKeepAlive, SConfigPong, SSelectKnownPacks}
    case Slot(Configuration, Clientbound) =>
      {CCookieRequest, CCustomPayload, CDisconnect, CFinishConfiguration, CConfigKeepAlive, CConfigPing, CRegistryData,
       CFeatureFlags, CSelectKnownPacks}
    case Slot(Play, Serverbound) => {SKeepAlive, SChatMessage, SClientSettings, SCustomPayload, SCookieResponse}
    case Slot(Play, Clientbound) =>
      {CKeepAlive, CJoinGame, SChatMessage, CCustomPayload, CDisconnect, CPong, CFeatureFlags, CCookieRequest}
  }

  lemma {:induction false} LoginTypes(v: int)
    ensures forall k :: k in LoginServerboundIds(v) ==> k in TypesOf(Slot(Login, Serverbound))
    ensures forall k :: k in LoginClientboundIds(v) ==> k in TypesOf(Slot(Login, Clientbound))
  {
  }

  lemma {:induction false} ConfigurationTypes(v: int)
    ensures forall k :: k in ConfigurationServerboundIds(v) ==> k in TypesOf(Slot(Configuration, Serverbound))
    ensures forall k :: k in ConfigurationClientboundIds(v) ==> k in TypesOf(Slot(Configuration, Clientbound))
  {
  }

  lemma {:induction false} PlaySendTypes(v: int)
    ensures forall k :: k in PlayServerboundIds(v) ==> k in TypesOf(Slot(Play, Serverbound))
  {
  }

  lemma {:induction false} PlayReceiveTypes(v: int)
    ensures forall k :: k in PlayClientboundIds(v) ==> k in TypesOf(Slot(Play, Clientbound))
  {
  }

  lemma {:induction false} SlotTypes(v: int, slot: Slot)
    ensures forall k :: k in IdsOf(v, slot) ==> k in TypesOf(slot)
  {
    match slot
    case Slot(Handshaking, _) =>
    case Slot(Status, _) =>
    case Slot(Login, _) => LoginTypes(v);
    case Slot(Configuration, _) => ConfigurationTypes(v);
    case Slot(Play, Serverbound) => PlaySendTypes(v);
    case Slot(Play, Clientbound) => PlayReceiveTypes(v);
  }

  lemma {:induction false} LoginNamed(dir: Direction, k: Kind)
    requires k in TypesOf(Slot(Login, dir))
    ensures Final(NameFor(k), Login, dir) == Some(k)
  {
  }

  lemma {:induction false} ConfigurationSendNamed(k: Kind)
    requires k in TypesOf(Slot(Configuration, Serverbound))
    ensures Final(NameFor(k), Configuration, Serverbound) == Some(k)
  {
  }

  lemma {:induction false} ConfigurationReceiveNamed(k: Kind)
    requires k in TypesOf(Slot(Configuration, Clientbound))
    ensures Final(NameFor(k), Configuration, Clientbound) == Some(k)
  {
  }

  lemma {:induction false} PlayNamed(dir: Direction, k: Kind)
    requires k in TypesOf(Slot(Play, dir))
    ensures Final(NameFor(k), Play, dir) == Some(k)
  {
  }

  lemma {:induction false} EarlyNamed(state: State, dir: Direction, k: Kind)
    requires (state == Handshaking || state == Status) && k in TypesOf(Slot(state, dir))
    ensures Final(NameFor(k), state, dir) == Some(k)
  {
  }

  lemma {:induction false} TypesNamed(state: State, dir: Direction, k: Kind)
    requires k in TypesOf(Slot(state, dir))
    ensures Final(NameFor(k), state, dir) == Some(k)
  {
    if state == Login {
      LoginNamed(dir, k);
    } else if state == Play {
      PlayNamed(dir, k);
    } else if state != Configuration {
      EarlyNamed(state, dir, k);
    } else if dir == Serverbound {
      ConfigurationSendNamed(k);
    } else {
      ConfigurationReceiveNamed(k);
    }
  }

  lemma {:induction false} ShippedNames(ids: map<Kind, int32>, slot: Slot)
    requires forall k :: k in ids ==> k in TypesOf(slot)
    ensures forall k :: k in ids ==> Final(NameFor(k), slot.state, slot.direction) == Some(k)
  {
    forall k | k in ids
      ensures Final(NameFor(k), slot.state, slot.direction) == Some(k)
    {
      TypesNamed(slot.state, slot.direction, k);
    }
  }

  // ---------------------------------------------------------------- the generator's input

  /** The Minecraft names behind a table, with their IDs. */
  ghost function SourceOf(ids: map<Kind, int32>, slot: Slot): IdMap
    requires forall k :: k in ids ==> Final(NameFor(k), slot.state, slot.direction) == Some(k)
  {
    map m | m in (set k | k in ids :: NameFor(k)) :: ids[Final(m, slot.state, slot.direction).value]
  }

  lemma {:induction false} SourceIds(ids: map<Kind, int32>, slot: Slot, order: seq<McName>)
    requires forall k :: k in ids ==> Final(NameFor(k), slot.state, slot.direction) == Some(k)
    requires IsOrder(order, SourceOf(ids, slot).Keys)
    ensures Fill(SourceOf(ids, slot), slot.state, slot.direction, order).ids == ids
  {
    var source := SourceOf(ids, slot);
    var filled := Fill(source, slot.state, slot.direction, order).ids;
    forall g | g in filled
      ensures g in ids && filled[g] == ids[g]
    {
      var m := IdSource(source, slot.state, slot.direction, order, g);
    }
    forall k | k in ids
      ensures k in filled
    {
      assert NameFor(k) in source;
      Entered(source, slot.state, slot.direction, order, NameFor(k));
    }
  }

  lemma {:induction false} SourceNames(ids: map<Kind, int32>, names: map<int32, Kind>, slot: Slot, order: seq<McName>)
    requires forall k :: k in ids ==> Final(NameFor(k), slot.state, slot.direction) == Some(k)
    requires Inverse(ids, names) && IsOrder(order, SourceOf(ids, slot).Keys)
    ensures Fill(SourceOf(ids, slot), slot.state, slot.direction, order).names == names
  {
    var source := SourceOf(ids, slot);
    var filled := Fill(source, slot.state, slot.direction, order).names;
    forall id | id in filled
      ensures id in names && filled[id] == names[id]
    {
      var m := NameSource(source, slot.state, slot.direction, order, id);
    }
    forall id | id in names
      ensures id in filled
    {
      assert NameFor(names[id]) in source;
      Entered(source, slot.state, slot.direction, order, NameFor(names[id]));
    }
  }

  /** Both shipped tables of every slot, for every version, are what the generator fills from one map of
      Minecraft names to IDs, in whatever order it visits them. */
  lemma {:induction false} ShippedGenerated(v: int, slot: Slot) returns (source: IdMap)
    ensures forall m :: m in source ==> Final(m, slot.state, slot.direction).Some?
    ensures forall order :: IsOrder(order, source.Keys) ==>
              Fill(source, slot.state, slot.direction, order) == TablePair(IdsOf(v, slot), NamesOf(v, slot))
  {
    var ids := IdsOf(v, slot);
    SlotTypes(v, slot);
    ShippedNames(ids, slot);
    source := SourceOf(ids, slot);
    TablesInverse(v, slot);
    forall order | IsOrder(order, source.Keys)
      ensures Fill(source, slot.state, slot.direction, order) == TablePair(ids, NamesOf(v, slot))
    {
      SourceIds(ids, slot, order);
      SourceNames(ids, NamesOf(v, slot), slot, order);
    }
  }
}
