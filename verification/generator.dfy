/** How generator/main.go fills the two tables of one state and direction, under Go's arbitrary order
    of map iteration. */
module Generator {
  import opened Wire
  import opened Packets
  import opened Registry

  /** The Minecraft packet names that goNameToMcNames mentions, and all the others. */
  datatype McName =
    | SetProtocol | ServerInfo | PingName | PingStart | LoginStartName | Success | Compress | LoginAcknowledgedName
    | KeepAliveName | Chat | ChatMessageName | PlayerChatMessage | Settings | ClientInformation | CustomPayloadName
    | KickDisconnect | DisconnectName | FinishConfigurationName | SelectKnownPacksName | CookieRequestName
    | CookieResponseName | PongName | LoginName | FeatureFlagsName | UpdateTagsName | RegistryDataName
    | OtherName(name: string)

  /** goNameToMcNames; a Go name that is not in the map lists nothing. */
  function McNames(goName: Kind): seq<McName>
  {
    match goName
    case SHandshake => [SetProtocol]
    case CStatusResponse => [ServerInfo]
    case CPong => [PingName]
    case SStatusRequest => [PingStart]
    case SPing => [PingName]
    case SLoginStart => [LoginStartName]
    case CLoginSuccess => [Success]
    case CSetCompression => [Compress]
    case SLoginAcknowledged => [LoginAcknowledgedName]
    case CKeepAlive => [KeepAliveName]
    case SKeepAlive => [KeepAliveName]
    case SChatMessage => [Chat, ChatMessageName, PlayerChatMessage]
    case SClientSettings => [Settings, ClientInformation]
    case SCustomPayload => [CustomPayloadName]
    case CCustomPayload => [CustomPayloadName]
    case CDisconnect => [KickDisconnect, DisconnectName]
    case SFinishConfiguration => [FinishConfigurationName]
    case CFinishConfiguration => [FinishConfigurationName]
    case SConfigKeepAlive => [KeepAliveName]
    case CConfigKeepAlive => [KeepAliveName]
    case SSelectKnownPacks => [SelectKnownPacksName]
    case CSelectKnownPacks => [SelectKnownPacksName]
    case CCookieRequest => [CookieRequestName]
    case SCookieResponse => [CookieResponseName]
    case CConfigPing => [PingName]
    case SConfigPong => [PongName]
    case CJoinGame => [LoginName]
    case CFeatureFlags => [FeatureFlagsName]
    case CUpdateTags => [UpdateTagsName]
    case CRegistryData => [RegistryDataName]
    case SPlayerPosition => []
    case CChatMessage => []
  }

  const GO_NAMES: set<Kind> := set g: Kind | HasConstructor(g)

  /** resolveAmbiguousNames; None is the empty string. */
  function Resolve(goName: Kind, state: State, dir: Direction): Option<Kind>
  {
    match goName
    case CDisconnect => Some(CDisconnect)
    case SCustomPayload => Some(if dir == Serverbound then SCustomPayload else CCustomPayload)
    case CCustomPayload => Some(if dir == Serverbound then SCustomPayload else CCustomPayload)
    case SSelectKnownPacks => Some(if dir == Serverbound then SSelectKnownPacks else CSelectKnownPacks)
    case CSelectKnownPacks => Some(if dir == Serverbound then SSelectKnownPacks else CSelectKnownPacks)
    case SFinishConfiguration => ResolveFinish(state, dir)
    case CFinishConfiguration => ResolveFinish(state, dir)
    case CKeepAlive => Some(ResolveKeepAlive(state, dir))
    case SKeepAlive => Some(ResolveKeepAlive(state, dir))
    case SConfigKeepAlive => Some(ResolveKeepAlive(state, dir))
    case CConfigKeepAlive => Some(ResolveKeepAlive(state, dir))
    case CPong => ResolvePing(state, dir)
    case SPing => ResolvePing(state, dir)
    case CConfigPing => ResolvePing(state, dir)
    case SConfigPong => ResolvePing(state, dir)
    case _ => Some(goName)
  }

  function ResolveFinish(state: State, dir: Direction): Option<Kind>
  {
    if state != Configuration then None
    else Some(if dir == Serverbound then SFinishConfiguration else CFinishConfiguration)
  }

  function ResolveKeepAlive(state: State, dir: Direction): Kind
  {
    if dir == Serverbound then if state == Configuration then SConfigKeepAlive else SKeepAlive
    else if state == Configuration then CConfigKeepAlive else CKeepAlive
  }

  function ResolvePing(state: State, dir: Direction): Option<Kind>
  {
    if dir == Clientbound then Some(if state == Configuration then CConfigPing else CPong)
    else if state == Status then Some(SPing)
    else if state == Configuration then Some(SConfigPong)
    else None
  }

  /** contains */
  method Contains(slice: seq<McName>, item: McName) returns (found: bool)
    ensures found <==> item in slice
  {
    for i := 0 to |slice|
      invariant item !in slice[..i]
    {
      if slice[i] == item {
        return true;
      }
    }
    return false;
  }

  // ---------------------------------------------------------------- one Minecraft name

  /** What ping and pong are called: the server pings in configuration and play, the client answers it in
      configuration only, and in the status state the client pings and the server answers. */
  function PingType(slot: Slot): Option<Kind>
  {
    match slot
    case Slot(Configuration, Clientbound) => Some(CConfigPing)
    case Slot(Configuration, Serverbound) => Some(SConfigPong)
    case Slot(Status, Serverbound) => Some(SPing)
    case Slot(_, Clientbound) => Some(CPong)
    case Slot(_, Serverbound) => None
  }

  /** Configuration has its own keep-alives, in both directions. */
  function KeepAliveType(slot: Slot): Kind
  {
    match slot
    case Slot(Configuration, Clientbound) => CConfigKeepAlive
    case Slot(Configuration, Serverbound) => SConfigKeepAlive
    case Slot(_, Clientbound) => CKeepAlive
    case Slot(_, Serverbound) => SKeepAlive
  }

  /** The one Go name a Minecraft name stands for in a state and direction, if any. */
  function Final(m: McName, state: State, dir: Direction): Option<Kind>
  {
    match m
    case SetProtocol => Some(SHandshake)
    case ServerInfo => Some(CStatusResponse)
    case PingName => PingType(Slot(state, dir))
    case PongName => PingType(Slot(state, dir))
    case PingStart => Some(SStatusRequest)
    case LoginStartName => Some(SLoginStart)
    case Success => Some(CLoginSuccess)
    case Compress => Some(CSetCompression)
    case LoginAcknowledgedName => Some(SLoginAcknowledged)
    case KeepAliveName => Some(KeepAliveType(Slot(state, dir)))
    case Chat => Some(SChatMessage)
    case ChatMessageName => Some(SChatMessage)
    case PlayerChatMessage => Some(SChatMessage)
    case Settings => Some(SClientSettings)
    case ClientInformation => Some(SClientSettings)
    case CustomPayloadName => Some(if dir == Serverbound then SCustomPayload else CCustomPayload)
    case KickDisconnect => Some(CDisconnect)
    case DisconnectName => Some(CDisconnect)
    case FinishConfigurationName =>
      if state == Configuration && dir == Clientbound then Some(CFinishConfiguration)
      else if state == Configuration && dir == Serverbound then Some(SFinishConfiguration) else None
    case SelectKnownPacksName => Some(if dir == Serverbound then SSelectKnownPacks else CSelectKnownPacks)
    case CookieRequestName => Some(CCookieRequest)
    case CookieResponseName => Some(SCookieResponse)
    case LoginName => Some(CJoinGame)
    case FeatureFlagsName => Some(CFeatureFlags)
    case UpdateTagsName => Some(CUpdateTags)
    case RegistryDataName => Some(CRegistryData)
    case OtherName(_) => None
  }

  /** The names that several Go names list. */
  predicate ListedOften(m: McName)
  {
    m.PingName? || m.KeepAliveName? || m.CustomPayloadName? || m.FinishConfigurationName? || m.SelectKnownPacksName?
  }

  lemma {:induction false} SharedLister(m: McName, goName: Kind)
    requires m in McNames(goName) && ListedOften(m)
    ensures m.PingName? ==> goName.CPong? || goName.SPing? || goName.CConfigPing?
    ensures m.KeepAliveName? ==> goName.CKeepAlive? || goName.SKeepAlive? || goName.CConfigKeepAlive? || goName.SConfigKeepAlive?
    ensures m.CustomPayloadName? ==> goName.CCustomPayload? || goName.SCustomPayload?
    ensures m.FinishConfigurationName? ==> goName.CFinishConfiguration? || goName.SFinishConfiguration?
    ensures m.SelectKnownPacksName? ==> goName.CSelectKnownPacks? || goName.SSelectKnownPacks?
  {
  }

  lemma {:induction false} SharedResolves(m: McName, goName: Kind, state: State, dir: Direction)
    requires m in McNames(goName) && ListedOften(m)
    ensures Resolve(goName, state, dir) == Final(m, state, dir)
  {
    SharedLister(m, goName);
  }

  lemma {:induction false} UnsharedLister(m: McName, goName: Kind, state: State, dir: Direction)
    requires m in McNames(goName) && !ListedOften(m)
    ensures if m.PongName? then goName == SConfigPong else Final(m, state, dir) == Some(goName)
  {
  }

  lemma {:induction false} UnsharedPlain(m: McName, goName: Kind, state: State, dir: Direction)
    requires m in McNames(goName) && !ListedOften(m) && goName != SConfigPong
    ensures Resolve(goName, state, dir) == Some(goName)
  {
  }

  lemma {:induction false} UnsharedResolves(m: McName, goName: Kind, state: State, dir: Direction)
    requires m in McNames(goName) && !ListedOften(m)
    ensures Resolve(goName, state, dir) == Final(m, state, dir)
  {
    UnsharedLister(m, goName, state, dir);
    if goName != SConfigPong {
      UnsharedPlain(m, goName, state, dir);
    }
  }

  /** Every Go name that lists a Minecraft name resolves to that one name. */
  lemma {:induction false} ListedResolves(m: McName, goName: Kind, state: State, dir: Direction)
    requires m in McNames(goName)
    ensures Resolve(goName, state, dir) == Final(m, state, dir)
  {
    if ListedOften(m) {
      SharedResolves(m, goName, state, dir);
    } else {
      UnsharedResolves(m, goName, state, dir);
    }
  }

  predicate IsServerbound(k: Kind)
  {
    k in {SHandshake, SStatusRequest, SPing, SLoginStart, SLoginAcknowledged, SFinishConfiguration, SConfigKeepAlive,
          SSelectKnownPacks, SCookieResponse, SConfigPong, SChatMessage, SKeepAlive, SClientSettings, SCustomPayload,
          SPlayerPosition}
  }

  /** The types that exist in configuration only. */
  predicate ForConfiguration(k: Kind)
  {
    k in {SConfigKeepAlive, CConfigKeepAlive, SConfigPong, CConfigPing, SFinishConfiguration, CFinishConfiguration}
  }

  /** Whatever Go name the generator comes to first: a Minecraft name that several of them list becomes
      a type of the direction being filled. */
  lemma {:induction false} SharedDirection(m: McName, goName: Kind, state: State, dir: Direction)
    requires m in McNames(goName) && ListedOften(m) && Resolve(goName, state, dir).Some?
    ensures IsServerbound(Resolve(goName, state, dir).value) <==> dir == Serverbound
  {
    SharedLister(m, goName);
  }

  /** And ping, pong, keep-alive and finish become a configuration type in configuration, and nowhere
      else; nothing else does. */
  lemma {:induction false} ConfigurationTypes(m: McName, goName: Kind, state: State, dir: Direction)
    requires m in McNames(goName) && Resolve(goName, state, dir).Some?
    ensures ForConfiguration(Resolve(goName, state, dir).value) <==>
      state == Configuration && (m.PingName? || m.PongName? || m.KeepAliveName? || m.FinishConfigurationName?)
  {
    if ListedOften(m) {
      SharedLister(m, goName);
    } else {
      UnsharedTypes(m, goName, state, dir);
    }
  }

  lemma {:induction false} UnsharedTypes(m: McName, goName: Kind, state: State, dir: Direction)
    requires m in McNames(goName) && !ListedOften(m) && Resolve(goName, state, dir).Some?
    ensures ForConfiguration(Resolve(goName, state, dir).value) <==> state == Configuration && m.PongName?
  {
    if m.PongName? {
      assert goName == SConfigPong by {
        UnsharedLister(m, goName, state, dir);
      }
    } else {
      assert goName != SConfigPong by {
        assert McNames(SConfigPong) == [PongName];
      }
      UnsharedPlain(m, goName, state, dir);
      UnsharedOrdinary(m, goName);
    }
  }

  lemma {:induction false} UnsharedOrdinary(m: McName, goName: Kind)
    requires m in McNames(goName) && !ListedOften(m) && !m.PongName?
    ensures !ForConfiguration(goName)
  {
    assert McNames(SConfigPong) == [PongName];
  }

  /** Only the names of the map list anything. */
  lemma {:induction false} ListerMapped(m: McName, goName: Kind)
    requires m in McNames(goName)
    ensures goName in GO_NAMES
  {
  }

  /** And a name that stands for something is listed. */
  lemma {:induction false} FinalListed(m: McName, state: State, dir: Direction) returns (goName: Kind)
    requires Final(m, state, dir).Some?
    ensures m in McNames(goName)
  {
    goName := match m
              case PingName => SPing
              case PongName => SConfigPong
              case KeepAliveName => SKeepAlive
              case CustomPayloadName => SCustomPayload
              case FinishConfigurationName => SFinishConfiguration
              case SelectKnownPacksName => SSelectKnownPacks
              case OtherName(_) => SPing
              case _ => Final(m, state, dir).value;
  }

  // ---------------------------------------------------------------- filling the tables

  /** PacketIDs and PacketNames of one state and direction; an absent table reads as an empty one. */
  datatype TablePair = TablePair(ids: map<Kind, int32>, names: map<int32, Kind>)

  const EMPTY := TablePair(map[], map[])

  type IdMap = map<McName, int32>

  function Enter(t: TablePair, idMap: IdMap, state: State, dir: Direction, m: McName): TablePair
    requires m in idMap
  {
    match Final(m, state, dir)
    case None => t
    case Some(g) => TablePair(t.ids[g := idMap[m]], t.names[idMap[m] := g])
  }

  /** The tables after visiting the names in a given order. */
  function Fill(idMap: IdMap, state: State, dir: Direction, order: seq<McName>): TablePair
    requires forall m :: m in order ==> m in idMap
  {
    if order == [] then EMPTY
    else
      var m := order[|order| - 1];
      Enter(Fill(idMap, state, dir, order[..|order| - 1]), idMap, state, dir, m)
  }

  /** An order visits every name once. */
  ghost predicate IsOrder(order: seq<McName>, names: set<McName>)
  {
    && (forall m :: m in order <==> m in names)
    && (forall i, j :: 0 <= i < j < |order| ==> order[i] != order[j])
  }

  lemma {:induction false} FillSnoc(idMap: IdMap, state: State, dir: Direction, order: seq<McName>, m: McName)
    requires (forall x :: x in order ==> x in idMap) && m in idMap
    ensures forall x :: x in order + [m] ==> x in idMap
    ensures Fill(idMap, state, dir, order + [m]) == Enter(Fill(idMap, state, dir, order), idMap, state, dir, m)
  {
    assert (order + [m])[..|order + [m]| - 1] == order;
  }

  /** What one Go name makes of a Minecraft name: nothing if it does not list it, or does not resolve. */
  method ResolveListed(goName: Kind, m: McName, state: State, dir: Direction) returns (final: Option<Kind>)
    ensures final == if m in McNames(goName) then Final(m, state, dir) else None
  {
    var listed := Contains(McNames(goName), m);
    if !listed {
      return None;
    }
    ListedResolves(m, goName, state, dir);
    final := Resolve(goName, state, dir);
  }

  /** None of these Go names lists m, if m stands for something. */
  ghost predicate Passed(names: set<Kind>, m: McName, state: State, dir: Direction)
  {
    Final(m, state, dir).Some? ==> forall g :: g in names ==> m !in McNames(g)
  }

  lemma {:induction false} PassOne(names: set<Kind>, goName: Kind, m: McName, state: State, dir: Direction)
    requires Passed(names, m, state, dir) && (m in McNames(goName) ==> Final(m, state, dir).None?)
    ensures Passed(names + {goName}, m, state, dir)
  {
  }

  /** The inner loop of processDirection: the Go names in any order, up to the first that lists the
      Minecraft name and resolves. */
  method EnterName(t: TablePair, idMap: IdMap, state: State, dir: Direction, m: McName) returns (t1: TablePair)
    requires m in idMap
    ensures t1 == Enter(t, idMap, state, dir, m)
  {
    var left := GO_NAMES;
    ghost var passed: set<Kind> := {};
    while left != {}
      invariant passed + left == GO_NAMES
      invariant Passed(passed, m, state, dir)
      decreases |left|
    {
      var goName :| goName in left;
      var final := ResolveListed(goName, m, state, dir);
      if final.Some? {
        t1 := TablePair(t.ids[final.value := idMap[m]], t.names[idMap[m] := final.value]);
        return;
      }
      PassOne(passed, goName, m, state, dir);
      passed := passed + {goName};
      left := left - {goName};
    }
    t1 := t;
    NoneLeft(passed, m, state, dir);
  }

  lemma {:induction false} NoneLeft(names: set<Kind>, m: McName, state: State, dir: Direction)
    requires Passed(names, m, state, dir) && names == GO_NAMES
    ensures Final(m, state, dir).None?
  {
    SomeLister(m, state, dir);
  }

  lemma {:induction false} SomeLister(m: McName, state: State, dir: Direction)
    ensures Final(m, state, dir).Some? ==> exists g :: g in GO_NAMES && m in McNames(g)
  {
    if Final(m, state, dir).Some? {
      var g := FinalListed(m, state, dir);
      ListerMapped(m, g);
    }
  }

  /** processDirection, with the Minecraft names in any order too. */
  method ProcessDirection(idMap: IdMap, state: State, dir: Direction) returns (t: TablePair)
    ensures exists order :: IsOrder(order, idMap.Keys) && t == Fill(idMap, state, dir, order)
  {
    t := EMPTY;
    var left := idMap.Keys;
    ghost var order: seq<McName> := [];
    while left != {}
      invariant left <= idMap.Keys
      invariant IsOrder(order, idMap.Keys - left)
      invariant t == Fill(idMap, state, dir, order)
      decreases |left|
    {
      var m :| m in left;
      FillSnoc(idMap, state, dir, order, m);
      t := EnterName(t, idMap, state, dir, m);
      left := left - {m};
      order := order + [m];
    }
    assert idMap.Keys - left == idMap.Keys;
  }

  // ---------------------------------------------------------------- what the tables hold

  ghost predicate Injective(idMap: IdMap) { forall m, n :: m in idMap && n in idMap && idMap[m] == idMap[n] ==> m == n }

  ghost predicate AllPresent(idMap: IdMap, order: seq<McName>) { forall m :: m in order ==> m in idMap }

  /** An ID in the first table is that of a Minecraft name standing for its key. */
  lemma {:induction false} IdSource(idMap: IdMap, state: State, dir: Direction, order: seq<McName>, g: Kind) returns (m: McName)
    requires AllPresent(idMap, order) && g in Fill(idMap, state, dir, order).ids
    ensures m in order && Final(m, state, dir) == Some(g) && Fill(idMap, state, dir, order).ids[g] == idMap[m]
  {
    m := order[|order| - 1];
    if Final(m, state, dir) != Some(g) {
      m := IdSource(idMap, state, dir, order[..|order| - 1], g);
    }
  }

  /** An entry of the second table is that of a Minecraft name with that ID. */
  lemma {:induction false} NameSource(idMap: IdMap, state: State, dir: Direction, order: seq<McName>, id: int32) returns (m: McName)
    requires AllPresent(idMap, order) && id in Fill(idMap, state, dir, order).names
    ensures m in order && Final(m, state, dir) == Some(Fill(idMap, state, dir, order).names[id]) && idMap[m] == id
  {
    m := order[|order| - 1];
    if Final(m, state, dir).None? || idMap[m] != id {
      m := NameSource(idMap, state, dir, order[..|order| - 1], id);
    }
  }

  /** Every visited name that stands for something is in both tables. */
  lemma {:induction false} Entered(idMap: IdMap, state: State, dir: Direction, order: seq<McName>, m: McName)
    requires AllPresent(idMap, order) && m in order && Final(m, state, dir).Some?
    ensures Final(m, state, dir).value in Fill(idMap, state, dir, order).ids
    ensures idMap[m] in Fill(idMap, state, dir, order).names
  {
    var init := order[..|order| - 1];
    var last := order[|order| - 1];
    if m != last {
      assert m in init;
      Entered(idMap, state, dir, init, m);
    }
    EntersMore(Fill(idMap, state, dir, init), idMap, state, dir, last);
  }

  lemma {:induction false} EntersMore(t: TablePair, idMap: IdMap, state: State, dir: Direction, m: McName)
    requires m in idMap
    ensures var t1 := Enter(t, idMap, state, dir, m);
            && t.ids.Keys <= t1.ids.Keys && t.names.Keys <= t1.names.Keys
            && (Final(m, state, dir).Some? ==> Final(m, state, dir).value in t1.ids && idMap[m] in t1.names)
  {
  }

  /** Over distinct IDs, a Go name's ID always leads back to the name, in whatever order the maps were
      visited. */
  lemma {:induction false} IdsLeadBack(idMap: IdMap, state: State, dir: Direction, order: seq<McName>, g: Kind)
    requires Injective(idMap) && AllPresent(idMap, order) && g in Fill(idMap, state, dir, order).ids
    ensures var t := Fill(idMap, state, dir, order); t.ids[g] in t.names && t.names[t.ids[g]] == g
  {
    var m := IdSource(idMap, state, dir, order, g);
    Entered(idMap, state, dir, order, m);
    var n := NameSource(idMap, state, dir, order, idMap[m]);
  }

  /** The table of names does not depend on the order. */
  lemma {:induction false} NamesIndependent(idMap: IdMap, state: State, dir: Direction, order1: seq<McName>, order2: seq<McName>)
    requires Injective(idMap) && IsOrder(order1, idMap.Keys) && IsOrder(order2, idMap.Keys)
    ensures Fill(idMap, state, dir, order1).names == Fill(idMap, state, dir, order2).names
  {
    NamesIn(idMap, state, dir, order1, order2);
    NamesIn(idMap, state, dir, order2, order1);
  }

  lemma {:induction false} NamesIn(idMap: IdMap, state: State, dir: Direction, order1: seq<McName>, order2: seq<McName>)
    requires Injective(idMap) && AllPresent(idMap, order1) && AllPresent(idMap, order2) && forall m :: m in order1 ==> m in order2
    ensures var names := Fill(idMap, state, dir, order2).names;
            forall id :: id in Fill(idMap, state, dir, order1).names ==>
              id in names && names[id] == Fill(idMap, state, dir, order1).names[id]
  {
    forall id | id in Fill(idMap, state, dir, order1).names
      ensures id in Fill(idMap, state, dir, order2).names
      ensures Fill(idMap, state, dir, order2).names[id] == Fill(idMap, state, dir, order1).names[id]
    {
      var m := NameSource(idMap, state, dir, order1, id);
      Entered(idMap, state, dir, order2, m);
      var n := NameSource(idMap, state, dir, order2, id);
    }
  }

  /** Two present names stand for the same Go name. */
  ghost predicate Clash(idMap: IdMap, state: State, dir: Direction)
  {
    exists m, n :: Clashing(idMap, state, dir, m, n)
  }

  predicate Clashing(idMap: IdMap, state: State, dir: Direction, m: McName, n: McName)
  {
    m in idMap && n in idMap && m != n && Final(m, state, dir).Some? && Final(m, state, dir) == Final(n, state, dir)
  }

  ghost predicate MutualInverse(t: TablePair)
  {
    && (forall g :: g in t.ids ==> t.ids[g] in t.names && t.names[t.ids[g]] == g)
    && (forall id :: id in t.names ==> t.names[id] in t.ids && t.ids[t.names[id]] == id)
  }

  /** The tables are each other's inverse if and only if no two present names stand for the same. */
  lemma {:induction false} InverseUnlessClash(idMap: IdMap, state: State, dir: Direction, order: seq<McName>)
    requires Injective(idMap) && IsOrder(order, idMap.Keys)
    ensures MutualInverse(Fill(idMap, state, dir, order)) <==> !Clash(idMap, state, dir)
  {
    if Clash(idMap, state, dir) {
      var m, n :| Clashing(idMap, state, dir, m, n);
      ClashBreaksInverse(idMap, state, dir, order, m, n);
    } else {
      NoClashInverse(idMap, state, dir, order);
    }
  }

  lemma {:induction false} NoClashInverse(idMap: IdMap, state: State, dir: Direction, order: seq<McName>)
    requires Injective(idMap) && IsOrder(order, idMap.Keys) && !Clash(idMap, state, dir)
    ensures MutualInverse(Fill(idMap, state, dir, order))
  {
    var t := Fill(idMap, state, dir, order);
    forall g | g in t.ids
      ensures t.ids[g] in t.names && t.names[t.ids[g]] == g
    {
      IdsLeadBack(idMap, state, dir, order, g);
    }
    forall id | id in t.names
      ensures t.names[id] in t.ids && t.ids[t.names[id]] == id
    {
      NamesLeadBack(idMap, state, dir, order, id);
    }
  }

  lemma {:induction false} ClashBreaksInverse(idMap: IdMap, state: State, dir: Direction, order: seq<McName>, m: McName, n: McName)
    requires Injective(idMap) && IsOrder(order, idMap.Keys) && Clashing(idMap, state, dir, m, n)
    ensures !MutualInverse(Fill(idMap, state, dir, order))
  {
    var t := Fill(idMap, state, dir, order);
    Entered(idMap, state, dir, order, m);
    Entered(idMap, state, dir, order, n);
    var m1 := NameSource(idMap, state, dir, order, idMap[m]);
    var n1 := NameSource(idMap, state, dir, order, idMap[n]);
    assert t.names[idMap[m]] == t.names[idMap[n]];
  }

  lemma {:induction false} NamesLeadBack(idMap: IdMap, state: State, dir: Direction, order: seq<McName>, id: int32)
    requires Injective(idMap) && IsOrder(order, idMap.Keys) && !Clash(idMap, state, dir)
    requires id in Fill(idMap, state, dir, order).names
    ensures var t := Fill(idMap, state, dir, order); t.names[id] in t.ids && t.ids[t.names[id]] == id
  {
    var m := NameSource(idMap, state, dir, order, id);
    Entered(idMap, state, dir, order, m);
    var n := IdSource(idMap, state, dir, order, Final(m, state, dir).value);
    assert !Clashing(idMap, state, dir, m, n);
  }

  // ---------------------------------------------------------------- when the order matters

  /** Some order of a set of names. */
  lemma {:induction false} SomeOrder(names: set<McName>) returns (order: seq<McName>)
    ensures IsOrder(order, names)
    decreases |names|
  {
    if names == {} {
      order := [];
    } else {
      var m :| m in names;
      var rest := SomeOrder(names - {m});
      order := rest + [m];
    }
  }

  /** An order that ends with a given name leaves that name's ID in the first table. */
  lemma {:induction false} LastWins(idMap: IdMap, state: State, dir: Direction, m: McName) returns (order: seq<McName>)
    requires m in idMap && Final(m, state, dir).Some?
    ensures IsOrder(order, idMap.Keys)
    ensures Final(m, state, dir).value in Fill(idMap, state, dir, order).ids
    ensures Fill(idMap, state, dir, order).ids[Final(m, state, dir).value] == idMap[m]
  {
    var rest := SomeOrder(idMap.Keys - {m});
    order := rest + [m];
    FillSnoc(idMap, state, dir, rest, m);
  }

  /** The tables do not depend on the order if and only if no two present names stand for the same. */
  lemma {:induction false} IndependentUnlessClash(idMap: IdMap, state: State, dir: Direction)
    requires Injective(idMap)
    ensures !Clash(idMap, state, dir) <==>
      forall o1, o2 :: IsOrder(o1, idMap.Keys) && IsOrder(o2, idMap.Keys) ==>
        Fill(idMap, state, dir, o1) == Fill(idMap, state, dir, o2)
  {
    if Clash(idMap, state, dir) {
      var m, n :| Clashing(idMap, state, dir, m, n);
      var o1 := LastWins(idMap, state, dir, m);
      var o2 := LastWins(idMap, state, dir, n);
      assert Fill(idMap, state, dir, o1) != Fill(idMap, state, dir, o2);
    } else {
      forall o1, o2 | IsOrder(o1, idMap.Keys) && IsOrder(o2, idMap.Keys)
        ensures Fill(idMap, state, dir, o1) == Fill(idMap, state, dir, o2)
      {
        SameTables(idMap, state, dir, o1, o2);
      }
    }
  }

  lemma {:induction false} SameTables(idMap: IdMap, state: State, dir: Direction, o1: seq<McName>, o2: seq<McName>)
    requires Injective(idMap) && IsOrder(o1, idMap.Keys) && IsOrder(o2, idMap.Keys) && !Clash(idMap, state, dir)
    ensures Fill(idMap, state, dir, o1) == Fill(idMap, state, dir, o2)
  {
    NamesIndependent(idMap, state, dir, o1, o2);
    IdsIn(idMap, state, dir, o1, o2);
    IdsIn(idMap, state, dir, o2, o1);
    assert Fill(idMap, state, dir, o1).ids == Fill(idMap, state, dir, o2).ids;
  }

  lemma {:induction false} IdsIn(idMap: IdMap, state: State, dir: Direction, o1: seq<McName>, o2: seq<McName>)
    requires IsOrder(o1, idMap.Keys) && IsOrder(o2, idMap.Keys) && !Clash(idMap, state, dir)
    ensures var ids := Fill(idMap, state, dir, o2).ids;
            forall g :: g in Fill(idMap, state, dir, o1).ids ==> g in ids && ids[g] == Fill(idMap, state, dir, o1).ids[g]
  {
    forall g | g in Fill(idMap, state, dir, o1).ids
      ensures g in Fill(idMap, state, dir, o2).ids
      ensures Fill(idMap, state, dir, o2).ids[g] == Fill(idMap, state, dir, o1).ids[g]
    {
      var m := IdSource(idMap, state, dir, o1, g);
      Entered(idMap, state, dir, o2, m);
      var n := IdSource(idMap, state, dir, o2, g);
      assert !Clashing(idMap, state, dir, m, n);
    }
  }
}
