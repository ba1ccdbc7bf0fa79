/** The tables of protocol/generated_registry.go, one per state and direction, by bands of versions
    that share them, and the facts about them that the session laws rest on. */
module Tables {
  import opened Wire
  import opened Packets
  import opened Registry

  function HandshakingServerboundIds(v: int): map<Kind, int32>
  {
    map[SHandshake := 0]
  }

  function HandshakingServerboundNames(v: int): map<int32, Kind>
  {
    map[0 := SHandshake]
  }

  function StatusServerboundIds(v: int): map<Kind, int32>
  {
    map[SStatusRequest := 0, SPing := 1]
  }

  function StatusServerboundNames(v: int): map<int32, Kind>
  {
    map[0 := SStatusRequest, 1 := SPing]
  }

  function StatusClientboundIds(v: int): map<Kind, int32>
  {
    map[CStatusResponse := 0, CPong := 1]
  }

  function StatusClientboundNames(v: int): map<int32, Kind>
  {
    map[0 := CStatusResponse, 1 := CPong]
  }

  function LoginServerboundIds(v: int): map<Kind, int32>
  {
    if v < 32 then map[SLoginStart := 0]
    else if v < 34 then map[SLoginStart := 0, SLoginAcknowledged := 3]
    else map[SLoginStart := 0, SLoginAcknowledged := 3, SCookieResponse := 4]
  }

  function LoginServerboundNames(v: int): map<int32, Kind>
  {
    if v < 32 then map[0 := SLoginStart]
    else if v < 34 then map[0 := SLoginStart, 3 := SLoginAcknowledged]
    else map[0 := SLoginStart, 3 := SLoginAcknowledged, 4 := SCookieResponse]
  }

  function LoginClientboundIds(v: int): map<Kind, int32>
  {
    if v < 1 then map[CDisconnect := 0, CLoginSuccess := 2]
    else if v < 34 then map[CDisconnect := 0, CLoginSuccess := 2, CSetCompression := 3]
    else map[CDisconnect := 0, CLoginSuccess := 2, CSetCompression := 3, CCookieRequest := 5]
  }

  function LoginClientboundNames(v: int): map<int32, Kind>
  {
    if v < 1 then map[0 := CDisconnect, 2 := CLoginSuccess]
    else if v < 34 then map[0 := CDisconnect, 2 := CLoginSuccess, 3 := CSetCompression]
    else map[0 := CDisconnect, 2 := CLoginSuccess, 3 := CSetCompression, 5 := CCookieRequest]
  }

  function ConfigurationServerboundIds(v: int): map<Kind, int32>
  {
    if v < 32 then map[]
    else if v < 34 then map[SClientSettings := 0, SCustomPayload := 1, SFinishConfiguration := 2, SConfigKeepAlive := 3, SConfigPong := 4]
    else map[SClientSettings := 0, SCookieResponse := 1, SCustomPayload := 2, SFinishConfiguration := 3, SConfigKeepAlive := 4, SConfigPong := 5, SSelectKnownPacks := 7]
  }

  function ConfigurationServerboundNames(v: int): map<int32, Kind>
  {
    if v < 32 then map[]
    else if v < 34 then map[0 := SClientSettings, 1 := SCustomPayload, 2 := SFinishConfiguration, 3 := SConfigKeepAlive, 4 := SConfigPong]
    else map[0 := SClientSettings, 1 := SCookieResponse, 2 := SCustomPayload, 3 := SFinishConfiguration, 4 := SConfigKeepAlive, 5 := SConfigPong, 7 := SSelectKnownPacks]
  }

  function ConfigurationClientboundIds(v: int): map<Kind, int32>
  {
    if v < 32 then map[]
    else if v < 33 then map[CCustomPayload := 0, CDisconnect := 1, CFinishConfiguration := 2, CConfigKeepAlive := 3, CConfigPing := 4, CRegistryData := 5, CFeatureFlags := 7]
    else if v < 34 then map[CCustomPayload := 0, CDisconnect := 1, CFinishConfiguration := 2, CConfigKeepAlive := 3, CConfigPing := 4, CRegistryData := 5, CFeatureFlags := 8]
    else map[CCookieRequest := 0, CCustomPayload := 1, CDisconnect := 2, CFinishConfiguration := 3, CConfigKeepAlive := 4, CConfigPing := 5, CRegistryData := 7, CFeatureFlags := 12, CSelectKnownPacks := 14]
  }

  function ConfigurationClientboundNames(v: int): map<int32, Kind>
  {
    if v < 32 then map[]
    else if v < 33 then map[0 := CCustomPayload, 1 := CDisconnect, 2 := CFinishConfiguration, 3 := CConfigKeepAlive, 4 := CConfigPing, 5 := CRegistryData, 7 := CFeatureFlags]
    else if v < 34 then map[0 := CCustomPayload, 1 := CDisconnect, 2 := CFinishConfiguration, 3 := CConfigKeepAlive, 4 := CConfigPing, 5 := CRegistryData, 8 := CFeatureFlags]
    else map[0 := CCookieRequest, 1 := CCustomPayload, 2 := CDisconnect, 3 := CFinishConfiguration, 4 := CConfigKeepAlive, 5 := CConfigPing, 7 := CRegistryData, 12 := CFeatureFlags, 14 := CSelectKnownPacks]
  }

  function PlayServerboundIds(v: int): map<Kind, int32>
  {
    if v < 2 then map[SKeepAlive := 0, SChatMessage := 1, SClientSettings := 21, SCustomPayload := 23]
    else if v < 7 then map[SChatMessage := 2, SClientSettings := 4, SCustomPayload := 9, SKeepAlive := 11]
    else if v < 8 then map[SChatMessage := 3, SClientSettings := 5, SCustomPayload := 10, SKeepAlive := 12]
    else if v < 10 then map[SChatMessage := 2, SClientSettings := 4, SCustomPayload := 9, SKeepAlive := 11]
    else if v < 13 then map[SChatMessage := 2, SClientSettings := 4, SCustomPayload := 10, SKeepAlive := 14]
    else if v < 20 then map[SChatMessage := 3, SClientSettings := 5, SCustomPayload := 11, SKeepAlive := 15]
    else if v < 23 then map[SChatMessage := 3, SClientSettings := 5, SCustomPayload := 11, SKeepAlive := 16]
    else if v < 27 then map[SChatMessage := 3, SClientSettings := 5, SCustomPayload := 10, SKeepAlive := 15]
    else if v < 28 then map[SChatMessage := 4, SClientSettings := 7, SCustomPayload := 12, SKeepAlive := 17]
    else if v < 29 then map[SChatMessage := 5, SClientSettings := 8, SCustomPayload := 13, SKeepAlive := 18]
    else if v < 30 then map[SChatMessage := 5, SClientSettings := 7, SCustomPayload := 12, SKeepAlive := 17]
    else if v < 32 then map[SChatMessage := 5, SClientSettings := 8, SCustomPayload := 13, SKeepAlive := 18]
    else if v < 33 then map[SChatMessage := 5, SClientSettings := 9, SCustomPayload := 15, SKeepAlive := 20]
    else if v < 34 then map[SChatMessage := 5, SClientSettings := 9, SCustomPayload := 16, SKeepAlive := 21]
    else if v < 36 then map[SChatMessage := 6, SClientSettings := 10, SCookieResponse := 17, SCustomPayload := 18, SKeepAlive := 24]
    else if v < 39 then map[SChatMessage := 7, SClientSettings := 12, SCookieResponse := 19, SCustomPayload := 20, SKeepAlive := 26]
    else map[SChatMessage := 8, SClientSettings := 13, SCookieResponse := 20, SCustomPayload := 21, SKeepAlive := 27]
  }

  function PlayServerboundNames(v: int): map<int32, Kind>
  {
    if v < 2 then map[0 := SKeepAlive, 1 := SChatMessage, 21 := SClientSettings, 23 := SCustomPayload]
    else if v < 7 then map[2 := SChatMessage, 4 := SClientSettings, 9 := SCustomPayload, 11 := SKeepAlive]
    else if v < 8 then map[3 := SChatMessage, 5 := SClientSettings, 10 := SCustomPayload, 12 := SKeepAlive]
    else if v < 10 then map[2 := SChatMessage, 4 := SClientSettings, 9 := SCustomPayload, 11 := SKeepAlive]
    else if v < 13 then map[2 := SChatMessage, 4 := SClientSettings, 10 := SCustomPayload, 14 := SKeepAlive]
    else if v < 20 then map[3 := SChatMessage, 5 := SClientSettings, 11 := SCustomPayload, 15 := SKeepAlive]
    else if v < 23 then map[3 := SChatMessage, 5 := SClientSettings, 11 := SCustomPayload, 16 := SKeepAlive]
    else if v < 27 then map[3 := SChatMessage, 5 := SClientSettings, 10 := SCustomPayload, 15 := SKeepAlive]
    else if v < 28 then map[4 := SChatMessage, 7 := SClientSettings, 12 := SCustomPayload, 17 := SKeepAlive]
    else if v < 29 then map[5 := SChatMessage, 8 := SClientSettings, 13 := SCustomPayload, 18 := SKeepAlive]
    else if v < 30 then map[5 := SChatMessage, 7 := SClientSettings, 12 := SCustomPayload, 17 := SKeepAlive]
    else if v < 32 then map[5 := SChatMessage, 8 := SClientSettings, 13 := SCustomPayload, 18 := SKeepAlive]
    else if v < 33 then map[5 := SChatMessage, 9 := SClientSettings, 15 := SCustomPayload, 20 := SKeepAlive]
    else if v < 34 then map[5 := SChatMessage, 9 := SClientSettings, 16 := SCustomPayload, 21 := SKeepAlive]
    else if v < 36 then map[6 := SChatMessage, 10 := SClientSettings, 17 := SCookieResponse, 18 := SCustomPayload, 24 := SKeepAlive]
    else if v < 39 then map[7 := SChatMessage, 12 := SClientSettings, 19 := SCookieResponse, 20 := SCustomPayload, 26 := SKeepAlive]
    else map[8 := SChatMessage, 13 := SClientSettings, 20 := SCookieResponse, 21 := SCustomPayload, 27 := SKeepAlive]
  }

  function PlayClientboundIds(v: int): map<Kind, int32>
  {
    if v < 2 then map[CKeepAlive := 0, CJoinGame := 1, SChatMessage := 2, CCustomPayload := 63, CDisconnect := 64]
    else if v < 10 then map[SChatMessage := 15, CCustomPayload := 24, CDisconnect := 26, CKeepAlive := 31, CJoinGame := 35]
    else if v < 13 then map[SChatMessage := 14, CCustomPayload := 25, CDisconnect := 27, CKeepAlive := 33, CJoinGame := 37]
    else if v < 17 then map[SChatMessage := 14, CCustomPayload := 24, CDisconnect := 26, CKeepAlive := 32, CJoinGame := 37]
    else if v < 20 then map[SChatMessage := 15, CCustomPayload := 25, CDisconnect := 27, CKeepAlive := 33, CJoinGame := 38]
    else if v < 22 then map[SChatMessage := 14, CCustomPayload := 24, CDisconnect := 26, CKeepAlive := 32, CJoinGame := 37]
    else if v < 23 then map[SChatMessage := 14, CCustomPayload := 23, CDisconnect := 25, CKeepAlive := 31, CJoinGame := 36]
    else if v < 27 then map[SChatMessage := 15, CCustomPayload := 24, CDisconnect := 26, CKeepAlive := 33, CJoinGame := 38, CPong := 48]
    else if v < 28 then map[CCustomPayload := 21, CDisconnect := 23, CKeepAlive := 30, CJoinGame := 35, CPong := 45]
    else if v < 29 then map[CCustomPayload := 22, CDisconnect := 25, CKeepAlive := 32, CJoinGame := 37, CPong := 47]
    else if v < 30 then map[CCustomPayload := 21, CDisconnect := 23, CKeepAlive := 31, CJoinGame := 36, CPong := 46, CFeatureFlags := 103]
    else if v < 32 then map[CCustomPayload := 23, CDisconnect := 26, CKeepAlive := 35, CJoinGame := 40, CPong := 50, CFeatureFlags := 107]
    else if v < 34 then map[CCustomPayload := 24, CDisconnect := 27, CKeepAlive := 36, CJoinGame := 41, CPong := 51]
    else if v < 36 then map[CCookieRequest := 22, CCustomPayload := 25, CDisconnect := 29, CKeepAlive := 38, CJoinGame := 43, CPong := 53]
    else if v < 38 then map[CCookieRequest := 22, CCustomPayload := 25, CDisconnect := 29, CKeepAlive := 39, CJoinGame := 44, CPong := 55]
    else if v < 41 then map[CCookieRequest := 21, CCustomPayload := 24, CDisconnect := 28, CKeepAlive := 38, CJoinGame := 43, CPong := 54]
    else map[CCookieRequest := 21, CCustomPayload := 24, CDisconnect := 32, CKeepAlive := 43, CJoinGame := 48, CPong := 59]
  }

  function PlayClientboundNames(v: int): map<int32, Kind>
  {
    if v < 2 then map[0 := CKeepAlive, 1 := CJoinGame, 2 := SChatMessage, 63 := CCustomPayload, 64 := CDisconnect]
    else if v < 10 then map[15 := SChatMessage, 24 := CCustomPayload, 26 := CDisconnect, 31 := CKeepAlive, 35 := CJoinGame]
    else if v < 13 then map[14 := SChatMessage, 25 := CCustomPayload, 27 := CDisconnect, 33 := CKeepAlive, 37 := CJoinGame]
    else if v < 17 then map[14 := SChatMessage, 24 := CCustomPayload, 26 := CDisconnect, 32 := CKeepAlive, 37 := CJoinGame]
    else if v < 20 then map[15 := SChatMessage, 25 := CCustomPayload, 27 := CDisconnect, 33 := CKeepAlive, 38 := CJoinGame]
    else if v < 22 then map[14 := SChatMessage, 24 := CCustomPayload, 26 := CDisconnect, 32 := CKeepAlive, 37 := CJoinGame]
    else if v < 23 then map[14 := SChatMessage, 23 := CCustomPayload, 25 := CDisconnect, 31 := CKeepAlive, 36 := CJoinGame]
    else if v < 27 then map[15 := SChatMessage, 24 := CCustomPayload, 26 := CDisconnect, 33 := CKeepAlive, 38 := CJoinGame, 48 := CPong]
    else if v < 28 then map[21 := CCustomPayload, 23 := CDisconnect, 30 := CKeepAlive, 35 := CJoinGame, 45 := CPong]
    else if v < 29 then map[22 := CCustomPayload, 25 := CDisconnect, 32 := CKeepAlive, 37 := CJoinGame, 47 := CPong]
    else if v < 30 then map[21 := CCustomPayload, 23 := CDisconnect, 31 := CKeepAlive, 36 := CJoinGame, 46 := CPong, 103 := CFeatureFlags]
    else if v < 32 then map[23 := CCustomPayload, 26 := CDisconnect, 35 := CKeepAlive, 40 := CJoinGame, 50 := CPong, 107 := CFeatureFlags]
    else if v < 34 then map[24 := CCustomPayload, 27 := CDisconnect, 36 := CKeepAlive, 41 := CJoinGame, 51 := CPong]
    else if v < 36 then map[22 := CCookieRequest, 25 := CCustomPayload, 29 := CDisconnect, 38 := CKeepAlive, 43 := CJoinGame, 53 := CPong]
    else if v < 38 then map[22 := CCookieRequest, 25 := CCustomPayload, 29 := CDisconnect, 39 := CKeepAlive, 44 := CJoinGame, 55 := CPong]
    else if v < 41 then map[21 := CCookieRequest, 24 := CCustomPayload, 28 := CDisconnect, 38 := CKeepAlive, 43 := CJoinGame, 54 := CPong]
    else map[21 := CCookieRequest, 24 := CCustomPayload, 32 := CDisconnect, 43 := CKeepAlive, 48 := CJoinGame, 59 := CPong]
  }

  const PROTOCOLS: seq<int32> := [
    3, 47, 107, 109, 110, 210, 315, 335, 338, 340, 393, 401, 404, 477, 480, 490, 498, 573, 575, 578,
    735, 736, 751, 755, 756, 757, 758, 759, 760, 761, 762, 763, 764, 765, 766, 767, 768, 769, 770,
    771, 772, 773, 774]

  function IdsOf(v: int, slot: Slot): map<Kind, int32>
  {
    match slot
    case Slot(Handshaking, Serverbound) => HandshakingServerboundIds(v)
    case Slot(Status, Serverbound) => StatusServerboundIds(v)
    case Slot(Status, Clientbound) => StatusClientboundIds(v)
    case Slot(Login, Serverbound) => LoginServerboundIds(v)
    case Slot(Login, Clientbound) => LoginClientboundIds(v)
    case Slot(Configuration, Serverbound) => ConfigurationServerboundIds(v)
    case Slot(Configuration, Clientbound) => ConfigurationClientboundIds(v)
    case Slot(Play, Serverbound) => PlayServerboundIds(v)
    case Slot(Play, Clientbound) => PlayClientboundIds(v)
    case Slot(Handshaking, Clientbound) => map[]
  }

  function NamesOf(v: int, slot: Slot): map<int32, Kind>
  {
    match slot
    case Slot(Handshaking, Serverbound) => HandshakingServerboundNames(v)
    case Slot(Status, Serverbound) => StatusServerboundNames(v)
    case Slot(Status, Clientbound) => StatusClientboundNames(v)
    case Slot(Login, Serverbound) => LoginServerboundNames(v)
    case Slot(Login, Clientbound) => LoginClientboundNames(v)
    case Slot(Configuration, Serverbound) => ConfigurationServerboundNames(v)
    case Slot(Configuration, Clientbound) => ConfigurationClientboundNames(v)
    case Slot(Play, Serverbound) => PlayServerboundNames(v)
    case Slot(Play, Clientbound) => PlayClientboundNames(v)
    case Slot(Handshaking, Clientbound) => map[]
  }

  const ALL_SLOTS: set<Slot> := set st: State, d: Direction | true :: Slot(st, d)

  function Generated(v: int): Definition
    requires 0 <= v <= LATEST
  {
    Definition(PROTOCOLS[v], map s | s in ALL_SLOTS :: NamesOf(v, s), map s | s in ALL_SLOTS :: IdsOf(v, s))
  }

  /** The registry after start-up: one definition for each release from 1.7 to the latest. */
  function GeneratedDefs(): Defs { map v: int | 0 <= v <= LATEST :: Generated(v) }

  function Clamp(v: int): int { if v > LATEST then LATEST else v }

  lemma {:induction false} NearestGenerated(v: int)
    requires v >= 0
    ensures Nearest(GeneratedDefs(), v) == Some(Generated(Clamp(v)))
    decreases v
  {
    if v > LATEST {
      assert v !in GeneratedDefs();
      NearestGenerated(v - 1);
    } else {
      assert v in GeneratedDefs();
    }
  }

  lemma {:induction false} AllSlots(s: Slot)
    ensures s in ALL_SLOTS
  {
    match s
    case Slot(Handshaking, Serverbound) =>
    case Slot(Handshaking, Clientbound) =>
    case Slot(Status, Serverbound) =>
    case Slot(Status, Clientbound) =>
    case Slot(Login, Serverbound) =>
    case Slot(Login, Clientbound) =>
    case Slot(Configuration, Serverbound) =>
    case Slot(Configuration, Clientbound) =>
    case Slot(Play, Serverbound) =>
    case Slot(Play, Clientbound) =>
  }

  /** Lookups in a slot of version v answer from the tables above. */
  ghost predicate Answers(defs: Defs, v: int, s: Slot)
  {
    && (forall id :: KindFor(defs, v, s, id) ==
          if id in NamesOf(Clamp(v), s) && HasConstructor(NamesOf(Clamp(v), s)[id]) then Some(NamesOf(Clamp(v), s)[id]) else None)
    && (forall k :: IdFor(defs, v, s, k) ==
          if HasConstructor(k) && k in IdsOf(Clamp(v), s) then Some(IdsOf(Clamp(v), s)[k]) else None)
  }

  /** So do those of the generated registry, for released and later versions. */
  lemma {:induction false} GeneratedAnswers(v: int, s: Slot)
    requires v >= 0
    ensures Answers(GeneratedDefs(), v, s)
  {
    NearestGenerated(v);
    SlotListed(Clamp(v), s);
    DefinitionAnswers(GeneratedDefs(), v, s, Generated(Clamp(v)), NamesOf(Clamp(v), s), IdsOf(Clamp(v), s));
  }

  lemma {:induction false} SlotListed(v: int, s: Slot)
    requires 0 <= v <= LATEST
    ensures s in Generated(v).names && Generated(v).names[s] == NamesOf(v, s)
    ensures s in Generated(v).ids && Generated(v).ids[s] == IdsOf(v, s)
  {
    AllSlots(s);
  }

  lemma {:induction false} DefinitionAnswers(defs: Defs, v: int, s: Slot, d: Definition, names: map<int32, Kind>, ids: map<Kind, int32>)
    requires Nearest(defs, v) == Some(d) && names == NamesOf(Clamp(v), s) && ids == IdsOf(Clamp(v), s)
    requires s in d.names && d.names[s] == names && s in d.ids && d.ids[s] == ids
    ensures Answers(defs, v, s)
  {
  }

  /** The two tables of a slot undo each other. */
  ghost predicate Inverse(ids: map<Kind, int32>, names: map<int32, Kind>)
  {
    && (forall k :: k in ids ==> ids[k] in names && names[ids[k]] == k)
    && (forall i :: i in names ==> names[i] in ids && ids[names[i]] == i)
  }

  /** A table as a list of entries. */
  datatype Rows = NoRows | Row(rows: Rows, kind: Kind, id: int32)

  function IdsFrom(r: Rows): map<Kind, int32> { if r.NoRows? then map[] else IdsFrom(r.rows)[r.kind := r.id] }

  function NamesFrom(r: Rows): map<int32, Kind> { if r.NoRows? then map[] else NamesFrom(r.rows)[r.id := r.kind] }

  predicate Lacks(r: Rows, k: Kind, i: int32) { r.NoRows? || (k != r.kind && i != r.id && Lacks(r.rows, k, i)) }

  /** No type and no ID stands twice. */
  predicate Apart(r: Rows) { r.NoRows? || (Apart(r.rows) && Lacks(r.rows, r.kind, r.id)) }

  lemma {:induction false} LacksBoth(r: Rows, k: Kind, i: int32)
    requires Lacks(r, k, i)
    ensures k !in IdsFrom(r) && i !in NamesFrom(r)
  {
    if r.Row? {
      LacksBoth(r.rows, k, i);
    }
  }

  /** One more entry in both tables. */
  lemma {:induction false} AddPair(ids: map<Kind, int32>, names: map<int32, Kind>, k: Kind, i: int32)
    requires Inverse(ids, names) && k !in ids && i !in names
    ensures Inverse(ids[k := i], names[i := k])
  {
  }

  lemma {:induction false} RowsInverse(r: Rows)
    requires Apart(r)
    ensures Inverse(IdsFrom(r), NamesFrom(r))
  {
    if r.Row? {
      RowsInverse(r.rows);
      LacksBoth(r.rows, r.kind, r.id);
      AddPair(IdsFrom(r.rows), NamesFrom(r.rows), r.kind, r.id);
    }
  }

  lemma {:induction false} LoginServerboundInverse(v: int)
    ensures Inverse(LoginServerboundIds(v), LoginServerboundNames(v))
  {
    if v < 32 {
      RowsInverse(Row(NoRows, SLoginStart, 0));
    } else if v < 34 {
      RowsInverse(Row(Row(NoRows, SLoginStart, 0), SLoginAcknowledged, 3));
    } else {
      RowsInverse(Row(Row(Row(NoRows, SLoginStart, 0), SLoginAcknowledged, 3), SCookieResponse, 4));
    }
  }

  lemma {:induction false} LoginClientboundInverse(v: int)
    ensures Inverse(LoginClientboundIds(v), LoginClientboundNames(v))
  {
    if v < 1 {
      RowsInverse(Row(Row(NoRows, CDisconnect, 0), CLoginSuccess, 2));
    } else if v < 34 {
      RowsInverse(Row(Row(Row(NoRows, CDisconnect, 0), CLoginSuccess, 2), CSetCompression, 3));
    } else {
      RowsInverse(
        Row(Row(Row(Row(NoRows, CDisconnect, 0), CLoginSuccess, 2), CSetCompression, 3), CCookieRequest, 5));
    }
  }

  lemma {:induction false} ConfigurationServerboundInverse(v: int)
    ensures Inverse(ConfigurationServerboundIds(v), ConfigurationServerboundNames(v))
  {
    if v < 32 {
      RowsInverse(NoRows);
    } else if v < 34 {
      RowsInverse(
        Row(Row(Row(Row(Row(NoRows, SClientSettings, 0), SCustomPayload, 1), SFinishConfiguration, 2),
          SConfigKeepAlive, 3), SConfigPong, 4));
    } else {
      RowsInverse(
        Row(Row(Row(Row(Row(Row(Row(NoRows, SClientSettings, 0), SCookieResponse, 1), SCustomPayload, 2),
          SFinishConfiguration, 3), SConfigKeepAlive, 4), SConfigPong, 5), SSelectKnownPacks, 7));
    }
  }

  lemma {:induction false} ConfigurationClientboundEarlyInverse(v: int)
    requires v < 34
    ensures Inverse(ConfigurationClientboundIds(v), ConfigurationClientboundNames(v))
  {
    if v < 32 {
      RowsInverse(NoRows);
    } else if v < 33 {
      RowsInverse(
        Row(Row(Row(Row(Row(Row(Row(NoRows, CCustomPayload, 0), CDisconnect, 1), CFinishConfiguration, 2),
          CConfigKeepAlive, 3), CConfigPing, 4), CRegistryData, 5), CFeatureFlags, 7));
    } else {
      RowsInverse(
        Row(Row(Row(Row(Row(Row(Row(NoRows, CCustomPayload, 0), CDisconnect, 1), CFinishConfiguration, 2),
          CConfigKeepAlive, 3), CConfigPing, 4), CRegistryData, 5), CFeatureFlags, 8));
    }
  }

  lemma {:induction false} ConfigurationClientboundLateInverse(v: int)
    requires 34 <= v
    ensures Inverse(ConfigurationClientboundIds(v), ConfigurationClientboundNames(v))
  {
  }

  lemma {:induction false} ConfigurationClientboundInverse(v: int)
    ensures Inverse(ConfigurationClientboundIds(v), ConfigurationClientboundNames(v))
  {
    if v < 34 {
      ConfigurationClientboundEarlyInverse(v);
    } else {
      ConfigurationClientboundLateInverse(v);
    }
  }

  lemma {:induction false} PlayServerboundEarlyInverse(v: int)
    requires v < 20
    ensures Inverse(PlayServerboundIds(v), PlayServerboundNames(v))
  {
    if v < 2 {
      RowsInverse(
        Row(Row(Row(Row(NoRows, SKeepAlive, 0), SChatMessage, 1), SClientSettings, 21), SCustomPayload, 23));
    } else if v < 7 {
      RowsInverse(
        Row(Row(Row(Row(NoRows, SChatMessage, 2), SClientSettings, 4), SCustomPayload, 9), SKeepAlive, 11));
    } else if v < 8 {
      RowsInverse(
        Row(Row(Row(Row(NoRows, SChatMessage, 3), SClientSettings, 5), SCustomPayload, 10), SKeepAlive, 12));
    } else if v < 10 {
      RowsInverse(
        Row(Row(Row(Row(NoRows, SChatMessage, 2), SClientSettings, 4), SCustomPayload, 9), SKeepAlive, 11));
    } else if v < 13 {
      RowsInverse(
        Row(Row(Row(Row(NoRows, SChatMessage, 2), SClientSettings, 4), SCustomPayload, 10), SKeepAlive, 14));
    } else {
      RowsInverse(
        Row(Row(Row(Row(NoRows, SChatMessage, 3), SClientSettings, 5), SCustomPayload, 11), SKeepAlive, 15));
    }
  }

  lemma {:induction false} PlayServerboundMiddleInverse(v: int)
    requires 20 <= v < 32
    ensures Inverse(PlayServerboundIds(v), PlayServerboundNames(v))
  {
    if v < 23 {
      RowsInverse(
        Row(Row(Row(Row(NoRows, SChatMessage, 3), SClientSettings, 5), SCustomPayload, 11), SKeepAlive, 16));
    } else if v < 27 {
      RowsInverse(
        Row(Row(Row(Row(NoRows, SChatMessage, 3), SClientSettings, 5), SCustomPayload, 10), SKeepAlive, 15));
    } else if v < 28 {
      RowsInverse(
        Row(Row(Row(Row(NoRows, SChatMessage, 4), SClientSettings, 7), SCustomPayload, 12), SKeepAlive, 17));
    } else if v < 29 {
      RowsInverse(
        Row(Row(Row(Row(NoRows, SChatMessage, 5), SClientSettings, 8), SCustomPayload, 13), SKeepAlive, 18));
    } else if v < 30 {
      RowsInverse(
        Row(Row(Row(Row(NoRows, SChatMessage, 5), SClientSettings, 7), SCustomPayload, 12), SKeepAlive, 17));
    } else {
      RowsInverse(
        Row(Row(Row(Row(NoRows, SChatMessage, 5), SClientSettings, 8), SCustomPayload, 13), SKeepAlive, 18));
    }
  }

  lemma {:induction false} PlayServerboundLateInverse(v: int)
    requires 32 <= v
    ensures Inverse(PlayServerboundIds(v), PlayServerboundNames(v))
  {
    if v < 33 {
      RowsInverse(
        Row(Row(Row(Row(NoRows, SChatMessage, 5), SClientSettings, 9), SCustomPayload, 15), SKeepAlive, 20));
    } else if v < 34 {
      RowsInverse(
        Row(Row(Row(Row(NoRows, SChatMessage, 5), SClientSettings, 9), SCustomPayload, 16), SKeepAlive, 21));
    } else if v < 36 {
      RowsInverse(
        Row(Row(Row(Row(Row(NoRows, SChatMessage, 6), SClientSettings, 10), SCookieResponse, 17),
          SCustomPayload, 18), SKeepAlive, 24));
    } else if v < 39 {
      RowsInverse(
        Row(Row(Row(Row(Row(NoRows, SChatMessage, 7), SClientSettings, 12), SCookieResponse, 19),
          SCustomPayload, 20), SKeepAlive, 26));
    } else {
      RowsInverse(
        Row(Row(Row(Row(Row(NoRows, SChatMessage, 8), SClientSettings, 13), SCookieResponse, 20),
          SCustomPayload, 21), SKeepAlive, 27));
    }
  }

  lemma {:induction false} PlayServerboundInverse(v: int)
    ensures Inverse(PlayServerboundIds(v), PlayServerboundNames(v))
  {
    if v < 20 {
      PlayServerboundEarlyInverse(v);
    } else if v < 32 {
      PlayServerboundMiddleInverse(v);
    } else {
      PlayServerboundLateInverse(v);
    }
  }

  lemma {:induction false} PlayClientboundEarlyInverse(v: int)
    requires v < 22
    ensures Inverse(PlayClientboundIds(v), PlayClientboundNames(v))
  {
    if v < 2 {
      RowsInverse(
        Row(Row(Row(Row(Row(NoRows, CKeepAlive, 0), CJoinGame, 1), SChatMessage, 2), CCustomPayload, 63),
          CDisconnect, 64));
    } else if v < 10 {
      RowsInverse(
        Row(Row(Row(Row(Row(NoRows, SChatMessage, 15), CCustomPayload, 24), CDisconnect, 26), CKeepAlive, 31),
          CJoinGame, 35));
    } else if v < 13 {
      RowsInverse(
        Row(Row(Row(Row(Row(NoRows, SChatMessage, 14), CCustomPayload, 25), CDisconnect, 27), CKeepAlive, 33),
          CJoinGame, 37));
    } else if v < 17 {
      RowsInverse(
        Row(Row(Row(Row(Row(NoRows, SChatMessage, 14), CCustomPayload, 24), CDisconnect, 26), CKeepAlive, 32),
          CJoinGame, 37));
    } else if v < 20 {
      RowsInverse(
        Row(Row(Row(Row(Row(NoRows, SChatMessage, 15), CCustomPayload, 25), CDisconnect, 27), CKeepAlive, 33),
          CJoinGame, 38));
    } else {
      RowsInverse(
        Row(Row(Row(Row(Row(NoRows, SChatMessage, 14), CCustomPayload, 24), CDisconnect, 26), CKeepAlive, 32),
          CJoinGame, 37));
    }
  }

  lemma {:induction false} PlayClientboundMiddleInverse(v: int)
    requires 22 <= v < 32
    ensures Inverse(PlayClientboundIds(v), PlayClientboundNames(v))
  {
    if v < 23 {
      RowsInverse(
        Row(Row(Row(Row(Row(NoRows, SChatMessage, 14), CCustomPayload, 23), CDisconnect, 25), CKeepAlive, 31),
          CJoinGame, 36));
    } else if v < 27 {
      RowsInverse(
        Row(Row(Row(Row(Row(Row(NoRows, SChatMessage, 15), CCustomPayload, 24), CDisconnect, 26),
          CKeepAlive, 33), CJoinGame, 38), CPong, 48));
    } else if v < 28 {
      RowsInverse(
        Row(Row(Row(Row(Row(NoRows, CCustomPayload, 21), CDisconnect, 23), CKeepAlive, 30), CJoinGame, 35),
          CPong, 45));
    } else if v < 29 {
      RowsInverse(
        Row(Row(Row(Row(Row(NoRows, CCustomPayload, 22), CDisconnect, 25), CKeepAlive, 32), CJoinGame, 37),
          CPong, 47));
    } else if v < 30 {
      RowsInverse(
        Row(Row(Row(Row(Row(Row(NoRows, CCustomPayload, 21), CDisconnect, 23), CKeepAlive, 31), CJoinGame, 36),
          CPong, 46), CFeatureFlags, 103));
    } else {
      RowsInverse(
        Row(Row(Row(Row(Row(Row(NoRows, CCustomPayload, 23), CDisconnect, 26), CKeepAlive, 35), CJoinGame, 40),
          CPong, 50), CFeatureFlags, 107));
    }
  }

  lemma {:induction false} PlayClientboundLateInverse(v: int)
    requires 32 <= v
    ensures Inverse(PlayClientboundIds(v), PlayClientboundNames(v))
  {
    if v < 34 {
      RowsInverse(
        Row(Row(Row(Row(Row(NoRows, CCustomPayload, 24), CDisconnect, 27), CKeepAlive, 36), CJoinGame, 41),
          CPong, 51));
    } else if v < 36 {
      RowsInverse(
        Row(Row(Row(Row(Row(Row(NoRows, CCookieRequest, 22), CCustomPayload, 25), CDisconnect, 29),
          CKeepAlive, 38), CJoinGame, 43), CPong, 53));
    } else if v < 38 {
      RowsInverse(
        Row(Row(Row(Row(Row(Row(NoRows, CCookieRequest, 22), CCustomPayload, 25), CDisconnect, 29),
          CKeepAlive, 39), CJoinGame, 44), CPong, 55));
    } else if v < 41 {
      RowsInverse(
        Row(Row(Row(Row(Row(Row(NoRows, CCookieRequest, 21), CCustomPayload, 24), CDisconnect, 28),
          CKeepAlive, 38), CJoinGame, 43), CPong, 54));
    } else {
      RowsInverse(
        Row(Row(Row(Row(Row(Row(NoRows, CCookieRequest, 21), CCustomPayload, 24), CDisconnect, 32),
          CKeepAlive, 43), CJoinGame, 48), CPong, 59));
    }
  }

  lemma {:induction false} PlayClientboundInverse(v: int)
    ensures Inverse(PlayClientboundIds(v), PlayClientboundNames(v))
  {
    if v < 22 {
      PlayClientboundEarlyInverse(v);
    } else if v < 32 {
      PlayClientboundMiddleInverse(v);
    } else {
      PlayClientboundLateInverse(v);
    }
  }

  /** The two shipped tables of every state, direction and version are each other's inverse. */
  lemma {:induction false} TablesInverse(v: int, s: Slot)
    ensures Inverse(IdsOf(v, s), NamesOf(v, s))
  {
    match s
    case Slot(Play, Serverbound) => PlayServerboundInverse(v);
    case Slot(Play, Clientbound) => PlayClientboundInverse(v);
    case Slot(Configuration, Serverbound) => ConfigurationServerboundInverse(v);
    case Slot(Configuration, Clientbound) => ConfigurationClientboundInverse(v);
    case Slot(Login, Serverbound) => LoginServerboundInverse(v);
    case Slot(Login, Clientbound) => LoginClientboundInverse(v);
    case Slot(Status, Serverbound) =>
    case Slot(Status, Clientbound) =>
    case Slot(Handshaking, Serverbound) =>
    case Slot(Handshaking, Clientbound) =>
  }

  predicate CanSend(defs: Defs, v: int, state: State, k: Kind) { IdFor(defs, v, Slot(state, Serverbound), k).Some? }

  /** Some inbound ID makes a packet of type k. */
  ghost predicate CanReceive(defs: Defs, v: int, state: State, k: Kind)
  {
    exists id :: KindFor(defs, v, Slot(state, Clientbound), id) == Some(k)
  }

  /** What the sessions of a client of version v need of its tables. */
  ghost predicate WellFormed(defs: Defs, v: int)
  {
    && CanSend(defs, v, Handshaking, SHandshake)
    && CanSend(defs, v, Status, SStatusRequest) && CanSend(defs, v, Status, SPing)
    && CanSend(defs, v, Login, SLoginStart)
    && CanSend(defs, v, Play, SClientSettings) && CanSend(defs, v, Play, SKeepAlive) && CanSend(defs, v, Play, SChatMessage)
    && (v >= V1_20_2 ==>
          && CanSend(defs, v, Login, SLoginAcknowledged)
          && CanSend(defs, v, Configuration, SClientSettings) && CanSend(defs, v, Configuration, SCustomPayload)
          && CanSend(defs, v, Configuration, SFinishConfiguration) && CanSend(defs, v, Configuration, SConfigKeepAlive))
    && (CanReceive(defs, v, Configuration, CSelectKnownPacks) ==> CanSend(defs, v, Configuration, SSelectKnownPacks))
    && (CanReceive(defs, v, Configuration, CCookieRequest) ==> CanSend(defs, v, Configuration, SCookieResponse))
    && !CanReceive(defs, v, Login, CJoinGame) && !CanReceive(defs, v, Login, CKeepAlive)
  }

  lemma {:induction false} PlayTables(v: int)
    ensures SKeepAlive in PlayServerboundIds(v) && SChatMessage in PlayServerboundIds(v)
    ensures SClientSettings in PlayServerboundIds(v)
  {
  }

  /** The known-packs and cookie replies exist exactly from 1.20.5 on, as the requests do. */
  lemma {:induction false} ConfigurationTables(v: int)
    ensures SClientSettings in ConfigurationServerboundIds(v) <==> v >= V1_20_2
    ensures SCustomPayload in ConfigurationServerboundIds(v) <==> v >= V1_20_2
    ensures SFinishConfiguration in ConfigurationServerboundIds(v) <==> v >= V1_20_2
    ensures SConfigKeepAlive in ConfigurationServerboundIds(v) <==> v >= V1_20_2
    ensures SSelectKnownPacks in ConfigurationServerboundIds(v) <==> v >= V1_20_5
    ensures SCookieResponse in ConfigurationServerboundIds(v) <==> v >= V1_20_5
  {
  }

  lemma {:induction false} ConfigurationRequests(v: int, id: int32)
    requires id in ConfigurationClientboundNames(v)
    ensures ConfigurationClientboundNames(v)[id] in {CSelectKnownPacks, CCookieRequest} ==> v >= V1_20_5
  {
  }

  lemma {:induction false} LoginServerTables(v: int)
    ensures SLoginStart in LoginServerboundIds(v)
    ensures SLoginAcknowledged in LoginServerboundIds(v) <==> v >= V1_20_2
  {
  }

  /** No login table lists join-game or keep-alive. */
  lemma {:induction false} LoginClientTables(v: int)
    ensures forall id :: id in LoginClientboundNames(v) ==>
              LoginClientboundNames(v)[id] !in {CJoinGame, CKeepAlive}
  {
  }

  lemma {:induction false} PlaySends(defs: Defs, v: int)
    requires Answers(defs, v, Slot(Play, Serverbound))
    ensures CanSend(defs, v, Play, SKeepAlive) && CanSend(defs, v, Play, SChatMessage) && CanSend(defs, v, Play, SClientSettings)
  {
    PlayTables(Clamp(v));
  }

  lemma {:induction false} EarlySends(defs: Defs, v: int)
    requires Answers(defs, v, Slot(Handshaking, Serverbound)) && Answers(defs, v, Slot(Status, Serverbound))
    ensures CanSend(defs, v, Handshaking, SHandshake)
    ensures CanSend(defs, v, Status, SStatusRequest) && CanSend(defs, v, Status, SPing)
  {
  }

  lemma {:induction false} LoginSends(defs: Defs, v: int)
    requires Answers(defs, v, Slot(Login, Serverbound))
    ensures CanSend(defs, v, Login, SLoginStart)
    ensures CanSend(defs, v, Login, SLoginAcknowledged) <==> v >= V1_20_2
  {
    LoginServerTables(Clamp(v));
  }

  lemma {:induction false} LoginReceives(defs: Defs, v: int)
    requires Answers(defs, v, Slot(Login, Clientbound))
    ensures !CanReceive(defs, v, Login, CJoinGame) && !CanReceive(defs, v, Login, CKeepAlive)
  {
    LoginClientTables(Clamp(v));
  }

  /** A type can be sent in configuration exactly when the table above lists it. */
  lemma {:induction false} ListedSends(defs: Defs, v: int, k: Kind)
    requires Answers(defs, v, Slot(Configuration, Serverbound)) && HasConstructor(k)
    ensures CanSend(defs, v, Configuration, k) <==> k in ConfigurationServerboundIds(Clamp(v))
  {
  }

  lemma {:induction false} ConfigurationSends(defs: Defs, v: int)
    requires Answers(defs, v, Slot(Configuration, Serverbound))
    ensures CanSend(defs, v, Configuration, SClientSettings) <==> v >= V1_20_2
    ensures CanSend(defs, v, Configuration, SCustomPayload) <==> v >= V1_20_2
    ensures CanSend(defs, v, Configuration, SFinishConfiguration) <==> v >= V1_20_2
    ensures CanSend(defs, v, Configuration, SConfigKeepAlive) <==> v >= V1_20_2
    ensures CanSend(defs, v, Configuration, SSelectKnownPacks) <==> v >= V1_20_5
    ensures CanSend(defs, v, Configuration, SCookieResponse) <==> v >= V1_20_5
  {
    ConfigurationTables(Clamp(v));
    ListedSends(defs, v, SClientSettings);
    ListedSends(defs, v, SCustomPayload);
    ListedSends(defs, v, SFinishConfiguration);
    ListedSends(defs, v, SConfigKeepAlive);
    ListedSends(defs, v, SSelectKnownPacks);
    ListedSends(defs, v, SCookieResponse);
  }

  lemma {:induction false} ConfigurationReceives(defs: Defs, v: int)
    requires Answers(defs, v, Slot(Configuration, Clientbound))
    ensures CanReceive(defs, v, Configuration, CSelectKnownPacks) ==> v >= V1_20_5
    ensures CanReceive(defs, v, Configuration, CCookieRequest) ==> v >= V1_20_5
  {
    forall id | KindFor(defs, v, Slot(Configuration, Clientbound), id) in {Some(CSelectKnownPacks), Some(CCookieRequest)}
      ensures v >= V1_20_5
    {
      ConfigurationRequests(Clamp(v), id);
    }
  }

  /** The shipped registry is well-formed for every release, and for any later version number. */
  lemma {:induction false} GeneratedWellFormed(v: int)
    requires v >= FIRST
    ensures WellFormed(GeneratedDefs(), v)
  {
    forall s | s in ALL_SLOTS
      ensures Answers(GeneratedDefs(), v, s)
    {
      GeneratedAnswers(v, s);
    }
    AnswersWellFormed(GeneratedDefs(), v);
  }

  lemma {:induction false} AnswersWellFormed(defs: Defs, v: int)
    requires forall s :: s in ALL_SLOTS ==> Answers(defs, v, s)
    ensures WellFormed(defs, v)
  {
    EarlySends(defs, v);
    LoginSends(defs, v);
    LoginReceives(defs, v);
    ConfigurationSends(defs, v);
    ConfigurationReceives(defs, v);
    PlaySends(defs, v);
  }
}
