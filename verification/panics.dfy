/** When a server can bring the process down: over the shipped registry, from which version on, and with
    which payloads. */
module Panics {
  import opened Wire
  import opened Packets
  import opened PacketLaws
  import opened Registry
  import opened Framing
  import opened Session
  import opened Tables
  import opened JoinLaws
  import opened Compression
  import Shipped

  // ---------------------------------------------------------------- what the tables list

  /** A type whose decoder cannot panic. */
  predicate Harmless(k: Kind) { !IsList(k) && k != SKeepAlive }

  /** Of the types whose decoders can panic, only feature flags and known packs are listed. */
  predicate MayPanic(k: Kind) { k == CFeatureFlags || k == CSelectKnownPacks }

  lemma {:induction false} TypesMayPanic(state: State, k: Kind)
    requires k in Shipped.TypesOf(Slot(state, Clientbound))
    ensures Harmless(k) || MayPanic(k)
    ensures state == Login ==> Harmless(k)
  {
  }

  lemma {:induction false} Panickers(v: int, state: State, id: int32)
    requires id in NamesOf(v, Slot(state, Clientbound))
    ensures Harmless(NamesOf(v, Slot(state, Clientbound))[id]) || MayPanic(NamesOf(v, Slot(state, Clientbound))[id])
    ensures state == Login ==> Harmless(NamesOf(v, Slot(state, Clientbound))[id])
  {
    var slot := Slot(state, Clientbound);
    ListedType(v, slot, IdsOf(v, slot), NamesOf(v, slot), id);
    TypesMayPanic(state, NamesOf(v, slot)[id]);
  }

  lemma {:induction false} ListedType(v: int, slot: Slot, ids: map<Kind, int32>, names: map<int32, Kind>, id: int32)
    requires ids == IdsOf(v, slot) && names == NamesOf(v, slot) && id in names
    ensures names[id] in Shipped.TypesOf(slot)
  {
    TablesInverse(v, slot);
    Shipped.SlotTypes(v, slot);
  }

  /** The type an inbound ID stands for over the shipped registry. */
  lemma {:induction false} ShippedKind(v: int, state: State, id: int32)
    requires v >= FIRST && KindFor(GeneratedDefs(), v, Slot(state, Clientbound), id).Some?
    ensures var k := KindFor(GeneratedDefs(), v, Slot(state, Clientbound), id).value;
            (Harmless(k) || MayPanic(k)) && (state == Login ==> Harmless(k))
  {
    var slot := Slot(state, Clientbound);
    GeneratedAnswers(v, slot);
    assert Answers(GeneratedDefs(), v, slot);
    Panickers(Clamp(v), state, id);
  }

  // ---------------------------------------------------------------- which payloads panic

  /** A feature-flags or known-packs packet with a negative count. */
  predicate NegativePayload(v: int, state: State, data: bytes)
  {
    && DecVarInt(data).Ok?
    && var k := KindFor(GeneratedDefs(), v, Slot(state, Clientbound), DecVarInt(data).value);
       k.Some? && MayPanic(k.value) && NegativeCount(DecVarInt(data).rest)
  }

  /** Over the shipped registry a payload panics the process if and only if it is one of these; during
      login none is. */
  lemma {:induction false} ShippedCrashes(v: int, state: State, data: bytes, clean: bool)
    requires v >= FIRST
    ensures Understand(GeneratedDefs(), v, state, data, clean).Crashed? <==> NegativePayload(v, state, data)
    ensures state == Login ==> !NegativePayload(v, state, data)
  {
    UnderstandCrashes(GeneratedDefs(), v, state, data, clean);
    if DecVarInt(data).Ok? {
      var id := DecVarInt(data).value;
      var k := KindFor(GeneratedDefs(), v, Slot(state, Clientbound), id);
      if k.Some? {
        ShippedKind(v, state, id);
        FlagsAndPacksPanic(DecVarInt(data).rest);
      }
    }
  }

  // ---------------------------------------------------------------- login is safe

  lemma {:induction false} LoginReadSafe(env: Env, v: int, w: World)
    requires env.defs == GeneratedDefs() && v >= FIRST && w.state == Login
    ensures !Hear(env, v, w).0.Crashed?
  {
    match CutFrame(w.input) {
      case Short(_) =>
      case Whole(body, _) =>
        match Open(env.z, w.threshold, body) {
          case BadHeader =>
          case Stream(data, clean) => ShippedCrashes(v, Login, data, clean);
        }
    }
  }

  lemma {:induction false} OldReactionSafe(env: Env, cfg: Config, w: World, o: Outcome)
    requires cfg.version < V1_20_2 && w.state == Login && !o.Crashed?
    ensures var t := LoginReaction(env, cfg, w, o);
            if t.Return? then t.verdict != Panicked else t.world.state == Login
  {
  }

  /** Before 1.20.2 Join reads in no other state. */
  lemma {:induction false} OldLoginSafe(env: Env, cfg: Config, w: World)
    requires env.defs == GeneratedDefs() && FIRST <= cfg.version < V1_20_2 && w.state == Login
    ensures LoginLoop(env, cfg, w).0 != Panicked
    decreases |w.input|
  {
    var (o, w1) := Hear(env, cfg.version, w);
    LoginReadSafe(env, cfg.version, w);
    OldReactionSafe(env, cfg, w1, o);
    var t := LoginTurn(env, cfg, w);
    if t.Again? {
      OldLoginSafe(env, cfg, t.world);
    }
  }

  // ---------------------------------------------------------------- a server that panics the client

  /** The ID of feature flags in configuration. */
  function FlagsID(v: int): int32 { if v < V1_20_2 + 1 then 7 else if v < V1_20_5 then 8 else 12 }

  /** A login success without name or properties. */
  function SuccessPayload(v: int): bytes { EncVarInt(2) + EncLoginSuccess(v, [], NIL_UUID, false, [], false) }

  /** Feature flags with a count of -1. */
  function FlagsPayload(v: int): bytes { EncVarInt(FlagsID(v)) + EncVarInt(-1) }

  lemma {:induction false} LoginSuccessID(v: int)
    ensures 2 in LoginClientboundNames(v) && LoginClientboundNames(v)[2] == CLoginSuccess
  {
  }

  lemma {:induction false} FlagsListed(v: int)
    requires v >= V1_20_2
    ensures FlagsID(v) in ConfigurationClientboundNames(v) && ConfigurationClientboundNames(v)[FlagsID(v)] == CFeatureFlags
  {
  }

  lemma {:induction false} ListedKind(v: int, slot: Slot, id: int32, k: Kind)
    requires v >= FIRST && id in NamesOf(Clamp(v), slot) && NamesOf(Clamp(v), slot)[id] == k && HasConstructor(k)
    ensures KindFor(GeneratedDefs(), v, slot, id) == Some(k)
  {
    GeneratedAnswers(v, slot);
  }

  lemma {:induction false} ShippedIDs(v: int)
    requires v >= V1_20_2
    ensures KindFor(GeneratedDefs(), v, Slot(Login, Clientbound), 2) == Some(CLoginSuccess)
    ensures KindFor(GeneratedDefs(), v, Slot(Configuration, Clientbound), FlagsID(v)) == Some(CFeatureFlags)
  {
    LoginSuccessID(Clamp(v));
    FlagsListed(Clamp(v));
    ListedKind(v, Slot(Login, Clientbound), 2, CLoginSuccess);
    ListedKind(v, Slot(Configuration, Clientbound), FlagsID(v), CFeatureFlags);
  }

  lemma {:induction false} SuccessUnderstood(env: Env, v: int)
    requires v >= V1_20_2 && env.defs == GeneratedDefs()
    ensures Understand(GeneratedDefs(), v, Login, SuccessPayload(v), true) == Got(ClientboundLoginSuccess([], NIL_UUID))
  {
    ShippedIDs(v);
    ClientReadsAcceptance(env, v, 2, [], NIL_UUID, false, [], false);
  }

  lemma {:induction false} FlagsNegative(v: int)
    requires v >= V1_20_2
    ensures NegativePayload(v, Configuration, FlagsPayload(v))
  {
    VarIntRoundTrip(FlagsID(v), EncVarInt(-1));
    VarIntRoundTrip(-1, []);
    assert EncVarInt(-1) + [] == EncVarInt(-1);
    ShippedIDs(v);
  }

  lemma {:induction false} FlagsPanic(v: int)
    requires v >= V1_20_2
    ensures Understand(GeneratedDefs(), v, Configuration, FlagsPayload(v), true) == Crashed
  {
    FlagsNegative(v);
    ShippedCrashes(v, Configuration, FlagsPayload(v), true);
  }

  lemma {:induction false} PayloadsSmall(v: int)
    requires v >= V1_20_2
    ensures SuccessPayload(v) != [] && |SuccessPayload(v)| < 100 && FlagsPayload(v) != [] && |FlagsPayload(v)| < 100
  {
    VarIntSize(2);
    VarIntSize(0);
    VarIntSize(-1);
    VarIntSize(FlagsID(v));
  }

  /** The two frames, uncompressed. */
  function FatalInput(env: Env, v: int): bytes { Frame(env.z, -1, SuccessPayload(v)) + Frame(env.z, -1, FlagsPayload(v)) }

  /** Reading the login success, uncompressed, leads to the configuration loop, with the rest ahead. */
  lemma {:induction false} ReadsSuccess(env: Env, cfg: Config, w: World, rest: bytes)
    requires env.defs == GeneratedDefs() && env.z.Lawful() && cfg.version >= V1_20_2
    requires w.state == Login && w.threshold == -1 && w.input == Frame(env.z, -1, SuccessPayload(cfg.version)) + rest
    ensures var o := Hear(env, cfg.version, w).0;
            var w1 := Hear(env, cfg.version, w).1;
            && o == Got(ClientboundLoginSuccess([], NIL_UUID))
            && w1.input == rest && w1.state == Login && w1.threshold == -1
  {
    PayloadsSmall(cfg.version);
    SuccessUnderstood(env, cfg.version);
    ReceiveFrame(env.z, env.defs, cfg.version, Login, -1, SuccessPayload(cfg.version), rest);
  }

  lemma {:induction false} ReadsFlags(env: Env, cfg: Config, w: World)
    requires env.defs == GeneratedDefs() && env.z.Lawful() && cfg.version >= V1_20_2
    requires w.state == Configuration && w.threshold == -1 && w.input == Frame(env.z, -1, FlagsPayload(cfg.version))
    ensures ConfigurationLoop(env, cfg, w).0 == Panicked
  {
    PayloadsSmall(cfg.version);
    FlagsPanic(cfg.version);
    ReceiveFrame(env.z, env.defs, cfg.version, Configuration, -1, FlagsPayload(cfg.version), []);
    assert w.input + [] == w.input;
  }

  lemma {:induction false} ConfiguresFatally(env: Env, cfg: Config, w: World)
    requires env.defs == GeneratedDefs() && env.z.Lawful() && cfg.version >= V1_20_2
    requires w.state == Login && w.threshold == -1 && w.input == Frame(env.z, -1, FlagsPayload(cfg.version))
    ensures LoggedIn(env, cfg, w).0 == Panicked
  {
    var v := cfg.version;
    GeneratedWellFormed(v);
    var w1 := SetState(Send(env, v, w, ServerboundLoginAcknowledged).1, Configuration);
    var w2 := Send(env, v, w1, ServerboundClientSettings(cfg.settings)).1;
    ReadsFlags(env, cfg, w2);
  }

  lemma {:induction false} FatalLogin(env: Env, cfg: Config, w: World)
    requires env.defs == GeneratedDefs() && env.z.Lawful() && cfg.version >= V1_20_2
    requires w.state == Login && w.threshold == -1 && w.input == FatalInput(env, cfg.version)
    ensures LoginLoop(env, cfg, w).0 == Panicked
  {
    ReadsSuccess(env, cfg, w, Frame(env.z, -1, FlagsPayload(cfg.version)));
    ConfiguresFatally(env, cfg, Hear(env, cfg.version, w).1);
  }

  lemma {:induction false} HandshakeGoes(env: Env, cfg: Config, w: World)
    requires CanSend(env.defs, cfg.version, Handshaking, SHandshake) && w.state == Handshaking
    ensures var (v1, w1) := SendHandshake(env, cfg, w, Login);
            v1 == Nil && w1 == w.(sent := w1.sent)
  {
  }

  lemma {:induction false} LoginStartGoes(env: Env, cfg: Config, w: World)
    requires CanSend(env.defs, cfg.version, Login, SLoginStart) && w.state == Login && cfg.username != []
    ensures var (v1, w1) := SendLogin(env, cfg, w);
            v1 == Nil && w1 == w.(sent := w1.sent)
  {
  }

  /** With a user name, Join is the login loop. */
  lemma {:induction false} JoinEnters(env: Env, cfg: Config, input: bytes) returns (w: World)
    requires CanSend(env.defs, cfg.version, Handshaking, SHandshake) && CanSend(env.defs, cfg.version, Login, SLoginStart)
    requires cfg.username != []
    ensures EntersLogin(w, input) && Join(env, cfg, input) == LoginLoop(env, cfg, w)
  {
    HandshakeGoes(env, cfg, Fresh(input));
    var w1 := SetState(SendHandshake(env, cfg, Fresh(input), Login).1, Login);
    LoginStartGoes(env, cfg, w1);
    w := SendLogin(env, cfg, w1).1;
  }

  lemma {:induction false} FatalJoin(env: Env, cfg: Config)
    requires env.defs == GeneratedDefs() && env.z.Lawful() && cfg.version >= V1_20_2 && cfg.username != []
    ensures Join(env, cfg, FatalInput(env, cfg.version)).0 == Panicked
  {
    GeneratedWellFormed(cfg.version);
    var w := JoinEnters(env, cfg, FatalInput(env, cfg.version));
    FatalLogin(env, cfg, w);
  }

  lemma {:induction false} OldJoinSafe(env: Env, cfg: Config, input: bytes)
    requires env.defs == GeneratedDefs() && FIRST <= cfg.version
    requires cfg.version < V1_20_2 || cfg.username == []
    ensures Join(env, cfg, input).0 != Panicked
  {
    GeneratedWellFormed(cfg.version);
    if cfg.username != [] {
      var w := JoinEnters(env, cfg, input);
      OldLoginSafe(env, cfg, w);
    }
  }

  /** Over the shipped registry, a server can panic a joining client if and only if the client is of
      1.20.2 or later (and has a user name, without which it never logs in). */
  lemma {:induction false} ServerCanPanic(env: Env, cfg: Config)
    requires env.defs == GeneratedDefs() && env.z.Lawful() && cfg.version >= FIRST
    ensures (exists input :: Join(env, cfg, input).0 == Panicked) <==> cfg.version >= V1_20_2 && cfg.username != []
  {
    if cfg.version >= V1_20_2 && cfg.username != [] {
      FatalJoin(env, cfg);
    } else {
      forall input
        ensures Join(env, cfg, input).0 != Panicked
      {
        OldJoinSafe(env, cfg, input);
      }
    }
  }

  /** And against a server that frames its payloads under its threshold of the moment: Join panics if
      and only if the last payload it reads is, in configuration, feature flags or known packs with a
      negative count. */
  lemma {:induction false} PanicsOnPayload(env: Env, cfg: Config, payloads: seq<bytes>, tail: bytes)
    requires env.defs == GeneratedDefs() && env.z.Lawful() && cfg.version >= FIRST
    requires AllFit(env, cfg.version, START, payloads) && CutFrame(tail).Short?
    ensures var (r, w) := Join(env, cfg, Emitted(env, cfg.version, START, payloads) + tail);
            var last := |w.heard| - 1;
            r == Panicked <==>
              && 0 <= last < |payloads| && w.heard[last].state != Login
              && NegativePayload(cfg.version, w.heard[last].state, payloads[last])
  {
    var v := cfg.version;
    var input := Emitted(env, v, START, payloads) + tail;
    var (r, w) := Join(env, cfg, input);
    assert Nearest(env.defs, v).Some? by {
      NearestGenerated(v);
    }
    JoinPanics(env, cfg, input);
    JoinReadsInOrder(env, cfg, payloads, tail);
    LastRead(env, v, payloads, w.heard);
  }

  lemma {:induction false} LastRead(env: Env, v: int, payloads: seq<bytes>, heard: seq<Heard>)
    requires env.defs == GeneratedDefs() && v >= FIRST && |heard| <= |payloads| + 1
    requires forall i :: 0 <= i < |heard| && i < |payloads| ==> Delivered(env, v, payloads, i, heard[i])
    requires |heard| == |payloads| + 1 ==> heard[|payloads|].outcome == Failed
    ensures var last := |heard| - 1;
            EndsCrashed(heard) <==>
              && 0 <= last < |payloads| && heard[last].state != Login
              && NegativePayload(v, heard[last].state, payloads[last])
  {
    var last := |heard| - 1;
    if 0 <= last < |payloads| {
      assert Delivered(env, v, payloads, last, heard[last]);
      ShippedCrashes(v, heard[last].state, payloads[last], true);
    }
  }
}
