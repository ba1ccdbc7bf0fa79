/** What holds of every run of Join, for every version and every inbound byte stream, over a
    well-formed registry. */
module JoinLaws {
  import opened Wire
  import opened Packets
  import opened Registry
  import opened Framing
  import opened Session
  import opened Tables
  import opened Traces
  import PacketLaws

  // ---------------------------------------------------------------- the invariant of a run

  /** The packet has an ID in the state it was sent in. */
  ghost predicate Mapped(env: Env, v: int, x: Sent)
  {
    Encodable(x.packet) && CanSend(env.defs, v, x.state, KindOf(x.packet))
  }

  ghost predicate AllMapped(env: Env, v: int, sent: seq<Sent>) { forall x :: x in sent ==> Mapped(env, v, x) }

  /** The state changes of a run so far: handshake, login, from 1.20.2 on configuration, play. */
  ghost predicate OnPath(v: int, states: seq<State>)
  {
    || states == [Handshaking]
    || states == [Handshaking, Login]
    || (v >= V1_20_2 && states == [Handshaking, Login, Configuration])
    || (v >= V1_20_2 && states == [Handshaking, Login, Configuration, Play])
    || (v < V1_20_2 && states == [Handshaking, Login, Play])
  }

  /** The last threshold received during login, or -1. */
  function LastThreshold(heard: seq<Heard>): int
  {
    if heard == [] then -1
    else
      var x := heard[|heard| - 1];
      if x.state == Login && x.outcome.Got? && x.outcome.packet.ClientboundSetCompression?
      then x.outcome.packet.threshold
      else LastThreshold(heard[..|heard| - 1])
  }

  /** After login, everything is sent and received under the threshold w has now. */
  ghost predicate Settled(w: World)
  {
    && (forall x :: x in w.sent && (x.state == Configuration || x.state == Play) ==> x.threshold == w.threshold)
    && (forall x :: x in w.heard && (x.state == Configuration || x.state == Play) ==> x.threshold == w.threshold)
  }

  /** Nothing was sent or received in a state the connection has not been in. */
  ghost predicate Seen(w: World)
  {
    && (forall x :: x in w.sent ==> x.state in w.states)
    && (forall x :: x in w.heard ==> x.state in w.states)
  }

  /** Join-game and keep-alive never arrive during login. */
  ghost predicate LoginQuiet(heard: seq<Heard>)
  {
    forall x :: x in heard && x.state == Login && x.outcome.Got? ==>
      !x.outcome.packet.ClientboundJoinGame? && !x.outcome.packet.ClientboundKeepAlive?
  }

  /** No cookie was asked for under a key longer than a string may be. */
  ghost predicate KeysBounded(heard: seq<Heard>)
  {
    forall x :: x in heard && x.outcome.Got? && x.outcome.packet.ClientboundCookieRequest? ==> Bounded(x.outcome.packet.key)
  }

  ghost predicate Path(v: int, w: World) { OnPath(v, w.states) && w.states[|w.states| - 1] == w.state }

  ghost predicate ThresholdKept(w: World) { w.threshold == LastThreshold(w.heard) && Seen(w) && Settled(w) }

  ghost predicate Good(env: Env, v: int, w: World)
  {
    AllMapped(env, v, w.sent) && Path(v, w) && ThresholdKept(w) && LoginQuiet(w.heard) && KeysBounded(w.heard)
  }

  /** w1 is w after some reading or writing that changed neither state nor threshold. */
  ghost predicate SameMode(w: World, w1: World)
  {
    w1.state == w.state && w1.states == w.states && w1.threshold == w.threshold
  }

  // ---------------------------------------------------------------- single calls keep it

  /** A mapped send succeeds and keeps the invariant. */
  lemma {:induction false} SendGood(env: Env, v: int, w: World, p: Packet)
    requires Good(env, v, w) && Encodable(p) && CanSend(env.defs, v, w.state, KindOf(p))
    ensures var (ok, w1) := Send(env, v, w, p);
            && ok && Good(env, v, w1) && SameMode(w, w1)
            && w1.sent == w.sent + [Sent(w.state, w.threshold, p)] && w1.heard == w.heard && w1.input == w.input
  {
    assert Mapped(env, v, Sent(w.state, w.threshold, p));
    SendSettled(v, w, Sent(w.state, w.threshold, p));
  }

  lemma {:induction false} SendSettled(v: int, w: World, x: Sent)
    requires Path(v, w) && ThresholdKept(w) && x.state == w.state && x.threshold == w.threshold
    ensures Seen(w.(sent := w.sent + [x])) && Settled(w.(sent := w.sent + [x]))
  {
    assert w.state in w.states;
  }

  /** A packet comes out as one of the types the state's table lists. */
  lemma {:induction false} HearListed(env: Env, v: int, w: World) returns (k: Kind)
    requires Hear(env, v, w).0.Got?
    ensures CanReceive(env.defs, v, w.state, k) && HasConstructor(k) && Is(Hear(env, v, w).0.packet, k)
  {
    var body := CutFrame(w.input).body;
    var data := Open(env.z, w.threshold, body);
    var id := DecVarInt(data.data).value;
    k := KindFor(env.defs, v, Slot(w.state, Clientbound), id).value;
  }

  lemma {:induction false} HearQuiet(env: Env, v: int, w: World)
    requires WellFormed(env.defs, v) && w.state == Login && Hear(env, v, w).0.Got?
    ensures !Hear(env, v, w).0.packet.ClientboundJoinGame? && !Hear(env, v, w).0.packet.ClientboundKeepAlive?
  {
    var k := HearListed(env, v, w);
    OnlyKind(Hear(env, v, w).0.packet, k);
  }

  lemma {:induction false} HearKey(env: Env, v: int, w: World)
    requires Hear(env, v, w).0.Got? && Hear(env, v, w).0.packet.ClientboundCookieRequest?
    ensures Bounded(Hear(env, v, w).0.packet.key)
  {
    var data := Open(env.z, w.threshold, CutFrame(w.input).body);
    var id := DecVarInt(data.data);
    var k := KindFor(env.defs, v, Slot(w.state, Clientbound), id.value).value;
    var decoded := DecodePacket(k, v, id.rest, data.clean);
    assert Hear(env, v, w).0 == AsOutcome(decoded);
    CookieKey(k, v, id.rest, data.clean, decoded);
  }

  lemma {:induction false} CookieKey(k: Kind, v: int, s: bytes, clean: bool, decoded: Parse<Packet>)
    requires HasConstructor(k) && decoded == DecodePacket(k, v, s, clean) && decoded.Ok? && decoded.value.ClientboundCookieRequest?
    ensures Bounded(decoded.value.key)
  {
    OnlyKind(decoded.value, k);
    assert decoded == DecodeText(k, s);
  }

  lemma {:induction false} OnlyKind(p: Packet, k: Kind)
    requires Is(p, k)
    ensures p.ClientboundJoinGame? ==> k.CJoinGame?
    ensures p.ClientboundKeepAlive? ==> k.CKeepAlive?
    ensures p.ClientboundSelectKnownPacks? ==> k.CSelectKnownPacks?
    ensures p.ClientboundCookieRequest? ==> k.CCookieRequest?
  {
  }

  /** The threshold to go on with after an outcome: a compression packet counts during login only. */
  function NextThreshold(w: World, o: Outcome): int
  {
    if w.state == Login && o.Got? && o.packet.ClientboundSetCompression? then o.packet.threshold else w.threshold
  }

  /** A read keeps the invariant, once the threshold it may bring has been taken over. */
  lemma {:induction false} HearGood(env: Env, v: int, w: World)
    requires WellFormed(env.defs, v) && Good(env, v, w)
    ensures var (o, w1) := Hear(env, v, w);
            && Good(env, v, w1.(threshold := NextThreshold(w, o))) && SameMode(w, w1)
            && w1.heard == w.heard + [Heard(w.state, w.threshold, o)] && w1.sent == w.sent
            && (NextThreshold(w, o) == w.threshold ==> Good(env, v, w1))
  {
    var (o, w1) := Hear(env, v, w);
    var w2 := w1.(threshold := NextThreshold(w, o));
    HeardThreshold(w.heard, Heard(w.state, w.threshold, o));
    assert LoginQuiet(w2.heard) by {
      if w.state == Login && o.Got? {
        HearQuiet(env, v, w);
      }
    }
    assert KeysBounded(w2.heard) by {
      if o.Got? && o.packet.ClientboundCookieRequest? {
        HearKey(env, v, w);
      }
    }
    assert ThresholdKept(w2) by {
      HearSettled(v, w, o);
    }
    assert NextThreshold(w, o) == w.threshold ==> w2 == w1;
  }

  /** While the threshold may still change, nothing has happened outside handshake and login. */
  lemma {:induction false} HearSettled(v: int, w: World, o: Outcome)
    requires Path(v, w) && ThresholdKept(w)
    ensures var w2 := w.(heard := w.heard + [Heard(w.state, w.threshold, o)], threshold := NextThreshold(w, o));
            Seen(w2) && Settled(w2)
  {
    if w.state == Login {
      assert w.states == [Handshaking, Login];
    }
  }

  lemma {:induction false} HeardThreshold(heard: seq<Heard>, x: Heard)
    ensures LastThreshold(heard + [x]) ==
      if x.state == Login && x.outcome.Got? && x.outcome.packet.ClientboundSetCompression?
      then x.outcome.packet.threshold else LastThreshold(heard)
  {
    assert (heard + [x])[..|heard + [x]| - 1] == heard;
  }

  /** Entering the next state on the path keeps the invariant. */
  lemma {:induction false} SetStateGood(env: Env, v: int, w: World, s: State)
    requires Good(env, v, w) && OnPath(v, w.states + [s])
    requires w.state == Login || w.state == Handshaking || w.state == Configuration
    ensures Good(env, v, SetState(w, s))
  {
  }

  lemma {:induction false} FreshGood(env: Env, v: int, input: bytes)
    ensures Good(env, v, Fresh(input))
  {
  }

  /** Packets as they are recorded when sent together. */
  function Stamp(state: State, threshold: int, ps: seq<Packet>): seq<Sent>
  {
    if ps == [] then [] else [Sent(state, threshold, ps[0])] + Stamp(state, threshold, ps[1..])
  }

  ghost predicate AllSendable(env: Env, v: int, state: State, ps: seq<Packet>)
  {
    forall p :: p in ps ==> Encodable(p) && CanSend(env.defs, v, state, KindOf(p))
  }

  /** Mapped packets sent in a row all go out. */
  lemma {:induction false} SendAllGood(env: Env, v: int, w: World, ps: seq<Packet>)
    requires Good(env, v, w) && AllSendable(env, v, w.state, ps)
    ensures var (ok, w1) := SendAll(env, v, w, ps);
            && ok && Good(env, v, w1) && SameMode(w, w1)
            && w1.sent == w.sent + Stamp(w.state, w.threshold, ps) && w1.heard == w.heard
    decreases |ps|
  {
    if ps == [] {
      assert w.sent + [] == w.sent;
    } else {
      SendGood(env, v, w, ps[0]);
      var w1 := Send(env, v, w, ps[0]).1;
      SendAllGood(env, v, w1, ps[1..]);
      Assoc(w.sent, [Sent(w.state, w.threshold, ps[0])], Stamp(w.state, w.threshold, ps[1..]));
    }
  }

  lemma {:induction false} ReplySendable(env: Env, cfg: Config, w: World)
    requires WellFormed(env.defs, cfg.version) && cfg.version >= V1_20_2 && w.state == Configuration
    requires Hear(env, cfg.version, w).0.Got?
    ensures AllSendable(env, cfg.version, Configuration, Reply(cfg, Hear(env, cfg.version, w).0.packet))
  {
    var p := Hear(env, cfg.version, w).0.packet;
    var k := HearListed(env, cfg.version, w);
    OnlyKind(p, k);
    ReplyKinds(cfg, p);
  }

  /** The types a reply is made of. */
  lemma {:induction false} ReplyKinds(cfg: Config, p: Packet)
    ensures forall q :: q in Reply(cfg, p) ==>
              || KindOf(q).SConfigKeepAlive? || KindOf(q).SCustomPayload? || KindOf(q).SFinishConfiguration?
              || (KindOf(q).SSelectKnownPacks? && p.ClientboundSelectKnownPacks?)
              || (KindOf(q).SCookieResponse? && p.ClientboundCookieRequest?)
  {
  }

  // ---------------------------------------------------------------- the configuration phase

  /** The packets sent in answer to one read. */
  function ReplyTo(cfg: Config, x: Heard): seq<Sent>
  {
    if x.state == Configuration && x.outcome.Got?
    then Stamp(Configuration, x.threshold, Reply(cfg, x.outcome.packet)) else []
  }

  /** The answers to everything heard, in order. */
  function Replies(cfg: Config, heard: seq<Heard>): seq<Sent>
  {
    if heard == [] then [] else Replies(cfg, heard[..|heard| - 1]) + ReplyTo(cfg, heard[|heard| - 1])
  }

  lemma {:induction false} RepliesSnoc(cfg: Config, heard: seq<Heard>, x: Heard)
    ensures Replies(cfg, heard + [x]) == Replies(cfg, heard) + ReplyTo(cfg, x)
  {
    assert (heard + [x])[..|heard + [x]| - 1] == heard;
  }

  predicate IsFinish(x: Heard) { x.state == Configuration && x.outcome.Got? && x.outcome.packet.ClientboundFinishConfiguration? }

  /** Everything sent is `first` followed by the answers to everything heard. */
  ghost predicate Traced(cfg: Config, first: seq<Sent>, w: World) { w.sent == first + Replies(cfg, w.heard) }

  lemma {:induction false} TracedStep(cfg: Config, first: seq<Sent>, heard: seq<Heard>, x: Heard)
    ensures (first + Replies(cfg, heard)) + ReplyTo(cfg, x) == first + Replies(cfg, heard + [x])
  {
    RepliesSnoc(cfg, heard, x);
  }

  /** What is known inside the configuration loop. */
  ghost predicate Configuring(env: Env, cfg: Config, first: seq<Sent>, w: World)
  {
    && WellFormed(env.defs, cfg.version) && cfg.version >= V1_20_2
    && Good(env, cfg.version, w) && w.state == Configuration
    && Traced(cfg, first, w) && Count(IsFinish, w.heard) == 0
  }

  /** What a turn must come to: round again in the same situation, in play after the only finish
      packet, or an error. */
  ghost predicate ConfigurationOutcome(env: Env, cfg: Config, first: seq<Sent>, threshold: int, t: Turn)
  {
    && Good(env, cfg.version, t.world) && Traced(cfg, first, t.world) && t.world.threshold == threshold
    && if t.Return? && t.verdict == Nil then t.world.state == Play && Count(IsFinish, t.world.heard) == 1
       else t.world.state == Configuration && Count(IsFinish, t.world.heard) == 0
  }

  /** Sending the answers keeps the trace a trace. */
  lemma {:induction false} AnswersTraced(env: Env, cfg: Config, first: seq<Sent>, w: World, p: Packet, before: seq<Heard>)
    requires Good(env, cfg.version, w) && w.state == Configuration
    requires w.heard == before + [Heard(Configuration, w.threshold, Got(p))] && w.sent == first + Replies(cfg, before)
    requires Count(IsFinish, before) == 0 && AllSendable(env, cfg.version, Configuration, Reply(cfg, p))
    ensures var (ok, w1) := SendAll(env, cfg.version, w, Reply(cfg, p));
            && ok && Good(env, cfg.version, w1) && SameMode(w, w1) && Traced(cfg, first, w1)
            && Count(IsFinish, w1.heard) == if p.ClientboundFinishConfiguration? then 1 else 0
  {
    var x := Heard(Configuration, w.threshold, Got(p));
    SendAllGood(env, cfg.version, w, Reply(cfg, p));
    TracedStep(cfg, first, before, x);
    CountSnoc(IsFinish, before, x);
  }

  /** The finish packet, answered, leads to play. */
  lemma {:induction false} FinishGood(env: Env, cfg: Config, first: seq<Sent>, w: World)
    requires Good(env, cfg.version, w) && w.state == Configuration && cfg.version >= V1_20_2
    requires Traced(cfg, first, w) && Count(IsFinish, w.heard) == 1
    ensures ConfigurationOutcome(env, cfg, first, w.threshold, Return(Nil, SetState(w, Play)))
  {
    assert w.states == [Handshaking, Login, Configuration];
    SetStateGood(env, cfg.version, w, Play);
  }

  lemma {:induction false} AnsweredGood(env: Env, cfg: Config, first: seq<Sent>, w: World, p: Packet, before: seq<Heard>)
    requires Good(env, cfg.version, w) && w.state == Configuration && cfg.version >= V1_20_2
    requires w.heard == before + [Heard(Configuration, w.threshold, Got(p))] && w.sent == first + Replies(cfg, before)
    requires Count(IsFinish, before) == 0 && AllSendable(env, cfg.version, Configuration, Reply(cfg, p))
    ensures ConfigurationOutcome(env, cfg, first, w.threshold, Answered(env, cfg, w, p))
  {
    var (ok, w1) := SendAll(env, cfg.version, w, Reply(cfg, p));
    AnswersTraced(env, cfg, first, w, p, before);
    if p.ClientboundFinishConfiguration? {
      FinishGood(env, cfg, first, w1);
    }
    assert Answered(env, cfg, w, p) ==
      if p.ClientboundDisconnect? then Return(Error, w1)
      else if p.ClientboundFinishConfiguration? then Return(Nil, SetState(w1, Play)) else Again(w1);
  }

  lemma {:induction false} ConfigurationReactionGood(env: Env, cfg: Config, first: seq<Sent>, w: World, o: Outcome, before: seq<Heard>)
    requires Good(env, cfg.version, w) && w.state == Configuration && cfg.version >= V1_20_2
    requires w.heard == before + [Heard(Configuration, w.threshold, o)] && w.sent == first + Replies(cfg, before)
    requires Count(IsFinish, before) == 0
    requires o.Got? ==> AllSendable(env, cfg.version, Configuration, Reply(cfg, o.packet))
    ensures ConfigurationOutcome(env, cfg, first, w.threshold, ConfigurationReaction(env, cfg, w, o))
  {
    var x := Heard(Configuration, w.threshold, o);
    if o.Got? {
      AnsweredGood(env, cfg, first, w, o.packet, before);
    } else {
      CountSnoc(IsFinish, before, x);
      TracedStep(cfg, first, before, x);
      assert ReplyTo(cfg, x) == [];
      assert w.sent == w.sent + [];
    }
  }

  lemma {:induction false} ConfigurationTurnGood(env: Env, cfg: Config, first: seq<Sent>, w: World)
    requires Configuring(env, cfg, first, w)
    ensures ConfigurationOutcome(env, cfg, first, w.threshold, ConfigurationTurn(env, cfg, w))
  {
    var (o, w1) := Hear(env, cfg.version, w);
    HearGood(env, cfg.version, w);
    if o.Got? {
      ReplySendable(env, cfg, w);
    }
    ConfigurationReactionGood(env, cfg, first, w1, o, w.heard);
  }

  lemma {:induction false} ConfigurationLoopGood(env: Env, cfg: Config, first: seq<Sent>, w: World)
    requires Configuring(env, cfg, first, w)
    ensures var (r, w1) := ConfigurationLoop(env, cfg, w);
            ConfigurationOutcome(env, cfg, first, w.threshold, Return(r, w1))
    decreases |w.input|
  {
    ConfigurationTurnGood(env, cfg, first, w);
    var t := ConfigurationTurn(env, cfg, w);
    if t.Again? {
      ConfigurationLoopGood(env, cfg, first, t.world);
    }
  }

  // ---------------------------------------------------------------- the login phase

  /** Before configuration nothing heard has an answer in it. */
  lemma {:induction false} NoRepliesYet(cfg: Config, heard: seq<Heard>)
    requires forall x :: x in heard ==> x.state != Configuration
    ensures Replies(cfg, heard) == [] && Count(IsFinish, heard) == 0
  {
    if heard != [] {
      var init := heard[..|heard| - 1];
      assert forall x :: x in init ==> x in heard;
      NoRepliesYet(cfg, init);
    }
  }

  /** The login packets, the acknowledgement and the settings, in that order. */
  function Entry(cfg: Config, login: seq<Sent>, threshold: int): seq<Sent>
  {
    (login + [Sent(Login, threshold, ServerboundLoginAcknowledged)])
    + [Sent(Configuration, threshold, ServerboundClientSettings(cfg.settings))]
  }

  /** What Join sends after the login packets, by the state it got to. */
  ghost predicate AfterLogin(cfg: Config, login: seq<Sent>, w: World)
  {
    if w.state == Login then w.sent == login
    else if cfg.version < V1_20_2 then
      w.state == Play && w.sent == login + [Sent(Play, w.threshold, ServerboundClientSettings(cfg.settings))]
    else
      && (w.state == Configuration || w.state == Play)
      && w.sent == Entry(cfg, login, w.threshold) + Replies(cfg, w.heard)
      && Count(IsFinish, w.heard) == if w.state == Play then 1 else 0
  }

  /** The acknowledgement and the settings, in that order, lead into the configuration loop. */
  lemma {:induction false} SettingsGood(env: Env, cfg: Config, before: seq<Sent>, w: World)
    requires WellFormed(env.defs, cfg.version) && cfg.version >= V1_20_2
    requires Good(env, cfg.version, w) && w.state == Configuration && w.sent == before
    requires forall x :: x in w.heard ==> x.state != Configuration
    ensures var (r, w1) := HandleConfiguration(env, cfg, w);
            ConfigurationOutcome(env, cfg,
              before + [Sent(Configuration, w.threshold, ServerboundClientSettings(cfg.settings))], w.threshold, Return(r, w1))
  {
    var settings := ServerboundClientSettings(cfg.settings);
    var first := before + [Sent(Configuration, w.threshold, settings)];
    SendGood(env, cfg.version, w, settings);
    var w1 := Send(env, cfg.version, w, settings).1;
    assert Traced(cfg, first, w1) && Count(IsFinish, w1.heard) == 0 by {
      NoRepliesYet(cfg, w.heard);
      assert w1.sent == first + [];
    }
    ConfigurationLoopGood(env, cfg, first, w1);
  }

  /** Configuration is entered from login, before anything was read in it. */
  lemma {:induction false} EntersConfiguration(env: Env, v: int, w: World)
    requires Good(env, v, w) && w.state == Login && v >= V1_20_2
    ensures Good(env, v, SetState(w, Configuration))
    ensures forall x :: x in w.heard ==> x.state != Configuration
  {
    assert w.states == [Handshaking, Login];
    SetStateGood(env, v, w, Configuration);
  }

  /** The acknowledgement leads into configuration. */
  lemma {:induction false} AcknowledgedGood(env: Env, cfg: Config, w: World)
    requires WellFormed(env.defs, cfg.version) && Good(env, cfg.version, w) && w.state == Login && cfg.version >= V1_20_2
    ensures var (ok, w1) := Send(env, cfg.version, w, ServerboundLoginAcknowledged);
            var w2 := SetState(w1, Configuration);
            && ok && Good(env, cfg.version, w2) && w2.state == Configuration && w2.threshold == w.threshold
            && w2.sent == w.sent + [Sent(Login, w.threshold, ServerboundLoginAcknowledged)]
            && forall x :: x in w2.heard ==> x.state != Configuration
  {
    SendGood(env, cfg.version, w, ServerboundLoginAcknowledged);
    EntersConfiguration(env, cfg.version, Send(env, cfg.version, w, ServerboundLoginAcknowledged).1);
  }

  lemma {:induction false} AcceptedGood(env: Env, cfg: Config, login: seq<Sent>, w: World)
    requires WellFormed(env.defs, cfg.version) && Good(env, cfg.version, w) && w.state == Login && w.sent == login
    requires cfg.version >= V1_20_2
    ensures var (r, w1) := LoggedIn(env, cfg, w);
            ConfigurationOutcome(env, cfg, Entry(cfg, login, w.threshold), w.threshold, Return(r, w1))
  {
    AcknowledgedGood(env, cfg, w);
    var w2 := SetState(Send(env, cfg.version, w, ServerboundLoginAcknowledged).1, Configuration);
    SettingsGood(env, cfg, w2.sent, w2);
  }

  lemma {:induction false} LoggedInGood(env: Env, cfg: Config, login: seq<Sent>, w: World)
    requires WellFormed(env.defs, cfg.version) && Good(env, cfg.version, w) && w.state == Login && w.sent == login
    ensures var (r, w1) := LoggedIn(env, cfg, w);
            && Good(env, cfg.version, w1) && AfterLogin(cfg, login, w1) && w1.threshold == w.threshold
            && (r == Nil <==> w1.state == Play)
  {
    if cfg.version >= V1_20_2 {
      AcceptedGood(env, cfg, login, w);
    } else {
      assert w.states == [Handshaking, Login];
      SetStateGood(env, cfg.version, w, Play);
      SendGood(env, cfg.version, SetState(w, Play), ServerboundClientSettings(cfg.settings));
    }
  }

  /** What a turn of the login loop must come to. */
  ghost predicate LoginOutcome(env: Env, cfg: Config, login: seq<Sent>, t: Turn)
  {
    && Good(env, cfg.version, t.world)
    && if t.Again? then t.world.state == Login && t.world.sent == login
       else AfterLogin(cfg, login, t.world) && (t.verdict == Nil <==> t.world.state == Play)
  }

  lemma {:induction false} LoginSuccessGood(env: Env, cfg: Config, login: seq<Sent>, w: World, p: Packet)
    requires WellFormed(env.defs, cfg.version) && w.state == Login && w.sent == login
    requires p.ClientboundLoginSuccess? && Good(env, cfg.version, w)
    ensures LoginOutcome(env, cfg, login, LoginPacket(env, cfg, w, p))
  {
    LoggedInGood(env, cfg, login, w);
    var (r, w1) := LoggedIn(env, cfg, w);
    assert LoginPacket(env, cfg, w, p) == Return(r, w1);
  }

  lemma {:induction false} LoginOtherGood(env: Env, cfg: Config, login: seq<Sent>, w: World, p: Packet)
    requires w.state == Login && w.sent == login && !p.ClientboundLoginSuccess?
    requires !p.ClientboundJoinGame? && !p.ClientboundKeepAlive?
    requires Good(env, cfg.version, if p.ClientboundSetCompression? then w.(threshold := p.threshold) else w)
    ensures LoginOutcome(env, cfg, login, LoginPacket(env, cfg, w, p))
  {
    assert LoginPacket(env, cfg, w, p) ==
      if p.ClientboundSetCompression? then Again(w.(threshold := p.threshold))
      else if p.ClientboundDisconnect? then Return(Error, w) else Again(w);
  }

  lemma {:induction false} LoginPacketGood(env: Env, cfg: Config, login: seq<Sent>, w: World, p: Packet)
    requires WellFormed(env.defs, cfg.version) && w.state == Login && w.sent == login
    requires !p.ClientboundJoinGame? && !p.ClientboundKeepAlive?
    requires Good(env, cfg.version, if p.ClientboundSetCompression? then w.(threshold := p.threshold) else w)
    ensures LoginOutcome(env, cfg, login, LoginPacket(env, cfg, w, p))
  {
    if p.ClientboundLoginSuccess? {
      LoginSuccessGood(env, cfg, login, w, p);
    } else {
      LoginOtherGood(env, cfg, login, w, p);
    }
  }

  lemma {:induction false} LoginReactionGood(env: Env, cfg: Config, login: seq<Sent>, w: World, o: Outcome)
    requires WellFormed(env.defs, cfg.version) && w.state == Login && w.sent == login
    requires o.Got? ==> !o.packet.ClientboundJoinGame? && !o.packet.ClientboundKeepAlive?
    requires Good(env, cfg.version,
               if o.Got? && o.packet.ClientboundSetCompression? then w.(threshold := o.packet.threshold) else w)
    ensures LoginOutcome(env, cfg, login, LoginReaction(env, cfg, w, o))
  {
    if o.Got? {
      LoginPacketGood(env, cfg, login, w, o.packet);
    }
  }

  lemma {:induction false} LoginTurnGood(env: Env, cfg: Config, login: seq<Sent>, w: World)
    requires WellFormed(env.defs, cfg.version) && Good(env, cfg.version, w) && w.state == Login && w.sent == login
    ensures LoginOutcome(env, cfg, login, LoginTurn(env, cfg, w))
  {
    var (o, w1) := Hear(env, cfg.version, w);
    HearGood(env, cfg.version, w);
    if o.Got? {
      HearQuiet(env, cfg.version, w);
    }
    LoginReactionGood(env, cfg, login, w1, o);
  }

  lemma {:induction false} LoginLoopGood(env: Env, cfg: Config, login: seq<Sent>, w: World)
    requires WellFormed(env.defs, cfg.version) && Good(env, cfg.version, w) && w.state == Login && w.sent == login
    ensures var (r, w1) := LoginLoop(env, cfg, w);
            && Good(env, cfg.version, w1) && AfterLogin(cfg, login, w1) && (r == Nil <==> w1.state == Play)
    decreases |w.input|
  {
    LoginTurnGood(env, cfg, login, w);
    var t := LoginTurn(env, cfg, w);
    if t.Again? {
      LoginLoopGood(env, cfg, login, t.world);
    }
  }

  // ---------------------------------------------------------------- the bytes on the wire

  /** The laid-out body of a packet given to WritePacket; none when it has no ID. */
  function BodyOf(env: Env, v: int, x: Sent): Option<bytes>
  {
    var id := IdFor(env.defs, v, Slot(x.state, Serverbound), KindOf(x.packet));
    if id.None? || !Encodable(x.packet) then None else Some(Body(env.z, x.threshold, Payload(id.value, x.packet, v)))
  }

  function BodiesOf(env: Env, v: int, sent: seq<Sent>): seq<bytes> { Collect((x: Sent) => BodyOf(env, v, x), sent) }

  lemma {:induction false} MappedBody(env: Env, v: int, x: Sent)
    requires Mapped(env, v, x)
    ensures BodyOf(env, v, x).Some?
  {
  }

  /** When everything sent is mapped there is one body for each packet, in the order of the packets. */
  lemma {:induction false} BodyAt(env: Env, v: int, sent: seq<Sent>)
    requires AllMapped(env, v, sent)
    ensures |BodiesOf(env, v, sent)| == |sent|
    ensures forall i :: 0 <= i < |sent| ==> Some(BodiesOf(env, v, sent)[i]) == BodyOf(env, v, sent[i])
  {
    var f := (x: Sent) => BodyOf(env, v, x);
    forall x | x in sent
      ensures f(x).Some?
    {
      assert Mapped(env, v, x);
      MappedBody(env, v, x);
    }
    CollectAll(f, sent);
  }

  lemma {:induction false} JoinedSnoc(bodies: seq<bytes>, b: bytes)
    ensures Joined(bodies + [b]) == Joined(bodies) + EncBytes(b)
  {
    if bodies == [] {
      assert ([] + [b])[1..] == [];
      assert Joined([b]) == EncBytes(b) + Joined([]);
    } else {
      JoinedSnoc(bodies[1..], b);
      assert (bodies + [b])[1..] == bodies[1..] + [b];
      Append2(EncBytes(bodies[0]), Joined(bodies[1..]), EncBytes(b));
    }
  }

  /** The output of a run is the frames of the packets sent, in order and with nothing between. */
  lemma {:induction false} OutputIsFrames(env: Env, v: int, sent: seq<Sent>)
    ensures Output(env, v, sent) == Joined(BodiesOf(env, v, sent))
  {
    if sent != [] {
      var init := sent[..|sent| - 1];
      OutputIsFrames(env, v, init);
      OneMoreFrame(env, v, BodiesOf(env, v, init), sent[|sent| - 1]);
    }
  }

  lemma {:induction false} OneMoreFrame(env: Env, v: int, bodies: seq<bytes>, x: Sent)
    ensures Joined(bodies + Listed(BodyOf(env, v, x))) == Joined(bodies) + SentBytes(env, v, x)
  {
    var body := BodyOf(env, v, x);
    if body == None {
      assert bodies + [] == bodies && Joined(bodies) + [] == Joined(bodies);
    } else {
      JoinedSnoc(bodies, body.value);
    }
  }

  // ---------------------------------------------------------------- every run of Join

  function HandshakeSent(env: Env, cfg: Config): Sent
    requires Nearest(env.defs, cfg.version).Some?
  {
    Sent(Handshaking, -1, ServerboundHandshake(
      Nearest(env.defs, cfg.version).value.protocol, cfg.host, cfg.port, StateNumber(Login)))
  }

  function LoginStartSent(env: Env, cfg: Config): Sent
  {
    Sent(Login, -1, ServerboundLoginStart(cfg.username, LoginUUID(env, cfg)))
  }

  /** What Join sends as login start, a server of the same version reads back: the name, and from
      1.19.2 on a UUID, which is never nil. */
  lemma {:induction false} LoginStartRead(env: Env, cfg: Config)
    requires env.Lawful() && Bounded(cfg.username)
    ensures var uuid := LoginUUID(env, cfg);
            && (cfg.version >= V1_19_2 ==> uuid != NIL_UUID)
            && (cfg.uuid != NIL_UUID ==> uuid == cfg.uuid)
            && PacketLaws.DecLoginStart(cfg.version, EncLoginStart(cfg.username, uuid, cfg.version))
               == Ok((cfg.username, if cfg.version >= V1_19_2 then Some(uuid) else None), [])
  {
    var hash := env.sha1(OFFLINE_PREFIX + cfg.username);
    PacketLaws.OfflineUUIDBits(hash);
    PacketLaws.LoginStartRoundTrip(cfg.username, LoginUUID(env, cfg), cfg.version);
  }

  /** A connection that has just entered login. */
  predicate EntersLogin(w: World, input: bytes)
  {
    w.heard == [] && w.input == input && w.state == Login && w.threshold == -1
  }

  /** Join is handshake, login start and then the login loop, or gives up before it reads anything. */
  lemma {:induction false} JoinStarts(env: Env, cfg: Config, input: bytes) returns (w: World)
    ensures Join(env, cfg, input).1.heard != [] || Join(env, cfg, input).0 == Nil ==>
              EntersLogin(w, input) && Join(env, cfg, input) == LoginLoop(env, cfg, w)
  {
    var (v1, w1) := SendHandshake(env, cfg, Fresh(input), Login);
    var (v2, w2) := SendLogin(env, cfg, SetState(w1, Login));
    w := w2;
  }

  /** The handshake goes out, and leads to the login start. */
  lemma {:induction false} HandshakeGood(env: Env, cfg: Config, input: bytes) returns (w: World)
    requires WellFormed(env.defs, cfg.version)
    ensures Nearest(env.defs, cfg.version).Some?
    ensures Good(env, cfg.version, w) && w.state == Login && w.threshold == -1
    ensures w.sent == [HandshakeSent(env, cfg)] && w.heard == [] && w.input == input
    ensures Join(env, cfg, input) ==
              var (r, w1) := SendLogin(env, cfg, w); if r != Nil then (r, w1) else LoginLoop(env, cfg, w1)
  {
    var handshake := HandshakeSent(env, cfg).packet;
    FreshGood(env, cfg.version, input);
    SendGood(env, cfg.version, Fresh(input), handshake);
    var w1 := Send(env, cfg.version, Fresh(input), handshake).1;
    assert w1.sent == [HandshakeSent(env, cfg)];
    SetStateGood(env, cfg.version, w1, Login);
    w := SetState(w1, Login);
  }

  /** The invariant at the end of Join, whatever the server sends. */
  lemma {:induction false} JoinGood(env: Env, cfg: Config, input: bytes)
    requires WellFormed(env.defs, cfg.version)
    ensures var (r, w) := Join(env, cfg, input);
            && Good(env, cfg.version, w) && (r == Nil <==> w.state == Play)
            && Nearest(env.defs, cfg.version).Some?
            && if cfg.username == [] then r == Error && w.state == Login && w.sent == [HandshakeSent(env, cfg)]
               else AfterLogin(cfg, [HandshakeSent(env, cfg), LoginStartSent(env, cfg)], w)
  {
    var w := HandshakeGood(env, cfg, input);
    if cfg.username != [] {
      StartGood(env, cfg, w, [HandshakeSent(env, cfg)]);
      assert [HandshakeSent(env, cfg)] + [LoginStartSent(env, cfg)] == [HandshakeSent(env, cfg), LoginStartSent(env, cfg)];
    }
  }

  /** The login start, and the login loop behind it. */
  lemma {:induction false} StartGood(env: Env, cfg: Config, w: World, before: seq<Sent>)
    requires WellFormed(env.defs, cfg.version) && Good(env, cfg.version, w) && cfg.username != []
    requires w.state == Login && w.threshold == -1 && w.sent == before
    ensures SendLogin(env, cfg, w).0 == Nil
    ensures var (r, w1) := LoginLoop(env, cfg, SendLogin(env, cfg, w).1);
            && Good(env, cfg.version, w1) && AfterLogin(cfg, before + [LoginStartSent(env, cfg)], w1) && (r == Nil <==> w1.state == Play)
  {
    var start := LoginStartSent(env, cfg).packet;
    SendGood(env, cfg.version, w, start);
    LoginLoopGood(env, cfg, before + [LoginStartSent(env, cfg)], Send(env, cfg.version, w, start).1);
  }

  /** With the shipped registry, for every version from the first on: no packet Join gives to
      WritePacket lacks an ID in the state of that moment. */
  lemma {:induction false} NoUnmappedSend(env: Env, cfg: Config, input: bytes)
    requires env.defs == GeneratedDefs() && cfg.version >= FIRST
    ensures forall x :: x in Join(env, cfg, input).1.sent ==> CanSend(env.defs, cfg.version, x.state, KindOf(x.packet))
  {
    GeneratedWellFormed(cfg.version);
    JoinGood(env, cfg, input);
  }

  /** States only move along the path; nil means play; join-game never arrives during login, so the
      early return for it is never taken. */
  lemma {:induction false} JoinStates(env: Env, cfg: Config, input: bytes)
    requires WellFormed(env.defs, cfg.version)
    ensures var (r, w) := Join(env, cfg, input);
            && OnPath(cfg.version, w.states) && w.state == w.states[|w.states| - 1]
            && (r == Nil <==> w.state == Play)
            && forall x :: x in w.heard && x.state == Login && x.outcome.Got? ==> !x.outcome.packet.ClientboundJoinGame?
  {
    JoinGood(env, cfg, input);
  }

  /** The threshold in the end is the last one received during login, or -1, and it is the one that
      everything after login was sent and received under. */
  lemma {:induction false} JoinThreshold(env: Env, cfg: Config, input: bytes)
    requires WellFormed(env.defs, cfg.version)
    ensures var w := Join(env, cfg, input).1; w.threshold == LastThreshold(w.heard) && Settled(w)
  {
    JoinGood(env, cfg, input);
  }

  /** The packets of a run that got past login: handshake, login start, from 1.20.2 on the
      acknowledgement, settings, and then the answers to what was heard, in order. */
  lemma {:induction false} JoinTrace(env: Env, cfg: Config, input: bytes)
    requires WellFormed(env.defs, cfg.version)
    ensures Nearest(env.defs, cfg.version).Some?
    ensures var w := Join(env, cfg, input).1;
            var login := [HandshakeSent(env, cfg), LoginStartSent(env, cfg)];
            w.state != Login ==>
              w.sent == if cfg.version >= V1_20_2 then Entry(cfg, login, w.threshold) + Replies(cfg, w.heard)
                        else login + [Sent(Play, w.threshold, ServerboundClientSettings(cfg.settings))]
  {
    JoinGood(env, cfg, input);
  }

  // ---------------------------------------------------------------- consequences of the trace

  function KeepAliveSent(x: Sent): Option<int64>
  {
    if x.packet.ServerboundConfigKeepAlive? then Some(x.packet.id) else None
  }

  function KeepAliveHeard(x: Heard): Option<int64>
  {
    if x.state == Configuration && x.outcome.Got? && x.outcome.packet.ClientboundConfigKeepAlive?
    then Some(x.outcome.packet.id) else None
  }

  predicate IsFinishSent(x: Sent) { x.packet.ServerboundFinishConfiguration? }

  predicate IsKnownPacks(x: Heard) { x.state == Configuration && x.outcome.Got? && x.outcome.packet.ClientboundSelectKnownPacks? }

  lemma {:induction false} StampShort(state: State, threshold: int, ps: seq<Packet>)
    ensures |ps| == 1 ==> Stamp(state, threshold, ps) == [Sent(state, threshold, ps[0])]
    ensures |ps| == 2 ==> Stamp(state, threshold, ps) == [Sent(state, threshold, ps[0]), Sent(state, threshold, ps[1])]
  {
    if |ps| == 2 {
      assert Stamp(state, threshold, ps[1..]) == [Sent(state, threshold, ps[1])] + Stamp(state, threshold, ps[1..][1..]);
    }
  }

  /** Of one reply: the keep-alive it echoes, and whether it finishes configuration. */
  lemma {:induction false} ReplyParts(cfg: Config, x: Heard)
    ensures Collect(KeepAliveSent, ReplyTo(cfg, x)) == Listed(KeepAliveHeard(x))
    ensures Count(IsFinishSent, ReplyTo(cfg, x)) ==
      if (if cfg.version >= V1_21_3 then IsKnownPacks(x) else IsFinish(x)) then 1 else 0
  {
    if x.state == Configuration && x.outcome.Got? {
      var ps := Reply(cfg, x.outcome.packet);
      StampShort(Configuration, x.threshold, ps);
      if ps != [] {
        var a := Sent(Configuration, x.threshold, ps[0]);
        var b := Sent(Configuration, x.threshold, ps[|ps| - 1]);
        CollectShort(KeepAliveSent, a, b);
        CountShort(IsFinishSent, a, b);
      }
    }
  }

  lemma {:induction false} RepliesParts(cfg: Config, heard: seq<Heard>)
    ensures Collect(KeepAliveSent, Replies(cfg, heard)) == Collect(KeepAliveHeard, heard)
    ensures Count(IsFinishSent, Replies(cfg, heard)) ==
      if cfg.version >= V1_21_3 then Count(IsKnownPacks, heard) else Count(IsFinish, heard)
  {
    if heard != [] {
      var init := heard[..|heard| - 1];
      var x := heard[|heard| - 1];
      RepliesParts(cfg, init);
      ReplyParts(cfg, x);
      CollectAppend(KeepAliveSent, Replies(cfg, init), ReplyTo(cfg, x));
      CountAppend(IsFinishSent, Replies(cfg, init), ReplyTo(cfg, x));
    }
  }

  /** On every run that got past login, the configuration keep-alives are echoed in order, and
      finish-configuration is sent once for each known-packs request from 1.21.3 on; before that,
      once on success and otherwise not at all. */
  lemma {:induction false} JoinAnswers(env: Env, cfg: Config, input: bytes)
    requires WellFormed(env.defs, cfg.version)
    ensures var (r, w) := Join(env, cfg, input);
            cfg.version >= V1_20_2 && w.state != Login ==>
              && Collect(KeepAliveSent, w.sent) == Collect(KeepAliveHeard, w.heard)
              && Count(IsFinishSent, w.sent) ==
                   if cfg.version >= V1_21_3 then Count(IsKnownPacks, w.heard) else if r == Nil then 1 else 0
  {
    JoinGood(env, cfg, input);
    var login := [HandshakeSent(env, cfg), LoginStartSent(env, cfg)];
    assert forall x :: x in login ==> KeepAliveSent(x) == None && !IsFinishSent(x);
    var (r, w) := Join(env, cfg, input);
    if cfg.version >= V1_20_2 && w.state != Login {
      AfterLoginAnswers(cfg, login, r, w);
    }
  }

  lemma {:induction false} AfterLoginAnswers(cfg: Config, login: seq<Sent>, r: Verdict, w: World)
    requires AfterLogin(cfg, login, w) && w.state != Login && cfg.version >= V1_20_2 && (r == Nil <==> w.state == Play)
    requires forall x :: x in login ==> KeepAliveSent(x) == None && !IsFinishSent(x)
    ensures Collect(KeepAliveSent, w.sent) == Collect(KeepAliveHeard, w.heard)
    ensures Count(IsFinishSent, w.sent) ==
      if cfg.version >= V1_21_3 then Count(IsKnownPacks, w.heard) else if r == Nil then 1 else 0
  {
    TracedAnswers(cfg, login, w);
  }

  lemma {:induction false} TracedAnswers(cfg: Config, login: seq<Sent>, w: World)
    requires w.sent == Entry(cfg, login, w.threshold) + Replies(cfg, w.heard)
    requires forall x :: x in login ==> KeepAliveSent(x) == None && !IsFinishSent(x)
    ensures Collect(KeepAliveSent, w.sent) == Collect(KeepAliveHeard, w.heard)
    ensures Count(IsFinishSent, w.sent) ==
      if cfg.version >= V1_21_3 then Count(IsKnownPacks, w.heard) else Count(IsFinish, w.heard)
  {
    EntryQuiet(cfg, login, w.threshold);
    RepliesParts(cfg, w.heard);
    QuietThen(Entry(cfg, login, w.threshold), Replies(cfg, w.heard));
  }

  lemma {:induction false} QuietThen(entry: seq<Sent>, replies: seq<Sent>)
    requires Collect(KeepAliveSent, entry) == [] && Count(IsFinishSent, entry) == 0
    ensures Collect(KeepAliveSent, entry + replies) == Collect(KeepAliveSent, replies)
    ensures Count(IsFinishSent, entry + replies) == Count(IsFinishSent, replies)
  {
    CollectAppend(KeepAliveSent, entry, replies);
    CountAppend(IsFinishSent, entry, replies);
    assert [] + Collect(KeepAliveSent, replies) == Collect(KeepAliveSent, replies);
  }

  lemma {:induction false} EntryQuiet(cfg: Config, login: seq<Sent>, threshold: int)
    requires forall x :: x in login ==> KeepAliveSent(x) == None && !IsFinishSent(x)
    ensures Collect(KeepAliveSent, Entry(cfg, login, threshold)) == [] && Count(IsFinishSent, Entry(cfg, login, threshold)) == 0
  {
    var ack := Sent(Login, threshold, ServerboundLoginAcknowledged);
    var settings := Sent(Configuration, threshold, ServerboundClientSettings(cfg.settings));
    assert KeepAliveSent(ack) == None && !IsFinishSent(ack);
    assert KeepAliveSent(settings) == None && !IsFinishSent(settings);
    var entry := (login + [ack]) + [settings];
    forall x | x in entry
      ensures KeepAliveSent(x) == None && !IsFinishSent(x)
    {
      assert x in login || x == ack || x == settings;
    }
    NothingCounted(entry);
  }

  lemma {:induction false} NothingCounted(xs: seq<Sent>)
    requires forall x :: x in xs ==> KeepAliveSent(x) == None && !IsFinishSent(x)
    ensures Collect(KeepAliveSent, xs) == [] && Count(IsFinishSent, xs) == 0
  {
    if xs != [] {
      var init := xs[..|xs| - 1];
      assert forall x :: x in init ==> x in xs;
      NothingCounted(init);
    }
  }

  /** A server that cuts the client's bytes into frames gets the packets sent, one by one: if no
      body is too long for an int32 length. */
  lemma {:induction false} ServerCutsOutput(env: Env, cfg: Config, input: bytes, later: bytes)
    requires WellFormed(env.defs, cfg.version)
    ensures var w := Join(env, cfg, input).1;
            var bodies := BodiesOf(env, cfg.version, w.sent);
            && |bodies| == |w.sent|
            && ((forall b :: b in bodies ==> |b| < TWO31) ==> StartsWith(Output(env, cfg.version, w.sent) + later, bodies))
  {
    JoinGood(env, cfg, input);
    var w := Join(env, cfg, input).1;
    BodyAt(env, cfg.version, w.sent);
    OutputIsFrames(env, cfg.version, w.sent);
    if forall b :: b in BodiesOf(env, cfg.version, w.sent) ==> |b| < TWO31 {
      JoinedCuts(BodiesOf(env, cfg.version, w.sent), later);
    }
  }

  /** And opening the i-th body under the threshold of that moment gives the ID and the fields of the
      i-th packet sent. */
  lemma {:induction false} ServerOpensOutput(env: Env, cfg: Config, input: bytes, i: nat)
    requires env.z.Lawful() && WellFormed(env.defs, cfg.version) && i < |Join(env, cfg, input).1.sent|
    ensures var w := Join(env, cfg, input).1;
            var bodies := BodiesOf(env, cfg.version, w.sent);
            var x := w.sent[i];
            var id := IdFor(env.defs, cfg.version, Slot(x.state, Serverbound), KindOf(x.packet));
            && |bodies| == |w.sent| && id.Some? && Encodable(x.packet)
            && var payload := Payload(id.value, x.packet, cfg.version);
               |payload| < TWO31 ==> Open(env.z, x.threshold, bodies[i]) == Stream(payload, true)
  {
    JoinGood(env, cfg, input);
    SentOpens(env, cfg.version, Join(env, cfg, input).1.sent, i);
  }

  lemma {:induction false} SentOpens(env: Env, v: int, sent: seq<Sent>, i: nat)
    requires env.z.Lawful() && AllMapped(env, v, sent) && i < |sent|
    ensures var x := sent[i];
            var id := IdFor(env.defs, v, Slot(x.state, Serverbound), KindOf(x.packet));
            && |BodiesOf(env, v, sent)| == |sent| && id.Some? && Encodable(x.packet)
            && var payload := Payload(id.value, x.packet, v);
               |payload| < TWO31 ==> Open(env.z, x.threshold, BodiesOf(env, v, sent)[i]) == Stream(payload, true)
  {
    var x := sent[i];
    assert Mapped(env, v, x);
    BodyAt(env, v, sent);
    MappedOpens(env, v, x, BodiesOf(env, v, sent)[i]);
  }

  lemma {:induction false} MappedOpens(env: Env, v: int, x: Sent, body: bytes)
    requires env.z.Lawful() && Mapped(env, v, x) && BodyOf(env, v, x) == Some(body)
    ensures var payload := Payload(IdFor(env.defs, v, Slot(x.state, Serverbound), KindOf(x.packet)).value, x.packet, v);
            |payload| < TWO31 ==> Open(env.z, x.threshold, body) == Stream(payload, true)
  {
    var payload := Payload(IdFor(env.defs, v, Slot(x.state, Serverbound), KindOf(x.packet)).value, x.packet, v);
    assert body == Body(env.z, x.threshold, payload);
    if |payload| < TWO31 {
      BodyOpens(env.z, x.threshold, payload);
    }
  }

  // ---------------------------------------------------------------- when the process panics

  /** A payload panics the process if and only if its ID stands for one of the list packets and a count
      in it is negative, or for the one type whose decoder always panics. */
  lemma {:induction false} UnderstandCrashes(defs: Defs, v: int, state: State, data: bytes, clean: bool)
    ensures Understand(defs, v, state, data, clean).Crashed? <==>
      && DecVarInt(data).Ok?
      && var k := KindFor(defs, v, Slot(state, Clientbound), DecVarInt(data).value);
         k.Some? && ((IsList(k.value) && DecodeList(k.value, DecVarInt(data).rest).Panic?) || k.value == SKeepAlive)
  {
    if DecVarInt(data).Ok? {
      var k := KindFor(defs, v, Slot(state, Clientbound), DecVarInt(data).value);
      if k.Some? {
        PacketLaws.PacketPanics(k.value, v, DecVarInt(data).rest, clean);
      }
    }
  }

  predicate EndsCrashed(heard: seq<Heard>) { heard != [] && heard[|heard| - 1].outcome.Crashed? }

  lemma {:induction false} HeardLast(heard: seq<Heard>, x: Heard)
    ensures EndsCrashed(heard + [x]) <==> x.outcome.Crashed?
  {
  }

  lemma {:induction false} AnsweredPanics(env: Env, cfg: Config, w: World, p: Packet)
    ensures var t := Answered(env, cfg, w, p);
            t.world.heard == w.heard && (t.Return? ==> t.verdict != Panicked)
  {
    SendAllKeepsInput(env, cfg.version, w, Reply(cfg, p));
  }

  lemma {:induction false} ConfigurationPanics(env: Env, cfg: Config, w: World)
    ensures var (r, w1) := ConfigurationLoop(env, cfg, w); r == Panicked <==> EndsCrashed(w1.heard)
    decreases |w.input|
  {
    var (o, w1) := Hear(env, cfg.version, w);
    HeardLast(w.heard, Heard(w.state, w.threshold, o));
    var t := ConfigurationTurn(env, cfg, w);
    if o.Got? {
      AnsweredPanics(env, cfg, w1, o.packet);
    }
    if t.Again? {
      ConfigurationPanics(env, cfg, t.world);
    }
  }

  lemma {:induction false} LoggedInPanics(env: Env, cfg: Config, w: World)
    requires !EndsCrashed(w.heard)
    ensures var (r, w1) := LoggedIn(env, cfg, w); r == Panicked <==> EndsCrashed(w1.heard)
  {
    if cfg.version >= V1_20_2 {
      var w1 := SetState(Send(env, cfg.version, w, ServerboundLoginAcknowledged).1, Configuration);
      ConfigurationPanics(env, cfg, Send(env, cfg.version, w1, ServerboundClientSettings(cfg.settings)).1);
    }
  }

  lemma {:induction false} LoginPacketPanics(env: Env, cfg: Config, w: World, p: Packet)
    requires !EndsCrashed(w.heard)
    ensures var t := LoginPacket(env, cfg, w, p);
            t.Return? ==> (t.verdict == Panicked <==> EndsCrashed(t.world.heard))
  {
    if p.ClientboundLoginSuccess? {
      LoggedInPanics(env, cfg, w);
    }
  }

  lemma {:induction false} LoginPanics(env: Env, cfg: Config, w: World)
    ensures var (r, w1) := LoginLoop(env, cfg, w); r == Panicked <==> EndsCrashed(w1.heard)
    decreases |w.input|
  {
    var (o, w1) := Hear(env, cfg.version, w);
    HeardLast(w.heard, Heard(w.state, w.threshold, o));
    var t := LoginTurn(env, cfg, w);
    if o.Got? {
      LoginPacketPanics(env, cfg, w1, o.packet);
    }
    if t.Again? {
      LoginPanics(env, cfg, t.world);
    }
  }

  /** Join panics if and only if the version has no definition at all, or the last thing it read made a
      decoder panic. */
  lemma {:induction false} JoinPanics(env: Env, cfg: Config, input: bytes)
    ensures var (r, w) := Join(env, cfg, input);
            r == Panicked <==> Nearest(env.defs, cfg.version).None? || EndsCrashed(w.heard)
  {
    var (v1, w1) := SendHandshake(env, cfg, Fresh(input), Login);
    if v1 == Nil {
      var (v2, w2) := SendLogin(env, cfg, SetState(w1, Login));
      if v2 == Nil {
        LoginPanics(env, cfg, w2);
      }
    }
  }

  // ---------------------------------------------------------------- every run of GetStatus

  function StatusHandshake(env: Env, cfg: Config): Sent
    requires Nearest(env.defs, cfg.version).Some?
  {
    Sent(Handshaking, -1, ServerboundHandshake(
      Nearest(env.defs, cfg.version).value.protocol, cfg.host, cfg.port, StateNumber(Status)))
  }

  predicate AnswersStatus(x: Heard) { x.outcome.Got? && x.outcome.packet.ClientboundStatusResponse? }

  predicate AnswersPing(x: Heard) { x.outcome.Got? && x.outcome.packet.ClientboundPong? }

  lemma {:induction false} PingTrace(env: Env, cfg: Config, w: World, now: int64)
    requires CanSend(env.defs, cfg.version, w.state, SPing)
    ensures var (r, w1) := Ping(env, cfg, w, now);
            && w1.sent == w.sent + [Sent(w.state, w.threshold, ServerboundPing(now))]
            && |w1.heard| == |w.heard| + 1 && w1.heard[..|w.heard|] == w.heard
            && w1.heard[|w.heard|].state == w.state && w1.heard[|w.heard|].threshold == w.threshold
            && (r == Nil <==> AnswersPing(w1.heard[|w.heard|]))
  {
  }

  /** Handshake and request of a status query. */
  lemma {:induction false} StatusAsked(env: Env, cfg: Config, input: bytes)
    requires WellFormed(env.defs, cfg.version)
    ensures Nearest(env.defs, cfg.version).Some?
    ensures var (v1, w1) := SendHandshake(env, cfg, Fresh(input), Status);
            var (ok, w2) := Send(env, cfg.version, SetState(w1, Status), ServerboundStatusRequest);
            && v1 == Nil && ok && w2.state == Status && w2.threshold == -1 && w2.heard == []
            && w2.sent == [StatusHandshake(env, cfg), Sent(Status, -1, ServerboundStatusRequest)]
  {
    assert [] + [StatusHandshake(env, cfg)] == [StatusHandshake(env, cfg)];
    assert [StatusHandshake(env, cfg)] + [Sent(Status, -1, ServerboundStatusRequest)]
        == [StatusHandshake(env, cfg), Sent(Status, -1, ServerboundStatusRequest)];
  }

  /** One read, and the ping if and only if it was a status response. */
  ghost predicate StatusOutcome(asked: seq<Sent>, now: int64, r: Verdict, w: World)
  {
    && 1 <= |w.heard| <= 2 && (|w.heard| == 2 <==> AnswersStatus(w.heard[0]))
    && w.sent == asked + (if AnswersStatus(w.heard[0]) then [Sent(Status, -1, ServerboundPing(now))] else [])
    && (r == Nil <==> |w.heard| == 2 && AnswersPing(w.heard[1]))
    && forall x :: x in w.heard ==> x.state == Status && x.threshold == -1
  }

  lemma {:induction false} StatusAnswered(env: Env, cfg: Config, w: World, now: int64)
    requires CanSend(env.defs, cfg.version, Status, SPing)
    requires w.state == Status && w.threshold == -1 && w.heard == []
    ensures var (r, w1) := StatusAnswer(env, cfg, w, now); StatusOutcome(w.sent, now, r, w1)
  {
    var (o, w1) := Hear(env, cfg.version, w);
    assert w1.heard == [Heard(Status, -1, o)];
    assert w1.sent + [] == w1.sent;
    if AnswersStatus(w1.heard[0]) {
      PingTrace(env, cfg, w1, now);
    }
  }

  /** A status query sends handshake and request, and the ping if and only if the first answer is a
      status response; it succeeds if and only if the second is a pong. Nothing is sent or received
      compressed. */
  lemma {:induction false} StatusTrace(env: Env, cfg: Config, input: bytes, now: int64)
    requires WellFormed(env.defs, cfg.version)
    ensures Nearest(env.defs, cfg.version).Some?
    ensures var (r, w) := GetStatus(env, cfg, input, now);
            StatusOutcome([StatusHandshake(env, cfg), Sent(Status, -1, ServerboundStatusRequest)], now, r, w)
  {
    StatusAsked(env, cfg, input);
    var w1 := SendHandshake(env, cfg, Fresh(input), Status).1;
    var w2 := Send(env, cfg.version, SetState(w1, Status), ServerboundStatusRequest).1;
    StatusAnswered(env, cfg, w2, now);
  }

  /** What a status query hands back, read off the stream: it succeeds if and only if the first outcome is
      a status response and the next one a pong, and then hands back the response's text; otherwise
      nothing. */
  lemma {:induction false} StatusResult(env: Env, cfg: Config, input: bytes, now: int64)
    requires WellFormed(env.defs, cfg.version)
    ensures var (r, w) := GetStatus(env, cfg, input, now);
            var (first, rest) := Receive(env.z, env.defs, cfg.version, Status, -1, input);
            var second := Receive(env.z, env.defs, cfg.version, Status, -1, rest).0;
            && (r == Nil <==> first.Got? && first.packet.ClientboundStatusResponse? && second.Got? && second.packet.ClientboundPong?)
            && (r == Nil ==> first == Got(ClientboundStatusResponse(StatusText(r, w))))
            && (r != Nil ==> StatusText(r, w) == [])
  {
    StatusAsked(env, cfg, input);
    var w1 := SendHandshake(env, cfg, Fresh(input), Status).1;
    var w2 := Send(env, cfg.version, SetState(w1, Status), ServerboundStatusRequest).1;
    assert w2.input == input;
    AnswerRead(env, cfg, w2, now);
  }

  lemma {:induction false} AnswerRead(env: Env, cfg: Config, w: World, now: int64)
    requires CanSend(env.defs, cfg.version, Status, SPing)
    requires w.state == Status && w.threshold == -1 && w.heard == []
    ensures var (r, w1) := StatusAnswer(env, cfg, w, now);
            var (first, rest) := Receive(env.z, env.defs, cfg.version, Status, -1, w.input);
            var second := Receive(env.z, env.defs, cfg.version, Status, -1, rest).0;
            && (r == Nil <==> first.Got? && first.packet.ClientboundStatusResponse? && second.Got? && second.packet.ClientboundPong?)
            && (r == Nil ==> first == Got(ClientboundStatusResponse(StatusText(r, w1))))
            && (r != Nil ==> StatusText(r, w1) == [])
  {
    var (first, w1) := Hear(env, cfg.version, w);
    assert w1.heard == [Heard(Status, -1, first)];
    PongRead(env, cfg, w1, now);
  }

  lemma {:induction false} PongRead(env: Env, cfg: Config, w: World, now: int64)
    requires CanSend(env.defs, cfg.version, Status, SPing) && w.state == Status && w.threshold == -1
    ensures var (r, w1) := Ping(env, cfg, w, now);
            var second := Receive(env.z, env.defs, cfg.version, Status, -1, w.input).0;
            && (r == Nil <==> second.Got? && second.packet.ClientboundPong?)
            && w1.heard == w.heard + [Heard(Status, -1, second)]
  {
  }

  /** Every packet of a status query has an ID in the state of that moment, over a well-formed registry. */
  lemma {:induction false} StatusSendsMapped(env: Env, cfg: Config, input: bytes, now: int64)
    requires WellFormed(env.defs, cfg.version)
    ensures forall x :: x in GetStatus(env, cfg, input, now).1.sent ==>
              CanSend(env.defs, cfg.version, x.state, KindOf(x.packet))
  {
    StatusTrace(env, cfg, input, now);
    var (r, w) := GetStatus(env, cfg, input, now);
    forall x | x in w.sent
      ensures CanSend(env.defs, cfg.version, x.state, KindOf(x.packet))
    {
      StatusKinds(env, cfg, now, w, x);
    }
  }

  /** With the shipped registry, for every version from the first on, each of them has. */
  lemma {:induction false} NoUnmappedStatusSend(env: Env, cfg: Config, input: bytes, now: int64)
    requires env.defs == GeneratedDefs() && cfg.version >= FIRST
    ensures forall x :: x in GetStatus(env, cfg, input, now).1.sent ==>
              CanSend(env.defs, cfg.version, x.state, KindOf(x.packet))
  {
    GeneratedWellFormed(cfg.version);
    StatusSendsMapped(env, cfg, input, now);
  }

  lemma {:induction false} StatusKinds(env: Env, cfg: Config, now: int64, w: World, x: Sent)
    requires Nearest(env.defs, cfg.version).Some? && x in w.sent && w.heard != []
    requires w.sent == [StatusHandshake(env, cfg), Sent(Status, -1, ServerboundStatusRequest)]
                       + (if AnswersStatus(w.heard[0]) then [Sent(Status, -1, ServerboundPing(now))] else [])
    ensures (x.state == Handshaking && KindOf(x.packet) == SHandshake)
         || (x.state == Status && KindOf(x.packet) in {SStatusRequest, SPing})
  {
  }
}
