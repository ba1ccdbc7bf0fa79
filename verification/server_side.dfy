/** A join seen from the server: the fields it reads from the frames it is sent, and the answers it
    gets to what it asks. */
module ServerSide {
  import opened Wire
  import opened Packets
  import opened PacketFields
  import opened Registry
  import opened Framing
  import opened Session
  import opened Tables
  import opened Traces
  import opened JoinLaws
  import PacketLaws

  // ---------------------------------------------------------------- what a server reads

  /** What a server of version v makes of a payload: its ID picks the type, the type reads the rest. */
  function ServerUnderstands(v: int, state: State, data: bytes): Parse<Packet>
  {
    var (id, body) :- DecVarInt(data);
    var names := NamesOf(Clamp(v), Slot(state, Serverbound));
    if id in names then ServerRead(names[id], v, body) else Fail
  }

  /** A server of version v can read the packet. */
  predicate Readable(v: int, x: Sent) { IsServerbound(x.packet) && Legible(x.packet, v) }

  /** The strings the user gives are no longer than a string may be. */
  predicate Moderate(cfg: Config) { Bounded(cfg.host) && Bounded(cfg.username) && Bounded(cfg.settings.locale) }

  lemma {:induction false} LoginReadable(env: Env, cfg: Config)
    requires env.Lawful() && Moderate(cfg) && Nearest(env.defs, cfg.version).Some?
    ensures Readable(cfg.version, HandshakeSent(env, cfg)) && Readable(cfg.version, LoginStartSent(env, cfg))
  {
    LoginStartRead(env, cfg);
  }

  lemma {:induction false} ReplyReadable(cfg: Config, p: Packet)
    requires p.ClientboundCookieRequest? ==> Bounded(p.key)
    ensures forall q :: q in Reply(cfg, p) ==> IsServerbound(q) && Legible(q, cfg.version)
  {
  }

  lemma {:induction false} StampReadable(v: int, state: State, threshold: int, ps: seq<Packet>)
    requires forall p :: p in ps ==> IsServerbound(p) && Legible(p, v)
    ensures forall x :: x in Stamp(state, threshold, ps) ==> Readable(v, x)
  {
    if ps != [] {
      StampReadable(v, state, threshold, ps[1..]);
    }
  }

  lemma {:induction false} RepliesReadable(cfg: Config, heard: seq<Heard>)
    requires KeysBounded(heard)
    ensures forall x :: x in Replies(cfg, heard) ==> Readable(cfg.version, x)
  {
    if heard != [] {
      var init := heard[..|heard| - 1];
      var last := heard[|heard| - 1];
      assert KeysBounded(init) by {
        assert forall x :: x in init ==> x in heard;
      }
      RepliesReadable(cfg, init);
      if last.outcome.Got? {
        ReplyReadable(cfg, last.outcome.packet);
        StampReadable(cfg.version, Configuration, last.threshold, Reply(cfg, last.outcome.packet));
      }
    }
  }

  lemma {:induction false} AfterLoginReadable(cfg: Config, login: seq<Sent>, w: World)
    requires AfterLogin(cfg, login, w) && KeysBounded(w.heard) && Moderate(cfg)
    requires forall x :: x in login ==> Readable(cfg.version, x)
    ensures forall x :: x in w.sent ==> Readable(cfg.version, x)
  {
    RepliesReadable(cfg, w.heard);
  }

  /** Everything Join sends. */
  lemma {:induction false} JoinReadable(env: Env, cfg: Config, input: bytes)
    requires env.Lawful() && WellFormed(env.defs, cfg.version) && Moderate(cfg)
    ensures forall x :: x in Join(env, cfg, input).1.sent ==> Readable(cfg.version, x)
  {
    JoinGood(env, cfg, input);
    LoginReadable(env, cfg);
    var w := Join(env, cfg, input).1;
    if cfg.username != [] {
      AfterLoginReadable(cfg, [HandshakeSent(env, cfg), LoginStartSent(env, cfg)], w);
    }
  }

  /** Over the shipped tables a server knows the ID that a packet goes out with. */
  lemma {:induction false} ServerKnows(env: Env, v: int, x: Sent)
    requires env.defs == GeneratedDefs() && v >= FIRST && Mapped(env, v, x)
    ensures var id := IdFor(env.defs, v, Slot(x.state, Serverbound), KindOf(x.packet)).value;
            var names := NamesOf(Clamp(v), Slot(x.state, Serverbound));
            id in names && names[id] == KindOf(x.packet)
  {
    GeneratedAnswers(v, Slot(x.state, Serverbound));
    TablesInverse(Clamp(v), Slot(x.state, Serverbound));
  }

  lemma {:induction false} PayloadUnderstood(v: int, x: Sent, id: int32, body: bytes, fields: Parse<Packet>)
    requires var names := NamesOf(Clamp(v), Slot(x.state, Serverbound)); id in names && names[id] == KindOf(x.packet)
    requires fields == ServerRead(KindOf(x.packet), v, body)
    ensures ServerUnderstands(v, x.state, EncVarInt(id) + body) == fields
  {
    VarIntRoundTrip(id, body);
  }

  /** A packet that was sent with an ID and can be read is read with all its fields. */
  lemma {:induction false} SentUnderstood(env: Env, v: int, x: Sent)
    requires env.defs == GeneratedDefs() && v >= FIRST && Mapped(env, v, x) && Readable(v, x)
    ensures var id := IdFor(env.defs, v, Slot(x.state, Serverbound), KindOf(x.packet)).value;
            ServerUnderstands(v, x.state, Payload(id, x.packet, v)) == Ok(Carried(x.packet, v), [])
  {
    var id := IdFor(env.defs, v, Slot(x.state, Serverbound), KindOf(x.packet)).value;
    ServerKnows(env, v, x);
    SentReadsBack(x.packet, v);
    PayloadUnderstood(v, x, id, Encode(x.packet, v), Ok(Carried(x.packet, v), []));
  }

  /** Every packet of a join reaches a server of the client's version, for every release and any later
      version number: opening the i-th body under the threshold of that moment gives a payload, and
      reading this in the state of that moment gives the i-th packet, with all that the version carries. */
  lemma {:induction false} ServerReadsJoin(env: Env, cfg: Config, input: bytes, i: nat)
    requires env.Lawful() && env.defs == GeneratedDefs() && cfg.version >= FIRST && Moderate(cfg)
    requires i < |Join(env, cfg, input).1.sent|
    ensures var w := Join(env, cfg, input).1;
            var bodies := BodiesOf(env, cfg.version, w.sent);
            var x := w.sent[i];
            var id := IdFor(env.defs, cfg.version, Slot(x.state, Serverbound), KindOf(x.packet));
            && |bodies| == |w.sent| && id.Some? && Encodable(x.packet)
            && var payload := Payload(id.value, x.packet, cfg.version);
               && ServerUnderstands(cfg.version, x.state, payload) == Ok(Carried(x.packet, cfg.version), [])
               && (|payload| < TWO31 ==> Open(env.z, x.threshold, bodies[i]) == Stream(payload, true))
  {
    GeneratedWellFormed(cfg.version);
    JoinReadable(env, cfg, input);
    ServerOpensOutput(env, cfg, input, i);
    var x := Join(env, cfg, input).1.sent[i];
    assert Mapped(env, cfg.version, x);
    SentUnderstood(env, cfg.version, x);
  }

  // ---------------------------------------------------------------- handshake

  /** The handshake of a join names the protocol number of the client's release, and the number that
      stands for going on with login. */
  lemma {:induction false} JoinHandshake(env: Env, cfg: Config, input: bytes)
    requires env.defs == GeneratedDefs() && cfg.version >= FIRST
    ensures var sent := Join(env, cfg, input).1.sent;
            sent != [] && sent[0] == Sent(Handshaking, -1, ServerboundHandshake(PROTOCOLS[Clamp(cfg.version)], cfg.host, cfg.port, 2))
  {
    GeneratedWellFormed(cfg.version);
    JoinSends(env, cfg, input);
    HandshakeNumbers(env, cfg, HandshakeSent(env, cfg));
  }

  lemma {:induction false} HandshakeNumbers(env: Env, cfg: Config, x: Sent)
    requires env.defs == GeneratedDefs() && cfg.version >= FIRST && Nearest(env.defs, cfg.version).Some?
    requires x == HandshakeSent(env, cfg)
    ensures x == Sent(Handshaking, -1, ServerboundHandshake(PROTOCOLS[Clamp(cfg.version)], cfg.host, cfg.port, 2))
  {
    NearestGenerated(cfg.version);
  }

  /** That of a status query names the status state. */
  lemma {:induction false} QueryHandshake(env: Env, cfg: Config, input: bytes, now: int64)
    requires env.defs == GeneratedDefs() && cfg.version >= FIRST
    ensures var sent := GetStatus(env, cfg, input, now).1.sent;
            sent != [] && sent[0] == Sent(Handshaking, -1, ServerboundHandshake(PROTOCOLS[Clamp(cfg.version)], cfg.host, cfg.port, 1))
  {
    GeneratedWellFormed(cfg.version);
    NearestGenerated(cfg.version);
    StatusTrace(env, cfg, input, now);
  }

  lemma {:induction false} JoinSends(env: Env, cfg: Config, input: bytes)
    requires WellFormed(env.defs, cfg.version)
    ensures Nearest(env.defs, cfg.version).Some?
    ensures var sent := Join(env, cfg, input).1.sent; sent != [] && sent[0] == HandshakeSent(env, cfg)
  {
    JoinGood(env, cfg, input);
    var w := Join(env, cfg, input).1;
    var login := [HandshakeSent(env, cfg), LoginStartSent(env, cfg)];
    if cfg.username != [] {
      assert login <= w.sent by {
        StartsWithLogin(cfg, login, w);
      }
    }
  }

  lemma {:induction false} StartsWithLogin(cfg: Config, login: seq<Sent>, w: World)
    requires AfterLogin(cfg, login, w)
    ensures login <= w.sent
  {
  }

  // ---------------------------------------------------------------- the login UUID

  /** The bytes of a text. */
  function Ascii(text: string): bytes
    requires forall i :: 0 <= i < |text| ==> text[i] as int < 128
  {
    seq(|text|, i requires 0 <= i < |text| => text[i] as int)
  }

  lemma {:induction false} Texts()
    ensures BRAND_CHANNEL == Ascii("minecraft:brand")
    ensures OFFLINE_PREFIX == Ascii("OfflinePlayer:")
  {
  }

  /** A user without a UUID logs in, from 1.19.2 on, with one whose 122 free bits are those of the hash of
      the name behind "OfflinePlayer:"; any other user with the UUID given. */
  lemma {:induction false} LoginUUIDDerived(env: Env, cfg: Config)
    requires env.Lawful()
    ensures var uuid := LoginUUID(env, cfg);
            var hash := env.sha1(Ascii("OfflinePlayer:") + cfg.username);
            if cfg.uuid == NIL_UUID && cfg.version >= V1_19_2 then
              && |hash| == 20
              && (forall i :: 0 <= i < 16 && i != 6 && i != 8 ==> uuid[i] == hash[i])
              && uuid[6] == 0x30 + hash[6] % 16 && uuid[8] == 0x80 + hash[8] % 64
            else uuid == cfg.uuid
  {
    Texts();
    var hash := env.sha1(OFFLINE_PREFIX + cfg.username);
    PacketLaws.OfflineUUIDBits(hash);
  }

  // ---------------------------------------------------------------- the answers in configuration

  /** The answer that something read in configuration calls for, besides the finish packet: a keep-alive
      its own ID, the brand channel the brand as a string, a known-packs request an empty list, and a
      cookie request the cookie's key and no data. */
  function AnswerDue(brand: bytes, x: Heard): Option<Packet>
  {
    if x.state != Configuration || !x.outcome.Got? then None
    else
      match x.outcome.packet
      case ClientboundConfigKeepAlive(id) => Some(ServerboundConfigKeepAlive(id))
      case ClientboundCustomPayload(channel, _) =>
        if channel == Ascii("minecraft:brand") then Some(ServerboundCustomPayload(channel, EncBytes(brand))) else None
      case ClientboundSelectKnownPacks(_) => Some(ServerboundSelectKnownPacks([]))
      case ClientboundCookieRequest(key) => Some(ServerboundCookieResponse(key, None))
      case _ => None
  }

  /** What was sent in configuration besides the settings and the finish packet. */
  function AnswerSent(x: Sent): Option<Packet>
  {
    if x.state == Configuration && !x.packet.ServerboundClientSettings? && !x.packet.ServerboundFinishConfiguration?
    then Some(x.packet) else None
  }

  lemma {:induction false} OneAnswer(cfg: Config, x: Heard)
    ensures Collect(AnswerSent, ReplyTo(cfg, x)) == Listed(AnswerDue(cfg.brand, x))
  {
    Texts();
    if x.state == Configuration && x.outcome.Got? {
      var ps := Reply(cfg, x.outcome.packet);
      StampShort(Configuration, x.threshold, ps);
      if ps != [] {
        CollectShort(AnswerSent, Sent(Configuration, x.threshold, ps[0]), Sent(Configuration, x.threshold, ps[|ps| - 1]));
      }
    }
  }

  lemma {:induction false} AllAnswers(cfg: Config, heard: seq<Heard>)
    ensures Collect(AnswerSent, Replies(cfg, heard)) == Collect((x: Heard) => AnswerDue(cfg.brand, x), heard)
  {
    if heard != [] {
      var init := heard[..|heard| - 1];
      AllAnswers(cfg, init);
      OneAnswer(cfg, heard[|heard| - 1]);
      CollectAppend(AnswerSent, Replies(cfg, init), ReplyTo(cfg, heard[|heard| - 1]));
    }
  }

  lemma {:induction false} EntryAnswersNothing(cfg: Config, login: seq<Sent>, threshold: int)
    requires forall x :: x in login ==> x.state != Configuration
    ensures Collect(AnswerSent, Entry(cfg, login, threshold)) == []
  {
    var entry := Entry(cfg, login, threshold);
    forall x | x in entry
      ensures AnswerSent(x) == None
    {
    }
    CollectNone(AnswerSent, entry);
  }

  /** In every run that got past login, what was sent in configuration, besides settings and finish
      packets, is what was called for, in the order it was called for. */
  lemma {:induction false} JoinAnswersDue(env: Env, cfg: Config, input: bytes)
    requires WellFormed(env.defs, cfg.version)
    ensures var w := Join(env, cfg, input).1;
            cfg.version >= V1_20_2 && w.state != Login ==>
              Collect(AnswerSent, w.sent) == Collect((x: Heard) => AnswerDue(cfg.brand, x), w.heard)
  {
    JoinGood(env, cfg, input);
    var login := [HandshakeSent(env, cfg), LoginStartSent(env, cfg)];
    var w := Join(env, cfg, input).1;
    if cfg.version >= V1_20_2 && w.state != Login {
      TracedDue(cfg, login, w);
    }
  }

  lemma {:induction false} TracedDue(cfg: Config, login: seq<Sent>, w: World)
    requires w.sent == Entry(cfg, login, w.threshold) + Replies(cfg, w.heard)
    requires forall x :: x in login ==> x.state != Configuration
    ensures Collect(AnswerSent, w.sent) == Collect((x: Heard) => AnswerDue(cfg.brand, x), w.heard)
  {
    var entry := Entry(cfg, login, w.threshold);
    EntryAnswersNothing(cfg, login, w.threshold);
    AllAnswers(cfg, w.heard);
    CollectAppend(AnswerSent, entry, Replies(cfg, w.heard));
    assert [] + Collect(AnswerSent, Replies(cfg, w.heard)) == Collect(AnswerSent, Replies(cfg, w.heard));
  }
}
