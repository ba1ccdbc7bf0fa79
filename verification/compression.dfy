/** Agreement on compression: a server switches thresholds right after emitting a compression
    packet, the client right after reading it, and in between any number of frames are in flight. */
module Compression {
  import opened Wire
  import opened Packets
  import opened Registry
  import opened Framing
  import opened Session
  import opened JoinLaws
  import opened Traces
  import PacketFields
  import PacketLaws

  /** The server's side: whether it is still in login, and the threshold it frames under. */
  datatype Server = Server(login: bool, threshold: int)

  const START := Server(true, -1)

  /** The type a payload announces in login, by the ID in front. */
  function Announced(env: Env, v: int, payload: bytes): Option<Kind>
  {
    if DecVarInt(payload).Ok? then KindFor(env.defs, v, Slot(Login, Clientbound), DecVarInt(payload).value) else None
  }

  /** What stands behind the ID. */
  function BodyBehind(payload: bytes): bytes { if DecVarInt(payload).Ok? then DecVarInt(payload).rest else [] }

  /** The server after emitting a payload, by what it wrote itself: during login, the ID of a compression
      packet and a number make it switch to that number, and the ID of login success ends login. */
  function Emit(env: Env, v: int, srv: Server, payload: bytes): Server
  {
    var k := Announced(env, v, payload);
    var number := DecVarInt(BodyBehind(payload));
    if srv.login && k == Some(CSetCompression) && number.Ok? then Server(true, number.value)
    else if srv.login && k == Some(CLoginSuccess) then Server(false, srv.threshold)
    else srv
  }

  /** So a server sets any threshold by writing it behind the ID, and any acceptance ends its login. */
  lemma {:induction false} ServerChooses(env: Env, v: int, srv: Server, id: int32, threshold: int32, acceptance: bytes)
    requires srv.login
    ensures KindFor(env.defs, v, Slot(Login, Clientbound), id) == Some(CSetCompression) ==>
              Emit(env, v, srv, EncVarInt(id) + EncVarInt(threshold)) == Server(true, threshold)
    ensures KindFor(env.defs, v, Slot(Login, Clientbound), id) == Some(CLoginSuccess) ==>
              Emit(env, v, srv, EncVarInt(id) + acceptance) == Server(false, srv.threshold)
  {
    VarIntRoundTrip(id, EncVarInt(threshold));
    VarIntRoundTrip(id, acceptance);
    VarIntRoundTrip(threshold, []);
    assert EncVarInt(threshold) + [] == EncVarInt(threshold);
  }

  function EmitAll(env: Env, v: int, srv: Server, payloads: seq<bytes>): Server
    decreases |payloads|
  {
    if payloads == [] then srv else EmitAll(env, v, Emit(env, v, srv, payloads[0]), payloads[1..])
  }

  /** The bytes of some payloads, each framed under the threshold of its moment. */
  function Emitted(env: Env, v: int, srv: Server, payloads: seq<bytes>): bytes
    decreases |payloads|
  {
    if payloads == [] then []
    else Frame(env.z, srv.threshold, payloads[0]) + Emitted(env, v, Emit(env, v, srv, payloads[0]), payloads[1..])
  }

  /** A packet (so not empty) whose lengths, laid out under the threshold, fit an int32. */
  ghost predicate Fits(env: Env, threshold: int, payload: bytes)
  {
    payload != [] && |payload| < TWO31 && |Body(env.z, threshold, payload)| < TWO31
  }

  ghost predicate AllFit(env: Env, v: int, srv: Server, payloads: seq<bytes>)
    decreases |payloads|
  {
    payloads == [] || (Fits(env, srv.threshold, payloads[0]) && AllFit(env, v, Emit(env, v, srv, payloads[0]), payloads[1..]))
  }

  /** The threshold the i-th payload was framed under. */
  function ThresholdAt(env: Env, v: int, payloads: seq<bytes>, i: nat): int
    requires i <= |payloads|
  {
    EmitAll(env, v, START, payloads[..i]).threshold
  }

  lemma {:induction false} EmitSnoc(env: Env, v: int, srv: Server, payloads: seq<bytes>, p: bytes)
    ensures EmitAll(env, v, srv, payloads + [p]) == Emit(env, v, EmitAll(env, v, srv, payloads), p)
    ensures Emitted(env, v, srv, payloads + [p]) ==
      Emitted(env, v, srv, payloads) + Frame(env.z, EmitAll(env, v, srv, payloads).threshold, p)
    decreases |payloads|
  {
    if payloads == [] {
      assert [] + [p] == [p] && [p][1..] == [];
      assert Emitted(env, v, srv, [p]) == Frame(env.z, srv.threshold, p) + [];
      assert EmitAll(env, v, srv, [p]) == EmitAll(env, v, Emit(env, v, srv, p), []);
    } else {
      var next := Emit(env, v, srv, payloads[0]);
      assert (payloads + [p])[1..] == payloads[1..] + [p];
      EmitSnoc(env, v, next, payloads[1..], p);
      Append2(Frame(env.z, srv.threshold, payloads[0]), Emitted(env, v, next, payloads[1..]),
              Frame(env.z, EmitAll(env, v, next, payloads[1..]).threshold, p));
    }
  }

  lemma {:induction false} FitSnoc(env: Env, v: int, srv: Server, payloads: seq<bytes>, p: bytes)
    requires AllFit(env, v, srv, payloads) && Fits(env, EmitAll(env, v, srv, payloads).threshold, p)
    ensures AllFit(env, v, srv, payloads + [p])
    decreases |payloads|
  {
    if payloads == [] {
      assert [] + [p] == [p] && [p][1..] == [];
    } else {
      assert (payloads + [p])[1..] == payloads[1..] + [p];
      FitSnoc(env, v, Emit(env, v, srv, payloads[0]), payloads[1..], p);
    }
  }

  // ---------------------------------------------------------------- one read

  /** The client is where the server was when it wrote the next frame. */
  ghost predicate Agrees(srv: Server, w: World)
  {
    srv.threshold == w.threshold && (srv.login <==> w.state == Login || w.state == Handshaking)
  }

  predicate EndsLogin(w: World, o: Outcome) { w.state == Login && o.Got? && o.packet.ClientboundLoginSuccess? }

  /** w1 is w after a read that returned o, and whatever the client did about it. */
  ghost predicate Reacted(w: World, o: Outcome, w1: World)
  {
    && w1.threshold == NextThreshold(w, o)
    && (w1.state == Login <==> w.state == Login && !EndsLogin(w, o))
    && w1.state != Handshaking
  }

  /** With at least one frame in flight, the client reads the payload under the threshold it was
      framed with, leaves the stream at the next frame, and afterwards agrees about that one. */
  lemma {:induction false} ReadInStep(env: Env, v: int, srv: Server, payloads: seq<bytes>, tail: bytes, w: World)
    requires env.z.Lawful() && payloads != [] && Fits(env, srv.threshold, payloads[0])
    requires Agrees(srv, w) && w.input == Emitted(env, v, srv, payloads) + tail
    ensures var (o, w1) := Hear(env, v, w);
            && o == Understand(env.defs, v, w.state, payloads[0], true)
            && w1 == w.(input := Emitted(env, v, Emit(env, v, srv, payloads[0]), payloads[1..]) + tail,
                        heard := w.heard + [Heard(w.state, srv.threshold, o)])
  {
    var rest := Emitted(env, v, Emit(env, v, srv, payloads[0]), payloads[1..]);
    Append2(Frame(env.z, srv.threshold, payloads[0]), rest, tail);
    ReceiveFrame(env.z, env.defs, v, w.state, srv.threshold, payloads[0], rest + tail);
  }

  /** After such an outcome nobody reads on. */
  predicate Lost(o: Outcome) { o.Failed? || o.Crashed? }

  predicate Stopped(w: World) { w.heard != [] && Lost(w.heard[|w.heard| - 1].outcome) }

  /** What the client reads in login is what the server announced: the number behind the ID of a
      compression packet, an acceptance, or something that changes nothing. */
  lemma {:induction false} ReadsAnnounced(env: Env, v: int, payload: bytes)
    ensures var o := Understand(env.defs, v, Login, payload, true);
            var k := Announced(env, v, payload);
            var number := DecVarInt(BodyBehind(payload));
            && (k == Some(CSetCompression) ==> o == if number.Ok? then Got(ClientboundSetCompression(number.value)) else Failed)
            && (k == Some(CLoginSuccess) ==> o.Failed? || (o.Got? && o.packet.ClientboundLoginSuccess?))
            && (o.Got? && o.packet.ClientboundSetCompression? ==> k == Some(CSetCompression))
            && (o.Got? && o.packet.ClientboundLoginSuccess? ==> k == Some(CLoginSuccess))
  {
    var k := Announced(env, v, payload);
    var body := BodyBehind(payload);
    if k.Some? {
      var decoded := DecodePacket(k.value, v, body, true);
      assert Understand(env.defs, v, Login, payload, true) == AsOutcome(decoded);
      AnnouncedDecoder(k.value, v, body, decoded);
    }
  }

  /** The client reads the threshold and the identity the server wrote. */
  lemma {:induction false} ClientReadsChosen(env: Env, v: int, id: int32, threshold: int32)
    requires KindFor(env.defs, v, Slot(Login, Clientbound), id) == Some(CSetCompression)
    ensures Understand(env.defs, v, Login, EncVarInt(id) + EncVarInt(threshold), true) == Got(ClientboundSetCompression(threshold))
  {
    var body := EncVarInt(threshold);
    assert body + [] == body;
    VarIntRoundTrip(id, body);
    PacketFields.SetCompressionRead(v, threshold, [], true);
  }

  lemma {:induction false} ClientReadsAcceptance(env: Env, v: int, id: int32, username: bytes, uuid: UUID, dashes: bool,
      props: seq<Property>, strict: bool)
    requires KindFor(env.defs, v, Slot(Login, Clientbound), id) == Some(CLoginSuccess)
    requires Bounded(username) && |props| < TWO31 && forall p :: p in props ==> BoundedProperty(p)
    ensures Understand(env.defs, v, Login, EncVarInt(id) + EncLoginSuccess(v, username, uuid, dashes, props, strict), true)
         == Got(ClientboundLoginSuccess(username, uuid))
  {
    var body := EncLoginSuccess(v, username, uuid, dashes, props, strict);
    PacketFields.LoginSuccessRead(v, username, uuid, dashes, props, strict, [], true);
    assert body + [] == body;
    UnderstoodAs(env.defs, v, Login, id, CLoginSuccess, body);
  }

  /** A payload is its ID and what the type it stands for makes of the rest. */
  lemma {:induction false} UnderstoodAs(defs: Defs, v: int, state: State, id: int32, k: Kind, body: bytes)
    requires KindFor(defs, v, Slot(state, Clientbound), id) == Some(k)
    ensures HasConstructor(k)
    ensures Understand(defs, v, state, EncVarInt(id) + body, true) == AsOutcome(DecodePacket(k, v, body, true))
  {
    VarIntRoundTrip(id, body);
  }

  lemma {:induction false} AnnouncedDecoder(k: Kind, v: int, body: bytes, decoded: Parse<Packet>)
    requires HasConstructor(k) && decoded == DecodePacket(k, v, body, true)
    ensures k == CSetCompression ==>
              decoded == if DecVarInt(body).Ok? then Ok(ClientboundSetCompression(DecVarInt(body).value), DecVarInt(body).rest) else Fail
    ensures k == CLoginSuccess ==> !decoded.Panic?
    ensures decoded.Ok? ==> (decoded.value.ClientboundLoginSuccess? <==> k == CLoginSuccess)
    ensures decoded.Ok? ==> (decoded.value.ClientboundSetCompression? <==> k == CSetCompression)
  {
    PacketFields.SetCompressionDecoded(v, body, true);
    PacketLaws.PacketPanics(k, v, body, true);
    assert decoded.Ok? ==> Is(decoded.value, k);
  }

  lemma {:induction false} StillAgrees(env: Env, v: int, srv: Server, payload: bytes, w: World, o: Outcome, w1: World)
    requires Agrees(srv, w) && w.state != Handshaking && !Lost(o)
    requires o == Understand(env.defs, v, w.state, payload, true) && Reacted(w, o, w1)
    ensures Agrees(Emit(env, v, srv, payload), w1)
  {
    if w.state == Login {
      ReadsAnnounced(env, v, payload);
    }
  }

  // ---------------------------------------------------------------- every interleaving

  /** A server that has emitted some payloads, and a client whose input is what is still in flight. */
  datatype Link = Link(emitted: seq<bytes>, client: World)

  ghost predicate Starts(l: Link) { l.emitted == [] && l.client == Fresh([]) }

  /** The server writes one more frame. */
  ghost predicate ServerEmits(env: Env, v: int, l: Link, l1: Link)
  {
    exists p ::
      var threshold := EmitAll(env, v, START, l.emitted).threshold;
      && Fits(env, threshold, p)
      && l1 == Link(l.emitted + [p], l.client.(input := l.client.input + Frame(env.z, threshold, p)))
  }

  /** The client, past its handshake, reads one whole frame and reacts; after a read that failed it
      reads no more. */
  ghost predicate ClientReads(env: Env, v: int, l: Link, l1: Link)
  {
    && l1.emitted == l.emitted && l.client.state != Handshaking && CutFrame(l.client.input).Whole?
    && !Stopped(l.client)
    && var (o, w) := Hear(env, v, l.client);
       Reacted(l.client, o, l1.client) && l1.client.input == w.input && l1.client.heard == w.heard
  }

  /** The client sends, enters login, or moves on between two states after login. */
  ghost predicate ClientActs(l: Link, l1: Link)
  {
    && l1.emitted == l.emitted && l1.client.input == l.client.input && l1.client.heard == l.client.heard
    && l1.client.threshold == l.client.threshold
    && (l1.client.state == Login || l1.client.state == Handshaking <==> l.client.state == Login || l.client.state == Handshaking)
  }

  ghost predicate Step(env: Env, v: int, l: Link, l1: Link)
  {
    ServerEmits(env, v, l, l1) || ClientReads(env, v, l, l1) || ClientActs(l, l1)
  }

  ghost predicate IsRun(env: Env, v: int, run: seq<Link>)
  {
    && run != [] && Starts(run[0])
    && forall i :: 0 < i < |run| ==> Step(env, v, run[i - 1], run[i])
  }

  /** Every read so far was of the payload in its turn, under the threshold it was framed with. */
  ghost predicate InOrder(env: Env, v: int, emitted: seq<bytes>, heard: seq<Heard>)
  {
    && |heard| <= |emitted|
    && forall i :: 0 <= i < |heard| ==> Delivered(env, v, emitted, i, heard[i])
  }

  ghost predicate Delivered(env: Env, v: int, emitted: seq<bytes>, i: nat, x: Heard)
    requires i < |emitted|
  {
    && x.threshold == ThresholdAt(env, v, emitted, i)
    && x.outcome == Understand(env.defs, v, x.state, emitted[i], true)
  }

  ghost predicate Linked(env: Env, v: int, l: Link)
  {
    && InOrder(env, v, l.emitted, l.client.heard)
    && InFlight(env, v, EmitAll(env, v, START, l.emitted[..|l.client.heard|]), l.emitted[|l.client.heard|..], l)
  }

  /** The payloads in flight, starting at the server state srv the client, while it reads, agrees with. */
  ghost predicate InFlight(env: Env, v: int, srv: Server, flight: seq<bytes>, l: Link)
  {
    && (Stopped(l.client) || Agrees(srv, l.client))
    && l.client.input == Emitted(env, v, srv, flight)
    && AllFit(env, v, srv, flight)
    && EmitAll(env, v, srv, flight) == EmitAll(env, v, START, l.emitted)
  }

  lemma {:induction false} DeliveredLater(env: Env, v: int, emitted: seq<bytes>, p: bytes, heard: seq<Heard>)
    requires InOrder(env, v, emitted, heard)
    ensures InOrder(env, v, emitted + [p], heard)
  {
    forall i | 0 <= i < |heard|
      ensures Delivered(env, v, emitted + [p], i, heard[i])
    {
      assert Delivered(env, v, emitted, i, heard[i]);
      assert (emitted + [p])[..i] == emitted[..i];
    }
  }

  /** One more payload at the end of those in flight. */
  lemma {:induction false} EmitExtends(env: Env, v: int, srv: Server, flight: seq<bytes>, p: bytes, l: Link, l1: Link)
    requires InFlight(env, v, srv, flight, l) && Fits(env, EmitAll(env, v, START, l.emitted).threshold, p)
    requires l1.emitted == l.emitted + [p]
    requires l1.client == l.client.(input := l.client.input + Frame(env.z, EmitAll(env, v, START, l.emitted).threshold, p))
    ensures InFlight(env, v, srv, flight + [p], l1)
  {
    EmitSnoc(env, v, srv, flight, p);
    EmitSnoc(env, v, START, l.emitted, p);
    FitSnoc(env, v, srv, flight, p);
  }

  lemma {:induction false} OneEmitted(env: Env, v: int, l: Link, l1: Link) returns (p: bytes)
    requires ServerEmits(env, v, l, l1)
    ensures var threshold := EmitAll(env, v, START, l.emitted).threshold;
            && Fits(env, threshold, p) && l1.emitted == l.emitted + [p]
            && l1.client == l.client.(input := l.client.input + Frame(env.z, threshold, p))
  {
    var threshold := EmitAll(env, v, START, l.emitted).threshold;
    p :| Fits(env, threshold, p) && l1 == Link(l.emitted + [p], l.client.(input := l.client.input + Frame(env.z, threshold, p)));
  }

  lemma {:induction false} SplitOneMore(emitted: seq<bytes>, p: bytes, k: nat)
    requires k <= |emitted|
    ensures (emitted + [p])[..k] == emitted[..k] && (emitted + [p])[k..] == emitted[k..] + [p]
  {
  }

  lemma {:induction false} EmitKeepsLinked(env: Env, v: int, l: Link, l1: Link)
    requires Linked(env, v, l) && ServerEmits(env, v, l, l1)
    ensures Linked(env, v, l1)
  {
    var k := |l.client.heard|;
    var p := OneEmitted(env, v, l, l1);
    var before := l.emitted[..k];
    var flight := l.emitted[k..];
    EmitExtends(env, v, EmitAll(env, v, START, before), flight, p, l, l1);
    DeliveredLater(env, v, l.emitted, p, l.client.heard);
    SplitOneMore(l.emitted, p, k);
  }

  lemma {:induction false} ReadTakesHead(env: Env, v: int, srv: Server, flight: seq<bytes>, l: Link, l1: Link)
    requires env.z.Lawful() && InFlight(env, v, srv, flight, l) && ClientReads(env, v, l, l1)
    ensures flight != [] && InFlight(env, v, Emit(env, v, srv, flight[0]), flight[1..], l1)
    ensures var x := Heard(l.client.state, srv.threshold, Understand(env.defs, v, l.client.state, flight[0], true));
            l1.client.heard == l.client.heard + [x]
  {
    assert flight != [] by {
      assert CutFrame([]).Short?;
    }
    var o := Hear(env, v, l.client).0;
    assert Emitted(env, v, srv, flight) + [] == l.client.input;
    ReadInStep(env, v, srv, flight, [], l.client);
    if !Lost(o) {
      StillAgrees(env, v, srv, flight[0], l.client, o, l1.client);
    }
    var rest := Emitted(env, v, Emit(env, v, srv, flight[0]), flight[1..]);
    assert rest + [] == rest;
  }

  lemma {:induction false} ReadKeepsLinked(env: Env, v: int, l: Link, l1: Link)
    requires env.z.Lawful() && Linked(env, v, l) && ClientReads(env, v, l, l1)
    ensures Linked(env, v, l1) && |l1.client.heard| == |l.client.heard| + 1
  {
    var k := |l.client.heard|;
    var srv := EmitAll(env, v, START, l.emitted[..k]);
    var flight := l.emitted[k..];
    ReadTakesHead(env, v, srv, flight, l, l1);
    HeadMoves(l.emitted, k);
    EmitSnoc(env, v, START, l.emitted[..k], flight[0]);
    DeliveredNext(env, v, l.emitted, l.client.heard, l1.client.heard[k]);
  }

  lemma {:induction false} HeadMoves(emitted: seq<bytes>, k: nat)
    requires k < |emitted|
    ensures emitted[..k + 1] == emitted[..k] + [emitted[k..][0]] && emitted[k + 1..] == emitted[k..][1..]
  {
  }

  lemma {:induction false} DeliveredNext(env: Env, v: int, emitted: seq<bytes>, heard: seq<Heard>, x: Heard)
    requires InOrder(env, v, emitted, heard) && |heard| < |emitted| && Delivered(env, v, emitted, |heard|, x)
    ensures InOrder(env, v, emitted, heard + [x])
  {
    var later := heard + [x];
    forall i | 0 <= i < |later|
      ensures Delivered(env, v, emitted, i, later[i])
    {
      if i < |heard| {
        assert later[i] == heard[i] && Delivered(env, v, emitted, i, heard[i]);
      } else {
        assert i == |heard| && later[i] == x;
      }
    }
  }

  /** In every interleaving of emitting, reading and sending, each frame is read under the threshold
      it was written with, in the order the server emitted them, with nothing lost. */
  lemma {:induction false} CompressionAgreement(env: Env, v: int, run: seq<Link>, i: nat)
    requires env.z.Lawful() && IsRun(env, v, run) && i < |run|
    ensures Linked(env, v, run[i])
  {
    if i == 0 {
      assert run[0].emitted[..0] == [];
    } else {
      CompressionAgreement(env, v, run, i - 1);
      if ServerEmits(env, v, run[i - 1], run[i]) {
        EmitKeepsLinked(env, v, run[i - 1], run[i]);
      } else if ClientReads(env, v, run[i - 1], run[i]) {
        ReadKeepsLinked(env, v, run[i - 1], run[i]);
      }
    }
  }

  /** A frame in flight can always be read: the client is never stuck in front of one. */
  lemma {:induction false} FlightReadable(env: Env, v: int, run: seq<Link>, i: nat)
    requires env.z.Lawful() && IsRun(env, v, run) && i < |run|
    ensures var l := run[i]; |l.client.heard| < |l.emitted| <==> CutFrame(l.client.input).Whole?
  {
    CompressionAgreement(env, v, run, i);
    var l := run[i];
    var srv := EmitAll(env, v, START, l.emitted[..|l.client.heard|]);
    var flight := l.emitted[|l.client.heard|..];
    if flight != [] {
      CutEncoded(Body(env.z, srv.threshold, flight[0]), Emitted(env, v, Emit(env, v, srv, flight[0]), flight[1..]));
    }
  }

  // ---------------------------------------------------------------- the runs of Join

  /** The reads went through the payloads in turn; one more may have failed on the incomplete rest. */
  ghost predicate Follows(env: Env, v: int, srv: Server, payloads: seq<bytes>, heard: seq<Heard>)
    decreases |payloads|
  {
    heard != [] ==>
      if payloads == [] then |heard| == 1 && heard[0].outcome == Failed
      else
        && heard[0].threshold == srv.threshold
        && heard[0].outcome == Understand(env.defs, v, heard[0].state, payloads[0], true)
        && Follows(env, v, Emit(env, v, srv, payloads[0]), payloads[1..], heard[1..])
  }

  ghost predicate Arriving(env: Env, v: int, srv: Server, payloads: seq<bytes>, tail: bytes, w: World)
  {
    && env.z.Lawful() && AllFit(env, v, srv, payloads) && CutFrame(tail).Short?
    && Agrees(srv, w) && w.state != Handshaking && w.input == Emitted(env, v, srv, payloads) + tail
  }

  /** A turn's world continues in step, or the loop is over. */
  lemma {:induction false} TurnReacts(env: Env, cfg: Config, w: World)
    requires w.state == Configuration
    ensures var (o, w1) := Hear(env, cfg.version, w);
            var t := ConfigurationTurn(env, cfg, w);
            && t.world.heard == w1.heard && t.world.input == w1.input
            && (t.Again? ==> Reacted(w, o, t.world) && t.world.state == Configuration && !Lost(o))
  {
    var (o, w1) := Hear(env, cfg.version, w);
    if o.Got? {
      SendAllKeepsInput(env, cfg.version, w1, Reply(cfg, o.packet));
    }
  }

  lemma {:induction false} ShortFails(env: Env, v: int, w: World)
    requires CutFrame(w.input).Short?
    ensures Hear(env, v, w).0 == Failed && Hear(env, v, w).1.heard == w.heard + [Heard(w.state, w.threshold, Failed)]
  {
  }

  /** The next read, and a reaction to it that reads nothing more. */
  lemma {:induction false} NextArrives(env: Env, v: int, srv: Server, payloads: seq<bytes>, tail: bytes, w: World, w2: World)
    requires Arriving(env, v, srv, payloads, tail, w) && payloads != []
    requires Reacted(w, Hear(env, v, w).0, w2) && w2.input == Hear(env, v, w).1.input && !Lost(Hear(env, v, w).0)
    ensures Arriving(env, v, Emit(env, v, srv, payloads[0]), payloads[1..], tail, w2)
  {
    ReadInStep(env, v, srv, payloads, tail, w);
    StillAgrees(env, v, srv, payloads[0], w, Hear(env, v, w).0, w2);
  }

  /** What one read adds to the trace. */
  lemma {:induction false} HearFollows(env: Env, v: int, srv: Server, payloads: seq<bytes>, tail: bytes, w: World) returns (x: Heard)
    requires Arriving(env, v, srv, payloads, tail, w)
    ensures Hear(env, v, w).1.heard == w.heard + [x] && x == Heard(w.state, w.threshold, Hear(env, v, w).0)
    ensures Follows(env, v, srv, payloads, [x]) && (payloads == [] ==> x.outcome == Failed)
  {
    var o := Hear(env, v, w).0;
    x := Heard(w.state, w.threshold, o);
    if payloads == [] {
      assert w.input == tail;
      ShortFails(env, v, w);
    } else {
      assert o == Understand(env.defs, v, w.state, payloads[0], true) by {
        ReadInStep(env, v, srv, payloads, tail, w);
      }
      FollowsOne(env, v, srv, payloads, x);
    }
  }

  lemma {:induction false} FollowsOne(env: Env, v: int, srv: Server, payloads: seq<bytes>, x: Heard)
    requires payloads != [] && x.threshold == srv.threshold && x.outcome == Understand(env.defs, v, x.state, payloads[0], true)
    ensures Follows(env, v, srv, payloads, [x])
  {
    assert [x][1..] == [];
  }

  lemma {:induction false} FollowsMore(env: Env, v: int, srv: Server, payloads: seq<bytes>, x: Heard, later: seq<Heard>)
    requires payloads != [] && Follows(env, v, srv, payloads, [x])
    requires Follows(env, v, Emit(env, v, srv, payloads[0]), payloads[1..], later)
    ensures Follows(env, v, srv, payloads, [x] + later)
  {
    assert ([x] + later)[1..] == later;
  }

  lemma {:induction false} ConfigurationInStep(env: Env, cfg: Config, srv: Server, payloads: seq<bytes>, tail: bytes, w: World)
    returns (heard: seq<Heard>)
    requires Arriving(env, cfg.version, srv, payloads, tail, w) && w.state == Configuration
    ensures ConfigurationLoop(env, cfg, w).1.heard == w.heard + heard && Follows(env, cfg.version, srv, payloads, heard)
    decreases |payloads|
  {
    var v := cfg.version;
    var t := ConfigurationTurn(env, cfg, w);
    TurnReacts(env, cfg, w);
    var x := HearFollows(env, v, srv, payloads, tail, w);
    heard := [x];
    if t.Again? {
      NextArrives(env, v, srv, payloads, tail, w, t.world);
      var later := ConfigurationInStep(env, cfg, Emit(env, v, srv, payloads[0]), payloads[1..], tail, t.world);
      heard := [x] + later;
      FollowsMore(env, v, srv, payloads, x, later);
      Assoc(w.heard, [x], later);
    }
  }

  /** The reaction to login success reads on only in configuration. */
  lemma {:induction false} LoggedInInStep(env: Env, cfg: Config, srv: Server, payloads: seq<bytes>, tail: bytes, w: World)
    returns (heard: seq<Heard>)
    requires Arriving(env, cfg.version, srv, payloads, tail, w.(state := Configuration)) && w.state == Login
    ensures LoggedIn(env, cfg, w).1.heard == w.heard + heard && Follows(env, cfg.version, srv, payloads, heard)
  {
    var v := cfg.version;
    heard := [];
    assert w.heard + [] == w.heard;
    if v >= V1_20_2 {
      var (ok, w1) := Send(env, v, w, ServerboundLoginAcknowledged);
      var (ok2, w2) := Send(env, v, SetState(w1, Configuration), ServerboundClientSettings(cfg.settings));
      if ok && ok2 {
        heard := ConfigurationInStep(env, cfg, srv, payloads, tail, w2);
      }
    }
  }

  /** What the login loop makes of a read that left world w1. */
  ghost predicate LoginReacts(env: Env, cfg: Config, w: World, o: Outcome, w1: World, t: Turn)
  {
    if EndsLogin(w, o) then t == Return(LoggedIn(env, cfg, w1).0, LoggedIn(env, cfg, w1).1)
    else
      && t.world.heard == w1.heard && t.world.input == w1.input
      && (t.Again? ==> Reacted(w, o, t.world) && t.world.state == Login && !Lost(o))
  }

  lemma {:induction false} LoginReactionReacts(env: Env, cfg: Config, w: World, o: Outcome, w1: World)
    requires w.state == Login && w1.state == Login && w1.threshold == w.threshold
    ensures LoginReacts(env, cfg, w, o, w1, LoginReaction(env, cfg, w1, o))
  {
  }

  lemma {:induction false} LoginTurnReacts(env: Env, cfg: Config, w: World)
    requires w.state == Login
    ensures var (o, w1) := Hear(env, cfg.version, w);
            LoginReacts(env, cfg, w, o, w1, LoginTurn(env, cfg, w))
  {
    var (o, w1) := Hear(env, cfg.version, w);
    LoginReactionReacts(env, cfg, w, o, w1);
  }

  lemma {:induction false} LoginInStep(env: Env, cfg: Config, srv: Server, payloads: seq<bytes>, tail: bytes, w: World)
    returns (heard: seq<Heard>)
    requires Arriving(env, cfg.version, srv, payloads, tail, w) && w.state == Login
    ensures LoginLoop(env, cfg, w).1.heard == w.heard + heard && Follows(env, cfg.version, srv, payloads, heard)
    decreases |payloads|
  {
    var v := cfg.version;
    var t := LoginTurn(env, cfg, w);
    LoginTurnReacts(env, cfg, w);
    var (o, w1) := Hear(env, v, w);
    var x := HearFollows(env, v, srv, payloads, tail, w);
    heard := [x];
    if EndsLogin(w, o) {
      NextArrives(env, v, srv, payloads, tail, w, w1.(state := Configuration));
      var later := LoggedInInStep(env, cfg, Emit(env, v, srv, payloads[0]), payloads[1..], tail, w1);
      heard := [x] + later;
      FollowsMore(env, v, srv, payloads, x, later);
      Assoc(w.heard, [x], later);
    } else if t.Again? {
      NextArrives(env, v, srv, payloads, tail, w, t.world);
      var later := LoginInStep(env, cfg, Emit(env, v, srv, payloads[0]), payloads[1..], tail, t.world);
      heard := [x] + later;
      FollowsMore(env, v, srv, payloads, x, later);
      Assoc(w.heard, [x], later);
    }
  }

  /** The trace, read by read. */
  lemma {:induction false} FollowsAt(env: Env, v: int, srv: Server, payloads: seq<bytes>, heard: seq<Heard>, i: nat)
    requires Follows(env, v, srv, payloads, heard) && i < |heard|
    ensures i <= |payloads|
    ensures i < |payloads| ==>
              && heard[i].threshold == EmitAll(env, v, srv, payloads[..i]).threshold
              && heard[i].outcome == Understand(env.defs, v, heard[i].state, payloads[i], true)
    ensures i == |payloads| ==> heard[i].outcome == Failed
    decreases i
  {
    if payloads != [] {
      if i == 0 {
        assert payloads[..0] == [];
      } else {
        FollowsAt(env, v, Emit(env, v, srv, payloads[0]), payloads[1..], heard[1..], i - 1);
        assert payloads[..i][1..] == payloads[1..][..i - 1];
      }
    }
  }

  /** Join against any server that frames its payloads under its threshold of the moment, for every
      version and registry: the i-th read of Join is of the i-th payload, under the threshold it was
      framed with, however often and to whatever value the threshold changes; only a read past the
      last complete frame fails on the stream. */
  lemma {:induction false} JoinReadsInOrder(env: Env, cfg: Config, payloads: seq<bytes>, tail: bytes)
    requires env.z.Lawful() && AllFit(env, cfg.version, START, payloads) && CutFrame(tail).Short?
    ensures var heard := Join(env, cfg, Emitted(env, cfg.version, START, payloads) + tail).1.heard;
            && |heard| <= |payloads| + 1
            && (forall i :: 0 <= i < |heard| && i < |payloads| ==> Delivered(env, cfg.version, payloads, i, heard[i]))
            && (|heard| == |payloads| + 1 ==> heard[|payloads|].outcome == Failed)
  {
    var input := Emitted(env, cfg.version, START, payloads) + tail;
    var w := JoinStarts(env, cfg, input);
    var heard := Join(env, cfg, input).1.heard;
    if heard != [] {
      LoginFollows(env, cfg, payloads, tail, w);
    }
    AllFollow(env, cfg.version, payloads, heard);
  }

  lemma {:induction false} LoginFollows(env: Env, cfg: Config, payloads: seq<bytes>, tail: bytes, w: World)
    requires env.z.Lawful() && AllFit(env, cfg.version, START, payloads) && CutFrame(tail).Short?
    requires EntersLogin(w, Emitted(env, cfg.version, START, payloads) + tail)
    ensures Follows(env, cfg.version, START, payloads, LoginLoop(env, cfg, w).1.heard)
  {
    var heard := LoginInStep(env, cfg, START, payloads, tail, w);
    assert [] + heard == heard;
  }

  lemma {:induction false} AllFollow(env: Env, v: int, payloads: seq<bytes>, heard: seq<Heard>)
    requires Follows(env, v, START, payloads, heard)
    ensures |heard| <= |payloads| + 1
    ensures forall i :: 0 <= i < |heard| && i < |payloads| ==> Delivered(env, v, payloads, i, heard[i])
    ensures |heard| == |payloads| + 1 ==> heard[|payloads|].outcome == Failed
  {
    forall i | 0 <= i < |heard|
      ensures i <= |payloads|
      ensures i < |payloads| ==> Delivered(env, v, payloads, i, heard[i])
      ensures i == |payloads| ==> heard[i].outcome == Failed
    {
      FollowsAt(env, v, START, payloads, heard, i);
    }
    if |heard| > |payloads| + 1 {
      FollowsAt(env, v, START, payloads, heard, |payloads| + 1);
      assert false;
    }
  }
}
