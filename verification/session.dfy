/** Joining a server (client.go), as recursive functions over the inbound bytes: a world of
    connection state, bytes and traces goes in, a verdict and the next world come out. */
module Session {
  import opened Wire
  import opened Packets
  import opened Registry
  import opened Framing
  import PacketLaws

  /** What the client library is built on: compression, the start-up registry, SHA-1. */
  datatype Env = Env(z: Zlib, defs: Defs, sha1: bytes -> bytes)
  {
    ghost predicate Lawful()
    {
      z.Lawful() && forall d: bytes :: |sha1(d)| == 20
    }
  }

  /** The client's options. */
  datatype Config = Config(
    version: int, brand: bytes, username: bytes, uuid: UUID, settings: ClientSettings, host: bytes, port: uint16)

  /** A packet given to WritePacket, with the state and threshold of that moment. */
  datatype Sent = Sent(state: State, threshold: int, packet: Packet)

  /** What one ReadPacket returned, likewise. */
  datatype Heard = Heard(state: State, threshold: int, outcome: Outcome)

  datatype World = World(
    state: State,
    threshold: int,
    input: bytes,
    sent: seq<Sent>,
    heard: seq<Heard>,
    states: seq<State>)

  /** nil, an error, or a panic that ends the process. */
  datatype Verdict = Nil | Error | Panicked

  /** A connection just dialled: protocol.NewConn. */
  function Fresh(input: bytes): World { World(Handshaking, -1, input, [], [], [Handshaking]) }

  // ---------------------------------------------------------------- single calls

  function Payload(id: int32, p: Packet, v: int): bytes
    requires Encodable(p)
  {
    EncVarInt(id) + Encode(p, v)
  }

  /** WritePacket: an error when the type has no ID in the current state. */
  function Send(env: Env, v: int, w: World, p: Packet): (bool, World)
    requires Encodable(p)
  {
    (IdFor(env.defs, v, Slot(w.state, Serverbound), KindOf(p)).Some?,
     w.(sent := w.sent + [Sent(w.state, w.threshold, p)]))
  }

  /** What a call to WritePacket puts on the wire: a frame, or nothing without an ID. */
  function SentBytes(env: Env, v: int, x: Sent): bytes
  {
    var id := IdFor(env.defs, v, Slot(x.state, Serverbound), KindOf(x.packet));
    if id.None? || !Encodable(x.packet) then [] else Frame(env.z, x.threshold, Payload(id.value, x.packet, v))
  }

  /** The bytes on the wire after some calls to WritePacket. */
  function Output(env: Env, v: int, sent: seq<Sent>): bytes
  {
    if sent == [] then [] else Output(env, v, sent[..|sent| - 1]) + SentBytes(env, v, sent[|sent| - 1])
  }

  lemma {:induction false} OutputSnoc(env: Env, v: int, sent: seq<Sent>, x: Sent)
    ensures Output(env, v, sent + [x]) == Output(env, v, sent) + SentBytes(env, v, x)
  {
    assert (sent + [x])[..|sent + [x]| - 1] == sent;
  }

  /** ReadPacket */
  function Hear(env: Env, v: int, w: World): (r: (Outcome, World))
    ensures w.input != [] ==> |r.1.input| < |w.input|
    ensures w.input == [] ==> r.0 == Failed
  {
    var (o, rest) := Receive(env.z, env.defs, v, w.state, w.threshold, w.input);
    (o, w.(input := rest, heard := w.heard + [Heard(w.state, w.threshold, o)]))
  }

  function SetState(w: World, s: State): World { w.(state := s, states := w.states + [s]) }

  /** Sends in a row, up to the first one that fails. */
  function SendAll(env: Env, v: int, w: World, ps: seq<Packet>): (bool, World)
    requires forall p :: p in ps ==> Encodable(p)
    decreases |ps|
  {
    if ps == [] then (true, w)
    else
      var (ok, w1) := Send(env, v, w, ps[0]);
      if ok then SendAll(env, v, w1, ps[1..]) else (false, w1)
  }

  // ---------------------------------------------------------------- handshake and login start

  /** SendHandshake asks the registry for the protocol number, and panics when it has none. */
  function SendHandshake(env: Env, cfg: Config, w: World, next: State): (Verdict, World)
  {
    match Nearest(env.defs, cfg.version)
    case None => (Panicked, w)
    case Some(d) =>
      var (ok, w1) := Send(env, cfg.version, w, ServerboundHandshake(d.protocol, cfg.host, cfg.port, StateNumber(next)));
      (if ok then Nil else Error, w1)
  }

  /** "OfflinePlayer:" */
  const OFFLINE_PREFIX: bytes := [79, 102, 102, 108, 105, 110, 101, 80, 108, 97, 121, 101, 114, 58]

  /** The UUID SendLogin puts in the packet: from 1.19.2 on, a derived one stands in for the nil UUID. */
  function LoginUUID(env: Env, cfg: Config): UUID
  {
    var hash := env.sha1(OFFLINE_PREFIX + cfg.username);
    if cfg.uuid == NIL_UUID && cfg.version >= V1_19_2 && |hash| == 20 then PacketLaws.OfflineUUID(hash) else cfg.uuid
  }

  function SendLogin(env: Env, cfg: Config, w: World): (Verdict, World)
  {
    if cfg.username == [] then (Error, w)
    else
      var (ok, w1) := Send(env, cfg.version, w, ServerboundLoginStart(cfg.username, LoginUUID(env, cfg)));
      (if ok then Nil else Error, w1)
  }

  // ---------------------------------------------------------------- configuration

  /** "minecraft:brand" */
  const BRAND_CHANNEL: bytes := [109, 105, 110, 101, 99, 114, 97, 102, 116, 58, 98, 114, 97, 110, 100]

  /** The client's answer to one configuration packet. */
  function Reply(cfg: Config, p: Packet): (ps: seq<Packet>)
    ensures forall q :: q in ps ==> Encodable(q)
  {
    match p
    case ClientboundConfigKeepAlive(id) => [ServerboundConfigKeepAlive(id)]
    case ClientboundCustomPayload(channel, _) =>
      if channel == BRAND_CHANNEL then [ServerboundCustomPayload(BRAND_CHANNEL, EncBytes(cfg.brand))] else []
    case ClientboundSelectKnownPacks(_) =>
      if cfg.version >= V1_21_3 then [ServerboundSelectKnownPacks([]), ServerboundFinishConfiguration]
      else [ServerboundSelectKnownPacks([])]
    case ClientboundFinishConfiguration =>
      if cfg.version < V1_21_3 then [ServerboundFinishConfiguration] else []
    case ClientboundCookieRequest(key) => [ServerboundCookieResponse(key, None)]
    case _ => []
  }

  /** One turn of a loop: it returns, or goes round again. */
  datatype Turn = Return(verdict: Verdict, world: World) | Again(world: World)

  /** One turn of handleConfiguration: an unknown packet is skipped, any other gets its reply, and
      finish or disconnect ends the loop. */
  function ConfigurationTurn(env: Env, cfg: Config, w: World): (t: Turn)
    ensures t.Again? ==> |t.world.input| < |w.input|
  {
    var (o, w1) := Hear(env, cfg.version, w);
    ConfigurationReaction(env, cfg, w1, o)
  }

  function ConfigurationReaction(env: Env, cfg: Config, w: World, o: Outcome): (t: Turn)
    ensures t.world.input == w.input
    ensures t.Again? ==> o != Failed
  {
    match o
    case Failed => Return(Error, w)
    case Crashed => Return(Panicked, w)
    case Unknown => Again(w)
    case Got(p) => Answered(env, cfg, w, p)
  }

  function Answered(env: Env, cfg: Config, w: World, p: Packet): (t: Turn)
    ensures t.world.input == w.input
  {
    var (ok, w1) := SendAll(env, cfg.version, w, Reply(cfg, p));
    SendAllKeepsInput(env, cfg.version, w, Reply(cfg, p));
    if !ok || p.ClientboundDisconnect? then Return(Error, w1)
    else if p.ClientboundFinishConfiguration? then Return(Nil, SetState(w1, Play))
    else Again(w1)
  }

  function ConfigurationLoop(env: Env, cfg: Config, w: World): (Verdict, World)
    decreases |w.input|
  {
    match ConfigurationTurn(env, cfg, w)
    case Return(v, w1) => (v, w1)
    case Again(w1) => ConfigurationLoop(env, cfg, w1)
  }

  lemma {:induction false} SendAllKeepsInput(env: Env, v: int, w: World, ps: seq<Packet>)
    requires forall p :: p in ps ==> Encodable(p)
    ensures SendAll(env, v, w, ps).1.input == w.input && SendAll(env, v, w, ps).1.heard == w.heard
    ensures SendAll(env, v, w, ps).1.state == w.state && SendAll(env, v, w, ps).1.states == w.states
    ensures SendAll(env, v, w, ps).1.threshold == w.threshold
    decreases |ps|
  {
    if ps != [] && Send(env, v, w, ps[0]).0 {
      SendAllKeepsInput(env, v, Send(env, v, w, ps[0]).1, ps[1..]);
    }
  }

  lemma {:induction false} SendAllOne(env: Env, v: int, w: World, p: Packet)
    requires Encodable(p)
    ensures SendAll(env, v, w, [p]) == Send(env, v, w, p)
  {
    var (ok, w1) := Send(env, v, w, p);
    assert SendAll(env, v, w1, []) == (true, w1);
    assert [p][1..] == [];
  }

  lemma {:induction false} SendAllTwo(env: Env, v: int, w: World, p: Packet, q: Packet)
    requires Encodable(p) && Encodable(q)
    ensures SendAll(env, v, w, [p, q]) == var (ok, w1) := Send(env, v, w, p); if ok then Send(env, v, w1, q) else (false, w1)
  {
    SendAllOne(env, v, Send(env, v, w, p).1, q);
    assert [p, q][1..] == [q];
  }

  function HandleConfiguration(env: Env, cfg: Config, w: World): (Verdict, World)
  {
    var (ok, w1) := Send(env, cfg.version, w, ServerboundClientSettings(cfg.settings));
    if ok then ConfigurationLoop(env, cfg, w1) else (Error, w1)
  }

  // ---------------------------------------------------------------- login

  /** What Join does once the server has accepted the login. */
  function LoggedIn(env: Env, cfg: Config, w: World): (Verdict, World)
  {
    if cfg.version >= V1_20_2 then
      var (ok, w1) := Send(env, cfg.version, w, ServerboundLoginAcknowledged);
      if ok then HandleConfiguration(env, cfg, SetState(w1, Configuration)) else (Error, w1)
    else
      var (ok, w1) := Send(env, cfg.version, SetState(w, Play), ServerboundClientSettings(cfg.settings));
      (if ok then Nil else Error, w1)
  }

  /** One turn of the loop of Join: here an unknown packet is an error. */
  function LoginTurn(env: Env, cfg: Config, w: World): (t: Turn)
    ensures t.Again? ==> |t.world.input| < |w.input|
  {
    var (o, w1) := Hear(env, cfg.version, w);
    LoginReaction(env, cfg, w1, o)
  }

  function LoginReaction(env: Env, cfg: Config, w: World, o: Outcome): (t: Turn)
    ensures t.Again? ==> t.world.input == w.input && o != Failed
  {
    match o
    case Failed => Return(Error, w)
    case Unknown => Return(Error, w)
    case Crashed => Return(Panicked, w)
    case Got(p) => LoginPacket(env, cfg, w, p)
  }

  function LoginPacket(env: Env, cfg: Config, w: World, p: Packet): (t: Turn)
    ensures t.Again? ==> t.world.input == w.input
  {
    match p
    case ClientboundSetCompression(threshold) => Again(w.(threshold := threshold))
    case ClientboundDisconnect(_) => Return(Error, w)
    case ClientboundLoginSuccess(_, _) =>
      var (v, w1) := LoggedIn(env, cfg, w);
      Return(v, w1)
    case ClientboundJoinGame => Return(Nil, w)
    case ClientboundKeepAlive(id) =>
      var (ok, w1) := Send(env, cfg.version, w, ServerboundKeepAlive(id));
      if ok then Again(w1) else Return(Error, w1)
    case _ => Again(w)
  }

  function LoginLoop(env: Env, cfg: Config, w: World): (Verdict, World)
    decreases |w.input|
  {
    match LoginTurn(env, cfg, w)
    case Return(v, w1) => (v, w1)
    case Again(w1) => LoginLoop(env, cfg, w1)
  }

  /** Join on a connection that has just been dialled. */
  function Join(env: Env, cfg: Config, input: bytes): (Verdict, World)
  {
    var (v1, w1) := SendHandshake(env, cfg, Fresh(input), Login);
    if v1 != Nil then (v1, w1)
    else
      var (v2, w2) := SendLogin(env, cfg, SetState(w1, Login));
      if v2 != Nil then (v2, w2) else LoginLoop(env, cfg, w2)
  }

  // ---------------------------------------------------------------- status

  /** GetStatus up to and including the ping round trip; now is the clock reading it sends. */
  function GetStatus(env: Env, cfg: Config, input: bytes, now: int64): (Verdict, World)
  {
    var (v1, w1) := SendHandshake(env, cfg, Fresh(input), Status);
    if v1 != Nil then (v1, w1)
    else
      var (ok, w2) := Send(env, cfg.version, SetState(w1, Status), ServerboundStatusRequest);
      if ok then StatusAnswer(env, cfg, w2, now) else (Error, w2)
  }

  /** The text GetStatus hands back: that of the status response, once the ping has succeeded too. */
  function StatusText(r: Verdict, w: World): bytes
  {
    if r == Nil && w.heard != [] && w.heard[0].outcome.Got? && w.heard[0].outcome.packet.ClientboundStatusResponse?
    then w.heard[0].outcome.packet.json else []
  }

  function StatusAnswer(env: Env, cfg: Config, w: World, now: int64): (Verdict, World)
  {
    var (o, w1) := Hear(env, cfg.version, w);
    StatusReaction(env, cfg, w1, o, now)
  }

  function StatusReaction(env: Env, cfg: Config, w: World, o: Outcome, now: int64): (Verdict, World)
  {
    if o.Crashed? then (Panicked, w)
    else if !(o.Got? && o.packet.ClientboundStatusResponse?) then (Error, w)
    else Ping(env, cfg, w, now)
  }

  function Ping(env: Env, cfg: Config, w: World, now: int64): (Verdict, World)
  {
    var (ok, w1) := Send(env, cfg.version, w, ServerboundPing(now));
    if !ok then (Error, w1)
    else
      var (o, w2) := Hear(env, cfg.version, w1);
      (if o.Crashed? then Panicked else if o.Got? && o.packet.ClientboundPong? then Nil else Error, w2)
  }
}
