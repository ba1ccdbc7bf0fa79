/** The Client of client.go: connecting, the status query, joining, chatting, and the keep-alive
    answer of the read loop, over the connection object. */
module Client {
  import opened Wire
  import opened Packets
  import opened Registry
  import opened Framing
  import opened Session
  import opened Connection
  import opened Listening
  import opened Traces
  import PacketLaws

  /** A loop turn that gave verdict r, if any, and left world w, is the turn t. */
  ghost predicate IsTurn(r: Option<Verdict>, w: World, t: Turn)
  {
    t == if r.Some? then Return(r.value, w) else Again(w)
  }

  /** The text is that of the first read. */
  lemma {:induction false} AnswerText(env: Env, cfg: Config, w: World, now: int64)
    requires w.heard == []
    ensures var (r, w1) := StatusAnswer(env, cfg, w, now);
            var o := Hear(env, cfg.version, w).0;
            StatusText(r, w1) == if r == Nil && o.Got? && o.packet.ClientboundStatusResponse? then o.packet.json else []
  {
  }

  class Client {
    const env: Env
    const cfg: Config
    const store: Store
    var conn: Conn?
    /** What the read loop has put on the event channel. */
    var emitted: seq<Event>
    /** Whether the read loop's context is cancelled. */
    var cancelled: bool

    ghost predicate Valid()
      reads this, store, conn, if conn != null then {conn.output} else {}
    {
      && store.Valid() && store.initial == env.defs
      && (conn != null ==> conn.store == store && conn.env == env && conn.version == cfg.version && conn.Valid())
    }

    ghost predicate Connected()
      reads this, store, conn, if conn != null then {conn.output} else {}
    {
      Valid() && conn != null
    }

    constructor (env: Env, cfg: Config, store: Store)
      requires store.Valid() && store.initial == env.defs
      ensures Valid() && conn == null && this.env == env && this.cfg == cfg && this.store == store
    {
      this.env := env;
      this.cfg := cfg;
      this.store := store;
      this.conn := null;
      this.emitted := [];
      this.cancelled := false;
    }

    /** Close: the connection is closed and forgotten. */
    method Close()
      requires Valid()
      modifies this`conn, conn
      ensures Valid() && conn == null
      ensures old(conn) != null ==> old(conn).closed
    {
      if conn == null {
        return;
      }
      conn.Close();
      conn := null;
    }

    /** Connect: an old connection is closed first; dialling either fails or yields the bytes the server
        will ever send. */
    method Connect(dialled: Option<bytes>) returns (ok: bool)
      requires Valid()
      modifies this`conn, conn
      ensures Valid() && ok == dialled.Some?
      ensures old(conn) != null ==> old(conn).closed
      ensures ok ==> conn != null && fresh(conn) && fresh(conn.input) && fresh(conn.output)
      ensures ok ==> conn.World() == Fresh(dialled.value) && !conn.closed
      ensures !ok ==> conn == null
    {
      if conn != null {
        Close();
      }
      if dialled.None? {
        return false;
      }
      conn := new Conn(env, cfg.version, store, dialled.value);
      ok := true;
    }

    /** What sending may change: the traces and the outbound bytes of the connection, if there is one,
        and the registry cache. */
    ghost function Outbound(): set<object>
      reads this
    {
      if conn != null then {conn, conn.output, store} else {store}
    }

    method SendHandshake(next: State) returns (v: Verdict)
      requires Valid()
      modifies Outbound()
      ensures Valid() && conn == old(conn)
      ensures conn == null ==> v == Error
      ensures conn != null ==> (v, conn.World()) == Session.SendHandshake(env, cfg, old(conn.World()), next)
    {
      if conn == null {
        return Error;
      }
      var d := store.GetDefinition(cfg.version);
      if d.None? {
        return Panicked;
      }
      var ok := conn.WritePacket(ServerboundHandshake(d.value.protocol, cfg.host, cfg.port, StateNumber(next)));
      v := if ok then Nil else Error;
    }

    method SendLogin() returns (v: Verdict)
      requires Valid()
      modifies Outbound()
      ensures Valid() && conn == old(conn)
      ensures conn == null ==> v == Error
      ensures conn != null ==> (v, conn.World()) == Session.SendLogin(env, cfg, old(conn.World()))
    {
      if conn == null {
        return Error;
      }
      if cfg.username == [] {
        return Error;
      }
      var uuid := cfg.uuid;
      if uuid == NIL_UUID && cfg.version >= V1_19_2 {
        var hash := env.sha1(OFFLINE_PREFIX + cfg.username);
        if |hash| == 20 {
          uuid := PacketLaws.OfflineUUID(hash);
        }
      }
      var ok := conn.WritePacket(ServerboundLoginStart(cfg.username, uuid));
      v := if ok then Nil else Error;
    }

    method SendClientSettings() returns (ok: bool)
      requires Valid()
      modifies Outbound()
      ensures Valid() && conn == old(conn)
      ensures conn == null ==> !ok
      ensures conn != null ==>
                (ok, conn.World()) == Send(env, cfg.version, old(conn.World()), ServerboundClientSettings(cfg.settings))
    {
      if conn == null {
        return false;
      }
      ok := conn.WritePacket(ServerboundClientSettings(cfg.settings));
    }

    method WriteOne(p: Packet) returns (ok: bool)
      requires Connected() && Encodable(p)
      modifies conn, conn.output, store
      ensures Connected() && (ok, conn.World()) == SendAll(env, cfg.version, old(conn.World()), [p])
    {
      SendAllOne(env, cfg.version, conn.World(), p);
      ok := conn.WritePacket(p);
    }

    /** The replies in the type switch of handleConfiguration. */
    method Answer(p: Packet) returns (ok: bool)
      requires Connected()
      modifies conn, conn.output, store
      ensures Connected() && (ok, conn.World()) == SendAll(env, cfg.version, old(conn.World()), Reply(cfg, p))
    {
      ghost var replies := Reply(cfg, p);
      ok := true;
      match p {
        case ClientboundConfigKeepAlive(id) =>
          assert replies == [ServerboundConfigKeepAlive(id)];
          ok := WriteOne(ServerboundConfigKeepAlive(id));
        case ClientboundCustomPayload(channel, _) =>
          if channel == BRAND_CHANNEL {
            ok := WriteOne(ServerboundCustomPayload(BRAND_CHANNEL, EncBytes(cfg.brand)));
          } else {
            assert replies == [];
          }
        case ClientboundSelectKnownPacks(_) =>
          ok := AnswerKnownPacks();
        case ClientboundFinishConfiguration =>
          if cfg.version < V1_21_3 {
            ok := WriteOne(ServerboundFinishConfiguration);
          } else {
            assert replies == [];
          }
        case ClientboundCookieRequest(key) =>
          assert replies == [ServerboundCookieResponse(key, None)];
          ok := WriteOne(ServerboundCookieResponse(key, None));
        case _ =>
          assert replies == [];
      }
    }

    /** From 1.21.3 on the known-packs answer is followed by finish-configuration. */
    method AnswerKnownPacks() returns (ok: bool)
      requires Connected()
      modifies conn, conn.output, store
      ensures Connected()
      ensures (ok, conn.World()) == SendAll(env, cfg.version, old(conn.World()), Reply(cfg, ClientboundSelectKnownPacks([])))
    {
      SendAllOne(env, cfg.version, conn.World(), ServerboundSelectKnownPacks([]));
      SendAllTwo(env, cfg.version, conn.World(), ServerboundSelectKnownPacks([]), ServerboundFinishConfiguration);
      ok := conn.WritePacket(ServerboundSelectKnownPacks([]));
      if ok && cfg.version >= V1_21_3 {
        ok := conn.WritePacket(ServerboundFinishConfiguration);
      }
    }

    method HandleConfiguration() returns (v: Verdict)
      requires Connected()
      modifies conn, conn.input, conn.output, store
      ensures Connected() && (v, conn.World()) == Session.HandleConfiguration(env, cfg, old(conn.World()))
    {
      var sent := SendClientSettings();
      if !sent {
        return Error;
      }
      ghost var start := conn.World();
      while true
        invariant Connected()
        invariant ConfigurationLoop(env, cfg, start) == ConfigurationLoop(env, cfg, conn.World())
        decreases |conn.input.unread|
      {
        var r := TakeConfigurationPacket();
        if r.Some? {
          return r.value;
        }
      }
    }

    /** One turn of the loop of handleConfiguration: a verdict when it returns. */
    method TakeConfigurationPacket() returns (r: Option<Verdict>)
      requires Connected()
      modifies conn, conn.input, conn.output, store
      ensures Connected() && IsTurn(r, conn.World(), ConfigurationTurn(env, cfg, old(conn.World())))
    {
      var o := conn.ReadPacket();
      match o {
        case Failed => r := Some(Error);
        case Crashed => r := Some(Panicked);
        case Unknown => r := None;
        case Got(p) =>
          var ok := Answer(p);
          if !ok || p.ClientboundDisconnect? {
            return Some(Error);
          }
          if p.ClientboundFinishConfiguration? {
            conn.SetState(Play);
            return Some(Nil);
          }
          r := None;
      }
    }

    /** Join */
    method Join(dialled: Option<bytes>) returns (v: Verdict)
      requires Valid()
      modifies this`conn, conn, store
      ensures Valid()
      ensures old(conn) != null ==> old(conn).closed
      ensures dialled.None? ==> v == Error && conn == null
      ensures dialled.Some? ==> conn != null && fresh(conn) && (v, conn.World()) == Session.Join(env, cfg, dialled.value)
    {
      var ok := Connect(dialled);
      if !ok {
        return Error;
      }
      v := JoinConnected(dialled.value);
    }

    /** Join from the fresh connection on. */
    method JoinConnected(ghost input: bytes) returns (v: Verdict)
      requires Connected() && conn.World() == Fresh(input)
      modifies conn, conn.input, conn.output, store
      ensures Connected() && (v, conn.World()) == Session.Join(env, cfg, input)
    {
      v := SendHandshake(Login);
      if v != Nil {
        return;
      }
      conn.SetState(Login);
      v := SendLogin();
      if v != Nil {
        return;
      }
      v := LoginPhase();
    }

    /** The loop of Join. */
    method LoginPhase() returns (v: Verdict)
      requires Connected()
      modifies conn, conn.input, conn.output, store
      ensures Connected() && (v, conn.World()) == LoginLoop(env, cfg, old(conn.World()))
    {
      ghost var start := conn.World();
      while true
        invariant Connected()
        invariant LoginLoop(env, cfg, start) == LoginLoop(env, cfg, conn.World())
        decreases |conn.input.unread|
      {
        var r := TakeLoginPacket();
        if r.Some? {
          return r.value;
        }
      }
    }

    /** One turn of the loop of Join: a verdict when it returns. */
    method TakeLoginPacket() returns (r: Option<Verdict>)
      requires Connected()
      modifies conn, conn.input, conn.output, store
      ensures Connected() && IsTurn(r, conn.World(), LoginTurn(env, cfg, old(conn.World())))
    {
      var o := conn.ReadPacket();
      match o {
        case Failed => r := Some(Error);
        case Unknown => r := Some(Error);
        case Crashed => r := Some(Panicked);
        case Got(p) => r := ReactToLogin(p);
      }
    }

    /** The type switch of Join. */
    method ReactToLogin(p: Packet) returns (r: Option<Verdict>)
      requires Connected()
      modifies conn, conn.input, conn.output, store
      ensures Connected() && IsTurn(r, conn.World(), LoginPacket(env, cfg, old(conn.World()), p))
    {
      ghost var w := conn.World();
      ghost var turn := LoginPacket(env, cfg, w, p);
      r := None;
      match p {
        case ClientboundSetCompression(threshold) =>
          assert turn == Again(w.(threshold := threshold));
          conn.SetCompression(threshold);
        case ClientboundDisconnect(_) =>
          assert turn == Return(Error, w);
          r := Some(Error);
        case ClientboundLoginSuccess(_, _) =>
          assert turn == Return(LoggedIn(env, cfg, w).0, LoggedIn(env, cfg, w).1);
          var v := Accepted();
          r := Some(v);
        case ClientboundJoinGame =>
          assert turn == Return(Nil, w);
          r := Some(Nil);
        case ClientboundKeepAlive(id) =>
          r := EchoInLogin(id);
        case _ =>
          assert turn == Again(w);
      }
    }

    /** The keep-alive case of Join. */
    method EchoInLogin(id: int64) returns (r: Option<Verdict>)
      requires Connected()
      modifies conn, conn.output, store
      ensures Connected()
      ensures var (ok, w) := Send(env, cfg.version, old(conn.World()), ServerboundKeepAlive(id));
              conn.World() == w && r == if ok then None else Some(Error)
    {
      var ok := conn.WritePacket(ServerboundKeepAlive(id));
      r := if ok then None else Some(Error);
    }

    /** The login-success case of Join. */
    method Accepted() returns (v: Verdict)
      requires Connected()
      modifies conn, conn.input, conn.output, store
      ensures Connected() && (v, conn.World()) == LoggedIn(env, cfg, old(conn.World()))
    {
      if cfg.version >= V1_20_2 {
        var ok := conn.WritePacket(ServerboundLoginAcknowledged);
        if !ok {
          return Error;
        }
        conn.SetState(Configuration);
        v := HandleConfiguration();
      } else {
        conn.SetState(Play);
        var ok := SendClientSettings();
        v := if ok then Nil else Error;
      }
    }

    method GetStatus(dialled: Option<bytes>, now: int64) returns (v: Verdict, text: bytes)
      requires Valid()
      modifies this`conn, conn, store
      ensures Valid()
      ensures old(conn) != null ==> old(conn).closed
      ensures dialled.None? ==> v == Error && text == [] && conn == null
      ensures dialled.Some? ==> conn != null && fresh(conn) && (v, conn.World()) == Session.GetStatus(env, cfg, dialled.value, now)
      ensures dialled.Some? ==> text == StatusText(v, conn.World())
    {
      var ok := Connect(dialled);
      if !ok {
        return Error, [];
      }
      v, text := GetStatusConnected(dialled.value, now);
    }

    /** GetStatus from the fresh connection on. */
    method GetStatusConnected(ghost input: bytes, now: int64) returns (v: Verdict, text: bytes)
      requires Connected() && conn.World() == Fresh(input)
      modifies conn, conn.input, conn.output, store
      ensures Connected() && (v, conn.World()) == Session.GetStatus(env, cfg, input, now)
      ensures text == StatusText(v, conn.World())
    {
      text := [];
      v := SendHandshake(Status);
      if v != Nil {
        return;
      }
      conn.SetState(Status);
      var ok := conn.WritePacket(ServerboundStatusRequest);
      if !ok {
        return Error, [];
      }
      v, text := ReadStatus(now);
    }

    /** The answers to the status request and to the ping. */
    method ReadStatus(now: int64) returns (v: Verdict, text: bytes)
      requires Connected() && conn.heard == []
      modifies conn, conn.input, conn.output, store
      ensures Connected() && (v, conn.World()) == StatusAnswer(env, cfg, old(conn.World()), now)
      ensures text == StatusText(v, conn.World())
    {
      AnswerText(env, cfg, conn.World(), now);
      var o := conn.ReadPacket();
      v, text := ReactToStatus(o, now);
    }

    /** What the first answer leads to: the ping, if it is a status response. */
    method ReactToStatus(o: Outcome, now: int64) returns (v: Verdict, text: bytes)
      requires Connected()
      modifies conn, conn.input, conn.output, store
      ensures Connected() && (v, conn.World()) == StatusReaction(env, cfg, old(conn.World()), o, now)
      ensures text == if v == Nil && o.Got? && o.packet.ClientboundStatusResponse? then o.packet.json else []
    {
      text := [];
      if o.Crashed? {
        return Panicked, [];
      }
      if !(o.Got? && o.packet.ClientboundStatusResponse?) {
        return Error, [];
      }
      v := Ping(now);
      if v == Nil {
        text := o.packet.json;
      }
    }

    method Ping(now: int64) returns (v: Verdict)
      requires Valid()
      modifies Outbound(), if conn != null then {conn.input} else {}
      ensures Valid() && conn == old(conn)
      ensures conn == null ==> v == Error
      ensures conn != null ==> (v, conn.World()) == Session.Ping(env, cfg, old(conn.World()), now)
    {
      if conn == null {
        return Error;
      }
      var ok := conn.WritePacket(ServerboundPing(now));
      if !ok {
        return Error;
      }
      var o := conn.ReadPacket();
      v := if o.Crashed? then Panicked else if o.Got? && o.packet.ClientboundPong? then Nil else Error;
    }

    /** Chat: refused without a connection and outside the play state. The trailer is what signing
        produced. */
    method Chat(message: bytes, trailer: bytes) returns (ok: bool)
      requires Valid()
      modifies Outbound()
      ensures Valid() && conn == old(conn)
      ensures conn == null ==> !ok
      ensures conn != null && old(conn.state) == Play ==>
                (ok, conn.World()) == Send(env, cfg.version, old(conn.World()), ServerboundChatMessage(message, trailer))
      ensures conn != null && old(conn.state) != Play ==> !ok && conn.World() == old(conn.World())
    {
      if conn == null || conn.state != Play {
        return false;
      }
      ok := conn.WritePacket(ServerboundChatMessage(message, trailer));
    }

    /** handlePacket, with the event channel there. */
    method HandlePacket(p: Packet)
      requires Connected()
      modifies this`emitted, this`cancelled, conn, conn.output, store
      ensures Connected()
      ensures var (w, events, stop) := Handle(env, cfg.version, old(conn.World()), p);
              conn.World() == w && emitted == old(emitted) + events && cancelled == (old(cancelled) || stop)
    {
      ghost var w := conn.World();
      ghost var t := Handle(env, cfg.version, w, p);
      match p {
        case ClientboundKeepAlive(id) =>
          assert t == (Send(env, cfg.version, w, ServerboundKeepAlive(id)).1, [KeepAliveEvent(id)], false);
          var ok := conn.WritePacket(ServerboundKeepAlive(id));
          emitted := emitted + [KeepAliveEvent(id)];
        case ClientboundDisconnect(reason) =>
          assert t == (w, [DisconnectEvent(Some(reason))], true);
          emitted := emitted + [DisconnectEvent(Some(reason))];
          cancelled := true;
        case _ =>
          assert t == (w, [], false);
      }
    }

    /** One turn of readLoop: whether it returns. */
    method ReadAndHandle() returns (done: bool)
      requires Connected() && !cancelled
      modifies this`emitted, this`cancelled, conn, conn.input, conn.output, store
      ensures Connected()
      ensures var (w, events, stop) := ReadTurn(env, cfg.version, old(conn.World()));
              conn.World() == w && emitted == old(emitted) + events && (done || cancelled) == stop
    {
      var o := conn.ReadPacket();
      done := false;
      match o {
        case Unknown =>
        case Crashed => done := true;
        case Failed =>
          emitted := emitted + [DisconnectEvent(None)];
          done := true;
        case Got(p) => HandlePacket(p);
      }
    }

    /** readLoop, whose context is cancelled by the loop itself, or from outside once the given turns
        are over. */
    method ReadLoop(cancel: Patience)
      requires Connected() && !cancelled
      modifies this`emitted, this`cancelled, conn, conn.input, conn.output, store
      ensures Connected()
      ensures conn.World() == Listening.ReadLoop(env, cfg.version, old(conn.World()), cancel).0
      ensures emitted == old(emitted) + Listening.ReadLoop(env, cfg.version, old(conn.World()), cancel).1
    {
      ghost var (end, events) := Listening.ReadLoop(env, cfg.version, conn.World(), cancel);
      ghost var ahead := events;
      var left := cancel;
      while left != Some(0) && !cancelled
        invariant Connected()
        invariant if cancelled then conn.World() == end && ahead == [] else Ahead(env, cfg.version, conn.World(), left, end, ahead)
        invariant emitted + ahead == old(emitted) + events
        decreases !cancelled, |conn.input.unread|
      {
        var fewer := Fewer(left);
        AheadTurn(env, cfg.version, conn.World(), left, fewer, end, ahead);
        ghost var now := ReadTurn(env, cfg.version, conn.World()).1;
        Assoc(emitted, now, ahead[|now|..]);
        var done := ReadAndHandle();
        left := fewer;
        ahead := ahead[|now|..];
        if done {
          assert emitted + [] == emitted;
          return;
        }
      }
      assert emitted + [] == emitted;
    }
  }
}
