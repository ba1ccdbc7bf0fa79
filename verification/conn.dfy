/** protocol.Conn: the connection object, with its state, its threshold and its two streams. */
module Connection {
  import opened Wire
  import opened Streams
  import opened Packets
  import opened Registry
  import opened Framing
  import opened Session

  import Codec

  class Conn {
    const env: Env
    const version: int
    /** The registry, shared by every connection. */
    const store: Store
    const input: Reader
    const output: Writer

    var state: State
    var threshold: int
    /** Whether the underlying connection has been closed. */
    var closed: bool

    ghost var sent: seq<Sent>
    ghost var heard: seq<Heard>
    ghost var states: seq<State>

    ghost predicate Valid()
      reads this, store, output
    {
      && store.Valid() && store.initial == env.defs
      && output.out == Output(env, version, sent)
    }

    ghost function World(): Session.World
      reads this, input
    {
      Session.World.World(state, threshold, input.unread, sent, heard, states)
    }

    /** NewConn */
    constructor (env: Env, version: int, store: Store, inbound: bytes)
      requires store.Valid() && store.initial == env.defs
      ensures Valid() && World() == Fresh(inbound)
      ensures this.env == env && this.version == version && this.store == store && !closed
      ensures fresh(input) && fresh(output)
    {
      this.env := env;
      this.version := version;
      this.store := store;
      this.input := new Reader(inbound, true);
      this.output := new Writer();
      this.state := Handshaking;
      this.threshold := -1;
      this.closed := false;
      this.sent := [];
      this.heard := [];
      this.states := [Handshaking];
    }

    method SetState(s: State)
      requires Valid()
      modifies this`state, this`states
      ensures Valid() && World() == Session.SetState(old(World()), s)
    {
      state := s;
      states := states + [s];
    }

    method SetCompression(t: int)
      requires Valid()
      modifies this`threshold
      ensures Valid() && World() == old(World()).(threshold := t)
    {
      threshold := t;
    }

    method ReadPacket() returns (o: Outcome)
      requires Valid()
      modifies this`heard, input, store
      ensures Valid() && (o, World()) == Hear(env, version, old(World()))
    {
      var length := input.ReadVarInt();
      if !length.Val? {
        o := Failed;
      } else {
        var buffer := Val([]);
        if length.value > 0 {
          buffer := input.ReadFull(length.value);
        }
        if buffer.Val? {
          o := ReadBody(buffer.value);
        } else {
          o := Failed;
        }
      }
      heard := heard + [Heard(state, threshold, o)];
    }

    /** The part of ReadPacket that works on the buffered frame. */
    method ReadBody(body: bytes) returns (o: Outcome)
      requires Valid()
      modifies store
      ensures Valid()
      ensures o == Interpret(env.z, env.defs, version, state, threshold, body)
    {
      var packetReader := new Reader(body, true);
      var dataReader := packetReader;
      if threshold >= 0 {
        var dataLength := packetReader.ReadVarInt();
        if !dataLength.Val? {
          return Failed;
        }
        if dataLength.value != 0 {
          match env.z.inflate(packetReader.unread) {
            case BadHeader => return Failed;
            case Stream(data, clean) => dataReader := new Reader(data, clean);
          }
        }
      }
      o := ReadData(dataReader);
    }

    /** The packet ID, then the packet. */
    method ReadData(r: Reader) returns (o: Outcome)
      requires Valid()
      modifies store, r
      ensures Valid()
      ensures o == Understand(env.defs, version, state, old(r.unread), r.clean)
    {
      var id := r.ReadVarInt();
      if !id.Val? {
        return Failed;
      }
      var kind := store.NewPacket(version, Slot(state, Clientbound), id.value);
      if kind.None? {
        return Unknown;
      }
      var packet := Codec.Decode(kind.value, r, version);
      o := match packet
           case Val(p) => Got(p)
           case Err => Failed
           case Crash => Crashed;
    }

    method WritePacket(p: Packet) returns (ok: bool)
      requires Valid() && Encodable(p)
      modifies this`sent, output, store
      ensures Valid() && (ok, World()) == Send(env, version, old(World()), p)
    {
      ghost var x := Sent(state, threshold, p);
      OutputSnoc(env, version, sent, x);
      sent := sent + [x];
      var id := store.GetPacketID(version, Slot(state, Serverbound), KindOf(p));
      if id.None? {
        assert output.out + [] == output.out;
        return false;
      }
      var payload := BuildPayload(id.value, p);
      WriteFrame(payload);
      ok := true;
    }

    /** The packet ID and the encoded packet, in a buffer of their own. */
    method BuildPayload(id: int32, p: Packet) returns (payload: bytes)
      requires Encodable(p)
      ensures payload == Payload(id, p, version)
    {
      var dataBuf := new Writer();
      dataBuf.WriteVarInt(id);
      assert dataBuf.out == EncVarInt(id);
      Codec.EncodePacket(dataBuf, p, version);
      payload := dataBuf.out;
    }

    /** The length prefix goes out byte by byte, the body in one write. */
    method WriteFrame(payload: bytes)
      modifies output
      ensures output.out == old(output.out) + Frame(env.z, threshold, payload)
    {
      var finalPayload := new Writer();
      WriteBody(finalPayload, payload);
      ghost var body := finalPayload.out;
      output.WriteVarInt(Trunc32(|finalPayload.out|));
      output.Write(finalPayload.out);
      Append2(old(output.out), EncVarInt(Trunc32(|body|)), body);
    }

    /** The compression part of WritePacket. */
    method WriteBody(w: Writer, payload: bytes)
      requires w.out == []
      modifies w
      ensures w.out == Body(env.z, threshold, payload)
    {
      if threshold >= 0 {
        if |payload| >= threshold {
          w.WriteVarInt(Trunc32(|payload|));
          w.Write(env.z.deflate(payload));
        } else {
          w.WriteVarInt(0);
          w.Write(payload);
        }
      } else {
        w.Write(payload);
      }
    }

    /** Conn.Close */
    method Close()
      requires Valid()
      modifies this`closed
      ensures Valid() && closed
    {
      closed := true;
    }
  }
}
