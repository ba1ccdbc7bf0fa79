/** The mutable ends of a connection: a reader with a cursor and an append-only writer, with
    the loops of protocol/protocol.go that consume and fill them. */
module Streams {
  import opened Wire

  /** What a Go decoding call hands back: a value, an error, or a panic. */
  datatype Res<+T> = Val(value: T) | Err | Crash

  /** A call that returned res and left `after` unread did what the parse p says. The position
      after an error is not constrained: every caller gives up on the data then. */
  predicate Did<T(==)>(res: Res<T>, after: bytes, p: Parse<T>)
  {
    match p
    case Ok(v, rest) => res == Val(v) && after == rest
    case Fail => res == Err
    case Panic => res == Crash
  }

  /** An io.Reader: the bytes still to come. They end in io.EOF when clean, and in a
      decompression error otherwise. */
  class Reader {
    const clean: bool
    var unread: bytes

    constructor (data: bytes, clean: bool)
      ensures this.unread == data && this.clean == clean
    {
      this.unread := data;
      this.clean := clean;
    }

    method ReadByte() returns (res: Res<byte>)
      modifies this`unread
      ensures Did(res, unread, DecByte(old(unread)))
      ensures res.Err? ==> unread == []
    {
      if unread == [] {
        return Err;
      }
      res := Val(unread[0]);
      unread := unread[1..];
    }

    /** io.ReadFull of n bytes: on a short read everything has been consumed. */
    method ReadFull(n: nat) returns (res: Res<bytes>)
      modifies this`unread
      ensures Did(res, unread, if n <= |old(unread)| then Ok(old(unread)[..n], old(unread)[n..]) else Fail)
      ensures res.Err? ==> unread == []
    {
      if n > |unread| {
        unread := [];
        return Err;
      }
      res := Val(unread[..n]);
      unread := unread[n..];
    }

    /** The seven-bit groups are accumulated at bit position 7 * i of a 32-bit word. */
    method ReadVarInt() returns (res: Res<int32>)
      modifies this`unread
      ensures Did(res, unread, DecVarInt(old(unread)))
      ensures res.Err? ==> unread == VarIntLeftover(old(unread))
    {
      ghost var s := unread;
      var val: uint32 := 0;
      var shift: nat := 0;
      var i := 0;
      while i < MAX_VARINT
        invariant 0 <= i <= MAX_VARINT
        invariant Continues(s, i, val) && shift == 7 * i
        invariant unread == s[i..]
      {
        var b := ReadByte();
        if b.Err? {
          VarIntGivesUp(s, i, val);
          return Err;
        }
        VarIntStep(s, i, val);
        val := Wrap32(val + ShiftLeft(b.value % 128, shift));
        if b.value < 128 {
          return Val(ToI32(val));
        }
        i := i + 1;
        shift := shift + 7;
      }
      VarIntGivesUp(s, i, val);
      res := Err;
    }

    method ReadBytes() returns (res: Res<bytes>)
      modifies this`unread
      ensures Did(res, unread, DecBytes(old(unread)))
      ensures unread == SkipBytes(old(unread))
    {
      var length := ReadVarInt();
      if !length.Val? || length.value < 0 || length.value > MAX_DATA {
        return Err;
      }
      res := ReadFull(length.value);
    }

    /** ReadBytes with its error dropped. */
    method ReadBytesPadded() returns (data: bytes)
      modifies this`unread
      ensures data == DecBytesPadded(old(unread)) && unread == SkipBytes(old(unread))
    {
      var length := ReadVarInt();
      if !length.Val? || length.value < 0 || length.value > MAX_DATA {
        return [];
      }
      var n: nat := length.value;
      if n > |unread| {
        data := unread + Zeros(n - |unread|);
        unread := [];
        return;
      }
      var buffer := ReadFull(n);
      data := buffer.value;
    }

    /** io.ReadAll: what is left, unless the data ends in a decompression error. */
    method ReadAll() returns (res: Res<bytes>)
      modifies this`unread
      ensures unread == []
      ensures res == if clean then Val(old(unread)) else Err
    {
      res := if clean then Val(unread) else Err;
      unread := [];
    }

    method ReadLong() returns (res: Res<int64>)
      modifies this`unread
      ensures Did(res, unread, DecLong(old(unread)))
    {
      var b := ReadFull(8);
      if !b.Val? {
        return Err;
      }
      BigEndianBound(b.value);
      Pow256Eight();
      res := Val(Signed(BigEndian(b.value), TWO64));
    }

    method ReadInt() returns (res: Res<int32>)
      modifies this`unread
      ensures Did(res, unread, DecInt(old(unread)))
    {
      var b := ReadFull(4);
      if !b.Val? {
        return Err;
      }
      BigEndianBound(b.value);
      Pow256Eight();
      res := Val(Signed(BigEndian(b.value), TWO32));
    }

    method ReadUShort() returns (res: Res<uint16>)
      modifies this`unread
      ensures unread == if |old(unread)| < 2 then [] else old(unread)[2..]
      ensures |old(unread)| < 2 ==> res == Err
      ensures |old(unread)| >= 2 ==> res.Val? && res.value == BigEndian(old(unread)[..2])
    {
      var b := ReadFull(2);
      if !b.Val? {
        return Err;
      }
      BigEndianBound(b.value);
      Pow256Eight();
      res := Val(BigEndian(b.value));
    }

    method ReadBool() returns (res: Res<bool>)
      modifies this`unread
      ensures Did(res, unread, DecBool(old(unread)))
      ensures (res == Val(true), unread) == DecBoolLax(old(unread))
    {
      var b := ReadByte();
      res := if b.Val? then Val(b.value != 0) else Err;
    }
  }

  /** An io.Writer that only grows: a byte buffer, or the sending side of a socket. */
  class Writer {
    var out: bytes

    constructor ()
      ensures out == []
    {
      out := [];
    }

    method WriteByte(b: byte)
      modifies this
      ensures out == old(out) + [b]
    {
      out := out + [b];
    }

    method Write(d: bytes)
      modifies this
      ensures out == old(out) + d
    {
      out := out + d;
    }

    /** One byte at a time, low groups first. */
    method WriteVarInt(v: int32)
      modifies this
      ensures out == old(out) + EncVarInt(v)
    {
      var uv: uint32 := ToU32(v);
      while uv >= 128
        invariant out + EncU32(uv) == old(out) + EncVarInt(v)
        decreases uv
      {
        ghost var before := out;
        WriteByte(uv % 128 + 128);
        uv := uv / 128;
        assert out + EncU32(uv) == before + ([out[|out| - 1]] + EncU32(uv));
      }
      WriteByte(uv);
    }

    method WriteBytes(d: bytes)
      modifies this
      ensures out == old(out) + EncBytes(d)
    {
      WriteVarInt(Trunc32(|d|));
      Write(d);
      assert out == old(out) + (EncVarInt(Trunc32(|d|)) + d);
    }

    method WriteLong(v: int64)
      modifies this
      ensures out == old(out) + EncLong(v)
    {
      Write(EncBigEndian(Unsigned(v, TWO64), 8));
    }

    method WriteUShort(v: int)
      requires 0 <= v < 0x1_0000
      modifies this
      ensures out == old(out) + EncUShort(v)
    {
      Write(EncBigEndian(v, 2));
    }

    method WriteBool(b: bool)
      modifies this
      ensures out == old(out) + EncBool(b)
    {
      WriteByte(if b then 1 else 0);
    }
  }
}
