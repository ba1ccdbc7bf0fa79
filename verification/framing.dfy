/** Frames on the wire (protocol/conn.go): a length prefix, and a body laid out by the compression
    threshold. What one ReadPacket does to the inbound bytes, as a function, and its laws. */
module Framing {
  import opened Wire
  import opened Packets
  import opened Registry

  /** Opening compressed bytes: a bad header, or the data that comes out until the stream ends,
      cleanly or in an error. */
  datatype Inflated = BadHeader | Stream(data: bytes, clean: bool)

  /** The compression library: any pair of functions that undo each other in this direction. */
  datatype Zlib = Zlib(deflate: bytes -> bytes, inflate: bytes -> Inflated)
  {
    ghost predicate Lawful()
    {
      forall d: bytes :: inflate(deflate(d)) == Stream(d, true)
    }
  }

  // ---------------------------------------------------------------- sending

  /** A payload below the threshold is stored after a zero length; from the threshold on it is
      compressed after its own length; a negative threshold turns both off. */
  function Body(z: Zlib, threshold: int, payload: bytes): bytes
  {
    if threshold < 0 then payload
    else if |payload| >= threshold then EncVarInt(Trunc32(|payload|)) + z.deflate(payload)
    else EncVarInt(0) + payload
  }

  function Frame(z: Zlib, threshold: int, payload: bytes): bytes { EncBytes(Body(z, threshold, payload)) }

  // ---------------------------------------------------------------- receiving

  /** One frame cut off the stream. A negative length copies nothing, and succeeds. */
  datatype Cut = Whole(body: bytes, rest: bytes) | Short(rest: bytes)

  function CutFrame(s: bytes): (c: Cut)
    ensures s != [] ==> |c.rest| < |s|
    ensures c.Whole? ==> s != []
  {
    match DecVarInt(s)
    case Ok(n, t) => if n > |t| then Short([]) else if n <= 0 then Whole([], t) else Whole(t[..n], t[n..])
    case Fail => Short(VarIntLeftover(s))
  }

  /** The data a body holds. A compressed body's own data length is only compared with zero. */
  function Open(z: Zlib, threshold: int, body: bytes): Inflated
  {
    if threshold < 0 then Stream(body, true)
    else
      match DecVarInt(body)
      case Ok(n, t) => if n == 0 then Stream(t, true) else z.inflate(t)
      case Fail => BadHeader
  }

  /** What ReadPacket hands its caller: a packet, ErrUnknownPacket, another error, or a panic. */
  datatype Outcome = Got(packet: Packet) | Unknown | Failed | Crashed

  function AsOutcome(p: Parse<Packet>): Outcome
  {
    match p
    case Ok(packet, _) => Got(packet)
    case Fail => Failed
    case Panic => Crashed
  }

  /** A payload read in a given state: its ID picks the type, the type reads the rest. */
  function Understand(defs: Defs, v: int, state: State, data: bytes, clean: bool): Outcome
  {
    match DecVarInt(data)
    case Fail => Failed
    case Ok(id, t) =>
      match KindFor(defs, v, Slot(state, Clientbound), id)
      case None => Unknown
      case Some(k) => AsOutcome(DecodePacket(k, v, t, clean))
  }

  function Interpret(z: Zlib, defs: Defs, v: int, state: State, threshold: int, body: bytes): Outcome
  {
    match Open(z, threshold, body)
    case BadHeader => Failed
    case Stream(data, clean) => Understand(defs, v, state, data, clean)
  }

  /** One ReadPacket on the inbound stream s: its outcome and the stream after it. */
  function Receive(z: Zlib, defs: Defs, v: int, state: State, threshold: int, s: bytes): (r: (Outcome, bytes))
    ensures s != [] ==> |r.1| < |s|
    ensures s == [] ==> r == (Failed, [])
  {
    match CutFrame(s)
    case Short(rest) => (Failed, rest)
    case Whole(body, rest) => (Interpret(z, defs, v, state, threshold, body), rest)
  }

  // ---------------------------------------------------------------- round trip

  lemma {:induction false} CutEncoded(body: bytes, rest: bytes)
    requires |body| < TWO31
    ensures CutFrame(EncBytes(body) + rest) == Whole(body, rest)
  {
    var n := Trunc32(|body|);
    Append2(EncVarInt(n), body, rest);
    VarIntRoundTrip(n, body + rest);
    assert (body + rest)[..|body|] == body && (body + rest)[|body|..] == rest;
  }

  /** A frame whose length does not fit an int32 leaves the stream out of step. */
  lemma {:induction false} CutOversized(body: bytes, rest: bytes)
    requires |body| >= TWO31
    ensures CutFrame(EncBytes(body) + rest).rest != rest
  {
    var n := Trunc32(|body|);
    Append2(EncVarInt(n), body, rest);
    VarIntRoundTrip(n, body + rest);
    Wrap32Below(|body|);
    assert n < |body|;
    assert |CutFrame(EncBytes(body) + rest).rest| >= |body| + |rest| - (if n < 0 then 0 else n);
  }

  /** The layout a payload gets, as a reader of the body finds it: nothing in front with compression off;
      otherwise a data length, which is zero before a payload below the threshold, stored as it is, and
      the payload's own before the compressed form of any other. */
  lemma {:induction false} BodyLayout(z: Zlib, threshold: int, payload: bytes)
    requires |payload| < TWO31
    ensures threshold < 0 ==> Body(z, threshold, payload) == payload
    ensures threshold >= 0 ==>
              DecVarInt(Body(z, threshold, payload)) ==
                if |payload| < threshold then Ok(0, payload) else Ok(|payload|, z.deflate(payload))
  {
    if 0 <= threshold <= |payload| {
      VarIntRoundTrip(|payload|, z.deflate(payload));
    } else if threshold >= 0 {
      VarIntRoundTrip(0, payload);
    }
  }

  /** The stored marker 0 never stands for a compressed body, even at threshold 0: a payload starts
      with a packet ID, so it is not empty. */
  lemma {:induction false} BodyOpens(z: Zlib, threshold: int, payload: bytes)
    requires z.Lawful() && payload != [] && |payload| < TWO31
    ensures Open(z, threshold, Body(z, threshold, payload)) == Stream(payload, true)
  {
    if 0 <= threshold <= |payload| {
      VarIntRoundTrip(Trunc32(|payload|), z.deflate(payload));
    } else if threshold >= 0 {
      VarIntRoundTrip(0, payload);
    }
  }

  /** What is framed is unframed, with the stream left exactly behind it, for every threshold: if and
      only if the laid-out body's length fits an int32. */
  lemma {:induction false} FrameRoundTrip(z: Zlib, threshold: int, payload: bytes, rest: bytes)
    requires z.Lawful() && payload != [] && |payload| < TWO31
    ensures var c := CutFrame(Frame(z, threshold, payload) + rest);
            (c.Whole? && c.rest == rest && Open(z, threshold, c.body) == Stream(payload, true))
              <==> |Body(z, threshold, payload)| < TWO31
  {
    var body := Body(z, threshold, payload);
    if |body| < TWO31 {
      CutEncoded(body, rest);
      BodyOpens(z, threshold, payload);
    } else {
      CutOversized(body, rest);
    }
  }

  /** A whole frame at the head of the stream is received as its payload is understood. */
  lemma {:induction false} ReceiveFrame(z: Zlib, defs: Defs, v: int, state: State, threshold: int, payload: bytes, rest: bytes)
    requires z.Lawful() && payload != [] && |payload| < TWO31 && |Body(z, threshold, payload)| < TWO31
    ensures Receive(z, defs, v, state, threshold, Frame(z, threshold, payload) + rest)
         == (Understand(defs, v, state, payload, true), rest)
  {
    CutEncoded(Body(z, threshold, payload), rest);
    BodyOpens(z, threshold, payload);
  }

  // ---------------------------------------------------------------- resynchronisation

  /** When the length prefix and the body are there, a read takes exactly these, whatever it makes
      of them; and a length that is not positive is always an error. */
  lemma {:induction false} ReceiveResynchronises(z: Zlib, defs: Defs, v: int, state: State, threshold: int, s: bytes)
    requires DecVarInt(s).Ok? && DecVarInt(s).value <= |DecVarInt(s).rest|
    ensures var length := DecVarInt(s).value;
            && Receive(z, defs, v, state, threshold, s).1 == DecVarInt(s).rest[if length < 0 then 0 else length..]
            && (length <= 0 ==> Receive(z, defs, v, state, threshold, s).0 == Failed)
  {
    assert DecVarInt([]) == Fail;
  }

  /** The state and threshold a reader happens to have at each call. */
  datatype Mode = Mode(state: State, threshold: int)

  /** The outcomes of |modes| reads in a row. */
  function ReceiveAll(z: Zlib, defs: Defs, v: int, modes: seq<Mode>, s: bytes): seq<Outcome>
    decreases |modes|
  {
    if modes == [] then []
    else
      var (o, rest) := Receive(z, defs, v, modes[0].state, modes[0].threshold, s);
      [o] + ReceiveAll(z, defs, v, modes[1..], rest)
  }

  /** The stream s starts with complete frames holding these bodies. */
  predicate StartsWith(s: bytes, bodies: seq<bytes>)
    decreases |bodies|
  {
    bodies == [] || (CutFrame(s).Whole? && CutFrame(s).body == bodies[0] && StartsWith(CutFrame(s).rest, bodies[1..]))
  }

  /** Each body read on its own, in its own mode. */
  function InterpretAll(z: Zlib, defs: Defs, v: int, modes: seq<Mode>, bodies: seq<bytes>): seq<Outcome>
    requires |modes| == |bodies|
  {
    if modes == [] then []
    else
      [Interpret(z, defs, v, modes[0].state, modes[0].threshold, bodies[0])]
      + InterpretAll(z, defs, v, modes[1..], bodies[1..])
  }

  /** The k-th read sees the k-th frame, whatever the reads before it returned, and whatever states
      and thresholds they ran under. */
  lemma {:induction false} ReadsStayInStep(z: Zlib, defs: Defs, v: int, modes: seq<Mode>, bodies: seq<bytes>, s: bytes)
    requires |modes| == |bodies| && StartsWith(s, bodies)
    ensures ReceiveAll(z, defs, v, modes, s) == InterpretAll(z, defs, v, modes, bodies)
    decreases |modes|
  {
    if modes != [] {
      ReadsStayInStep(z, defs, v, modes[1..], bodies[1..], CutFrame(s).rest);
    }
  }

  /** The frames of a list of bodies, one after the other. */
  function Joined(bodies: seq<bytes>): bytes { if bodies == [] then [] else EncBytes(bodies[0]) + Joined(bodies[1..]) }

  /** Cutting such a stream gives the bodies back. */
  lemma {:induction false} JoinedCuts(bodies: seq<bytes>, tail: bytes)
    requires forall b :: b in bodies ==> |b| < TWO31
    ensures StartsWith(Joined(bodies) + tail, bodies)
  {
    if bodies != [] {
      Append2(EncBytes(bodies[0]), Joined(bodies[1..]), tail);
      CutEncoded(bodies[0], Joined(bodies[1..]) + tail);
      JoinedCuts(bodies[1..], tail);
    }
  }
}
