/** The primitive encodings of protocol/protocol.go, as functions on byte sequences.

    A decoder is a function from the unread bytes to a Parse: the value and the bytes it
    left unread, a decoding error, or a run-time panic (Go's make with a negative count).
    Go strings are byte strings, so a string is a seq<byte> here. */
module Wire {

  type byte = b: int | 0 <= b < 256
  type bytes = seq<byte>

  const TWO31: int := 0x8000_0000
  const TWO32: int := 0x1_0000_0000
  const TWO64: int := 0x1_0000_0000_0000_0000

  type uint16 = n: int | 0 <= n < 0x1_0000
  type int32 = n: int | -0x8000_0000 <= n < 0x8000_0000
  type uint32 = n: int | 0 <= n < 0x1_0000_0000
  type int64 = n: int | -0x8000_0000_0000_0000 <= n < 0x8000_0000_0000_0000

  /** MaxPacketDataSize: the longest byte string the decoder accepts. */
  const MAX_DATA: int := 2097152
  /** MaxVarIntSize */
  const MAX_VARINT: nat := 5

  datatype Parse<+T> = Ok(value: T, rest: bytes) | Fail | Panic {
    predicate IsFailure() { !Ok? }
    function PropagateFailure<U>(): Parse<U>
      requires IsFailure()
    {
      if Fail? then Fail else Panic
    }
    function Extract(): (T, bytes)
      requires Ok?
    {
      (value, rest)
    }
  }

  // ---------------------------------------------------------------- concatenation

  lemma {:induction false} Concat3(a: bytes, b: bytes, c: bytes, d: bytes)
    ensures (a + (b + c)) + d == a + (b + (c + d))
  {
  }

  lemma {:induction false} Concat4(a: bytes, b: bytes, c: bytes, d: bytes, e: bytes)
    ensures (a + (b + (c + d))) + e == a + (b + (c + (d + e)))
  {
    Concat3(b, c, d, e);
    assert (a + (b + (c + d))) + e == a + ((b + (c + d)) + e);
  }

  lemma {:induction false} Append2(o: bytes, a: bytes, b: bytes)
    ensures (o + a) + b == o + (a + b)
  {
  }

  lemma {:induction false} Append3(o: bytes, a: bytes, b: bytes, c: bytes)
    ensures ((o + a) + b) + c == o + (a + (b + c))
  {
  }

  lemma {:induction false} Append4(o: bytes, a: bytes, b: bytes, c: bytes, d: bytes)
    ensures (((o + a) + b) + c) + d == o + (a + (b + (c + d)))
  {
    Append3(o, a, b, c + d);
    assert (((o + a) + b) + c) + d == ((o + a) + b) + (c + d);
  }

  // ---------------------------------------------------------------- two's complement

  function ToU32(v: int32): uint32 { if v < 0 then v + TWO32 else v }

  function ToI32(u: uint32): int32 { if u < TWO31 then u else u - TWO32 }

  /** The low 32 bits of a number. */
  function Wrap32(n: nat): (u: uint32)
    ensures n < TWO32 ==> u == n
  {
    if n < TWO32 then n else Wrap32(n - TWO32)
  }

  lemma {:induction false} Wrap32IsMod(n: nat)
    ensures Wrap32(n) == n % TWO32
  {
    if n >= TWO32 {
      Wrap32IsMod(n - TWO32);
      ModStep(n);
    }
  }

  lemma {:induction false} ModStep(n: nat)
    requires n >= TWO32
    ensures (n - TWO32) % TWO32 == n % TWO32
  {
    assert n == TWO32 * (n / TWO32) + n % TWO32;
  }

  lemma {:induction false} Wrap32Add(x: nat, y: nat)
    ensures Wrap32(Wrap32(x) + y) == Wrap32(x + y)
  {
    if x >= TWO32 {
      Wrap32Add(x - TWO32, y);
    }
  }

  lemma {:induction false} Wrap32Below(n: nat)
    ensures Wrap32(n) <= n
  {
    if n >= TWO32 {
      Wrap32Below(n - TWO32);
    }
  }

  /** Go's int32(n) conversion of a length. */
  function Trunc32(n: nat): int32 { ToI32(Wrap32(n)) }

  // ---------------------------------------------------------------- VarInt

  /** The encoder's output: low groups of seven bits first, the high bit set on all but the last. */
  function EncU32(u: nat): (s: bytes)
    ensures s != []
    decreases u
  {
    if u < 128 then [u] else [u % 128 + 128] + EncU32(u / 128)
  }

  function EncVarInt(v: int32): bytes { EncU32(ToU32(v)) }

  /** Index of the first byte whose high bit is clear, or |s| when there is none. */
  function Stop(s: bytes): (n: nat)
    ensures n <= |s|
    ensures n < |s| ==> s[n] < 128
    ensures forall i :: 0 <= i < n ==> s[i] >= 128
  {
    if s == [] || s[0] < 128 then 0 else 1 + Stop(s[1..])
  }

  /** The little-endian base-128 number whose digits are the low seven bits of each byte. */
  function Leb(s: bytes): nat { if s == [] then 0 else s[0] % 128 + 128 * Leb(s[1..]) }

  /** What a VarInt read means, in closed form: the group ends at the first byte without a
      high bit, which must be among the first five, and its value is taken modulo 2^32. */
  function DecVarInt(s: bytes): (r: Parse<int32>)
    ensures r.Ok? ==> |r.rest| < |s|
    ensures !r.Panic?
  {
    var n := Stop(s);
    if n < MAX_VARINT && n < |s| then Ok(ToI32(Wrap32(Leb(s[..n + 1]))), s[n + 1..]) else Fail
  }

  function Pow128(k: nat): (p: nat)
    ensures p >= 1
  {
    if k == 0 then 1 else 128 * Pow128(k - 1)
  }

  /** Go's x << pos, before it is cut to 32 bits. */
  function ShiftLeft(x: nat, pos: nat): nat { if pos == 0 then x else 2 * ShiftLeft(x, pos - 1) }

  lemma {:induction false} ShiftBy7(x: nat, pos: nat)
    ensures ShiftLeft(x, pos + 7) == 128 * ShiftLeft(x, pos)
  {
    assert ShiftLeft(x, pos + 2) == 2 * ShiftLeft(x, pos + 1);
    assert ShiftLeft(x, pos + 4) == 2 * ShiftLeft(x, pos + 3);
    assert ShiftLeft(x, pos + 6) == 2 * ShiftLeft(x, pos + 5);
  }

  /** One more group, at bit position 7 * |s|. */
  lemma {:induction false} LebSnoc(s: bytes, b: byte)
    ensures Leb(s + [b]) == Leb(s) + ShiftLeft(b % 128, 7 * |s|)
  {
    if s == [] {
      assert (s + [b])[1..] == [];
    } else {
      assert (s + [b])[1..] == s[1..] + [b];
      LebSnoc(s[1..], b);
      ShiftBy7(b % 128, 7 * |s[1..]|);
    }
  }

  lemma {:induction false} LebBound(s: bytes)
    ensures Leb(s) < Pow128(|s|)
  {
    if s != [] {
      LebBound(s[1..]);
    }
  }

  lemma {:induction false} EncU32Length(u: nat, k: nat)
    requires k >= 1 && u < Pow128(k)
    ensures |EncU32(u)| <= k
  {
    assert Pow128(1) == 128 * Pow128(0);
    if u >= 128 {
      EncU32Length(u / 128, k - 1);
    }
  }

  lemma {:induction false} EncU32Parts(u: nat, rest: bytes)
    ensures Stop(EncU32(u) + rest) == |EncU32(u)| - 1
    ensures Leb(EncU32(u)) == u
  {
    var s := EncU32(u) + rest;
    if u >= 128 {
      EncU32Parts(u / 128, rest);
      assert s[1..] == EncU32(u / 128) + rest;
      assert EncU32(u)[1..] == EncU32(u / 128);
    } else {
      assert EncU32(u)[1..] == [];
    }
  }

  lemma {:induction false} Pow128Five()
    ensures Pow128(4) == 0x1000_0000 && Pow128(5) == 0x8_0000_0000
  {
    assert Pow128(1) == 128 * Pow128(0);
    assert Pow128(2) == 128 * Pow128(1);
    assert Pow128(3) == 128 * Pow128(2);
    assert Pow128(4) == 128 * Pow128(3);
    assert Pow128(5) == 128 * Pow128(4);
  }

  lemma {:induction false} VarIntSize(v: int32)
    ensures 1 <= |EncVarInt(v)| <= MAX_VARINT
  {
    Pow128Five();
    EncU32Length(ToU32(v), 5);
  }

  /** Reading what was written gives the same int32 and leaves the following bytes unread,
      for all 2^32 values. */
  lemma {:induction false} VarIntRoundTrip(v: int32, rest: bytes)
    ensures DecVarInt(EncVarInt(v) + rest) == Ok(v, rest)
  {
    var e := EncVarInt(v);
    VarIntSize(v);
    EncU32Parts(ToU32(v), rest);
    assert (e + rest)[..|e|] == e;
    assert (e + rest)[|e|..] == rest;
  }

  /** No encoding is a proper prefix of another one. */
  lemma {:induction false} VarIntPrefixFree(v: int32, w: int32)
    requires EncVarInt(v) <= EncVarInt(w)
    ensures v == w
  {
    var tail := EncVarInt(w)[|EncVarInt(v)|..];
    assert EncVarInt(w) == EncVarInt(v) + tail;
    assert EncVarInt(w) + [] == EncVarInt(w);
    VarIntRoundTrip(v, tail);
    VarIntRoundTrip(w, []);
  }

  /** Accumulating the next group with 32-bit wrap-around. */
  lemma {:induction false} AddGroup(s: bytes, b: byte)
    ensures Wrap32(Wrap32(Leb(s)) + ShiftLeft(b % 128, 7 * |s|)) == Wrap32(Leb(s + [b]))
  {
    LebSnoc(s, b);
    Wrap32Add(Leb(s), ShiftLeft(b % 128, 7 * |s|));
  }

  /** What the reading loop knows when it has taken i bytes, all with the high bit set. */
  ghost predicate Continues(s: bytes, i: nat, val: uint32)
  {
    && i <= |s|
    && (forall k :: 0 <= k < i ==> s[k] >= 128)
    && val == Wrap32(Leb(s[..i]))
  }

  lemma {:induction false} VarIntStep(s: bytes, i: nat, val: uint32)
    requires Continues(s, i, val) && i < MAX_VARINT && i < |s|
    ensures var next := Wrap32(val + ShiftLeft(s[i] % 128, 7 * i));
            if s[i] < 128 then DecVarInt(s) == Ok(ToI32(next), s[i + 1..]) else Continues(s, i + 1, next)
  {
    assert s[..i + 1] == s[..i] + [s[i]];
    AddGroup(s[..i], s[i]);
    if s[i] < 128 {
      assert Stop(s) == i;
    }
  }

  lemma {:induction false} VarIntGivesUp(s: bytes, i: nat, val: uint32)
    requires Continues(s, i, val) && (i == |s| || i == MAX_VARINT)
    ensures DecVarInt(s) == Fail
  {
    assert Stop(s) >= i;
  }

  /** A group of at most five bytes is no shorter than the encoder's output for its value. */
  lemma {:induction false} GroupNotShorter(g: bytes)
    requires 1 <= |g| <= MAX_VARINT
    ensures |EncU32(Wrap32(Leb(g)))| <= |g|
  {
    Pow128Five();
    LebBound(g);
    if |g| < MAX_VARINT {
      Pow128Monotone(|g|, 4);
      EncU32Length(Leb(g), |g|);
    } else {
      EncU32Length(Wrap32(Leb(g)), 5);
    }
  }

  /** A VarInt is accepted exactly when one of the first five bytes ends the group. */
  lemma {:induction false} VarIntAccepts(s: bytes)
    ensures DecVarInt(s).Ok? <==> exists i :: 0 <= i < |s| && i < MAX_VARINT && s[i] < 128
  {
    if i :| 0 <= i < |s| && i < MAX_VARINT && s[i] < 128 {
      assert Stop(s) <= i;
    }
  }

  /** An accepted VarInt is the two's-complement reading of its seven-bit digits modulo 2^32,
      and no accepted spelling of a value is shorter than the written one. */
  lemma {:induction false} VarIntMinimal(s: bytes)
    requires DecVarInt(s).Ok?
    ensures var used := |s| - |DecVarInt(s).rest|;
            && DecVarInt(s).rest == s[used..]
            && ToU32(DecVarInt(s).value) == Leb(s[..used]) % TWO32
            && |EncVarInt(DecVarInt(s).value)| <= used
  {
    GroupNotShorter(s[..Stop(s) + 1]);
    Wrap32IsMod(Leb(s[..Stop(s) + 1]));
  }

  lemma {:induction false} Pow128Monotone(a: nat, b: nat)
    requires a <= b
    ensures Pow128(a) <= Pow128(b)
    decreases b
  {
    if a < b {
      Pow128Monotone(a, b - 1);
    }
  }

  // ---------------------------------------------------------------- byte strings

  /** WriteByteSlice: the length is converted to int32 first. */
  function EncBytes(d: bytes): bytes { EncVarInt(Trunc32(|d|)) + d }

  /** ReadBytes and ReadString */
  function DecBytes(s: bytes): (r: Parse<bytes>)
    ensures r.Ok? ==> |r.rest| < |s| && |r.value| <= MAX_DATA
    ensures !r.Panic?
  {
    var (n, t) :- DecVarInt(s);
    if n < 0 || n > MAX_DATA || n > |t| then Fail else Ok(t[..n], t[n..])
  }

  /** A byte string survives the round trip exactly when it is within the decoder's bound. A
      longer one is refused, or, past 2^32 bytes, comes back cut short. */
  lemma {:induction false} BytesRoundTrip(d: bytes, rest: bytes)
    ensures DecBytes(EncBytes(d) + rest) == Ok(d, rest) <==> |d| <= MAX_DATA
  {
    var n := Trunc32(|d|);
    assert EncBytes(d) + rest == EncVarInt(n) + (d + rest);
    VarIntRoundTrip(n, d + rest);
    Wrap32Below(|d|);
    if |d| <= MAX_DATA {
      assert (d + rest)[..n] == d && (d + rest)[n..] == rest;
    }
  }

  /** The bytes left when a VarInt read fails: at most five have been taken. */
  function VarIntLeftover(s: bytes): bytes { if |s| <= MAX_VARINT then [] else s[MAX_VARINT..] }

  /** A VarInt read with its error dropped. */
  function DecVarIntLax(s: bytes): (int32, bytes)
  {
    if DecVarInt(s).Ok? then (DecVarInt(s).value, DecVarInt(s).rest) else (0, VarIntLeftover(s))
  }

  /** Where ReadBytes leaves the cursor, whether or not it succeeds. */
  function SkipBytes(s: bytes): bytes
  {
    var (n, t) := DecVarIntLax(s);
    if DecVarInt(s).Fail? || n < 0 || n > MAX_DATA then t else if n > |t| then [] else t[n..]
  }

  function Zeros(n: nat): bytes { if n == 0 then [] else [0] + Zeros(n - 1) }

  /** The buffer ReadBytes returns next to its error: on a short read it holds what there was, and zeros. */
  function DecBytesPadded(s: bytes): bytes
  {
    var (n, t) := DecVarIntLax(s);
    if DecVarInt(s).Fail? || n < 0 || n > MAX_DATA then [] else if n > |t| then t + Zeros(n - |t|) else t[..n]
  }

  // ---------------------------------------------------------------- fixed-width integers

  function Pow256(k: nat): (p: nat)
    ensures p >= 1
  {
    if k == 0 then 1 else 256 * Pow256(k - 1)
  }

  /** Big-endian value of a byte string. */
  function BigEndian(s: bytes): nat
  {
    if s == [] then 0 else 256 * BigEndian(s[..|s| - 1]) + s[|s| - 1]
  }

  function EncBigEndian(n: nat, k: nat): (s: bytes)
    ensures |s| == k
  {
    if k == 0 then [] else EncBigEndian(n / 256, k - 1) + [n % 256]
  }

  lemma {:induction false} BigEndianBound(s: bytes)
    ensures BigEndian(s) < Pow256(|s|)
  {
    if s != [] {
      BigEndianBound(s[..|s| - 1]);
    }
  }

  lemma {:induction false} BigEndianRoundTrip(n: nat, k: nat)
    requires n < Pow256(k)
    ensures BigEndian(EncBigEndian(n, k)) == n
  {
    if k > 0 {
      var s := EncBigEndian(n, k);
      var high := n / 256;
      assert n == 256 * high + n % 256;
      assert s[..k - 1] == EncBigEndian(high, k - 1) && s[k - 1] == n % 256;
      BigEndianRoundTrip(high, k - 1);
    }
  }

  lemma {:induction false} BigEndianCanonical(s: bytes)
    ensures EncBigEndian(BigEndian(s), |s|) == s
  {
    if s != [] {
      BigEndianCanonical(s[..|s| - 1]);
      assert s == s[..|s| - 1] + [s[|s| - 1]];
    }
  }

  lemma {:induction false} Pow256Eight()
    ensures Pow256(2) == 0x1_0000 && Pow256(4) == TWO32 && Pow256(8) == TWO64
  {
    assert Pow256(1) == 256 * Pow256(0);
    assert Pow256(2) == 256 * Pow256(1);
    assert Pow256(3) == 256 * Pow256(2);
    assert Pow256(4) == 256 * Pow256(3);
    assert Pow256(5) == 256 * Pow256(4);
    assert Pow256(6) == 256 * Pow256(5);
    assert Pow256(7) == 256 * Pow256(6);
    assert Pow256(8) == 256 * Pow256(7);
  }

  /** A signed integer of w bits as the unsigned number with the same bits, and back. */
  function Unsigned(v: int, modulus: nat): int { if v < 0 then v + modulus else v }

  function Signed(u: nat, modulus: nat): int { if 2 * u < modulus then u else u - modulus }

  function EncLong(v: int64): bytes { EncBigEndian(Unsigned(v, TWO64), 8) }

  /** ReadLong */
  function DecLong(s: bytes): (r: Parse<int64>)
    ensures !r.Panic?
  {
    if |s| < 8 then Fail
    else
      (BigEndianBound(s[..8]); Pow256Eight();
       Ok(Signed(BigEndian(s[..8]), TWO64), s[8..]))
  }

  lemma {:induction false} LongRoundTrip(v: int64, rest: bytes)
    ensures DecLong(EncLong(v) + rest) == Ok(v, rest)
  {
    Pow256Eight();
    BigEndianRoundTrip(Unsigned(v, TWO64), 8);
    assert (EncLong(v) + rest)[..8] == EncLong(v);
  }

  /** Reading eight bytes and writing the number back gives the same eight bytes. */
  lemma {:induction false} LongCanonical(s: bytes)
    requires |s| >= 8
    ensures DecLong(s).Ok? && EncLong(DecLong(s).value) == s[..8]
  {
    BigEndianBound(s[..8]);
    Pow256Eight();
    BigEndianCanonical(s[..8]);
  }

  function EncInt(v: int32): bytes { EncBigEndian(Unsigned(v, TWO32), 4) }

  function DecInt(s: bytes): (r: Parse<int32>)
    ensures !r.Panic?
  {
    if |s| < 4 then Fail
    else
      (BigEndianBound(s[..4]); Pow256Eight();
       Ok(Signed(BigEndian(s[..4]), TWO32), s[4..]))
  }

  lemma {:induction false} IntRoundTrip(v: int32, rest: bytes)
    ensures DecInt(EncInt(v) + rest) == Ok(v, rest)
  {
    Pow256Eight();
    BigEndianRoundTrip(Unsigned(v, TWO32), 4);
    assert (EncInt(v) + rest)[..4] == EncInt(v);
  }

  function EncUShort(v: int): bytes
    requires 0 <= v < 0x1_0000
  {
    EncBigEndian(v, 2)
  }

  function DecUShort(s: bytes): Parse<nat>
  {
    if |s| < 2 then Fail else Ok(BigEndian(s[..2]), s[2..])
  }

  lemma {:induction false} UShortRoundTrip(v: nat, rest: bytes)
    requires v < 0x1_0000
    ensures DecUShort(EncUShort(v) + rest) == Ok(v, rest)
  {
    Pow256Eight();
    BigEndianRoundTrip(v, 2);
    assert (EncUShort(v) + rest)[..2] == EncUShort(v);
  }

  function EncBool(b: bool): bytes { if b then [1] else [0] }

  function DecBool(s: bytes): Parse<bool> { if s == [] then Fail else Ok(s[0] != 0, s[1..]) }

  /** ReadBool with its error dropped: at the end of the data the Go code sees false. */
  function DecBoolLax(s: bytes): (bool, bytes) { if s == [] then (false, []) else (s[0] != 0, s[1..]) }

  function DecByte(s: bytes): Parse<byte> { if s == [] then Fail else Ok(s[0], s[1..]) }

  // ---------------------------------------------------------------- lists

  /** The elements read so far, in front of what the rest of the list parses to. */
  function Prepend<T>(xs: seq<T>, p: Parse<seq<T>>): Parse<seq<T>>
  {
    match p
    case Ok(ys, rest) => Ok(xs + ys, rest)
    case Fail => Fail
    case Panic => Panic
  }

  /** n elements, one after the other. */
  function DecN<T>(p: bytes -> Parse<T>, n: nat, s: bytes): (r: Parse<seq<T>>)
    ensures r.Ok? ==> |r.value| == n
  {
    if n == 0 then Ok([], s)
    else
      match p(s)
      case Ok(x, t) => Prepend([x], DecN(p, n - 1, t))
      case Fail => Fail
      case Panic => Panic
  }

  /** A count, then that many elements. The Go decoders allocate the slice before reading the
      first element, so a negative count panics. */
  function DecList<T>(p: bytes -> Parse<T>, s: bytes): Parse<seq<T>>
  {
    var count := DecVarInt(s);
    if !count.Ok? then Fail
    else if count.value < 0 then Panic
    else DecN(p, count.value, count.rest)
  }

  /** A list loop over n elements from s0 has read xs and stands at s. */
  ghost predicate ListLoop<T>(p: bytes -> Parse<T>, n: nat, s0: bytes, xs: seq<T>, s: bytes)
  {
    |xs| <= n && DecN(p, n, s0) == Prepend(xs, DecN(p, n - |xs|, s))
  }

  lemma {:induction false} ListStart<T>(p: bytes -> Parse<T>, n: nat, s: bytes)
    ensures ListLoop(p, n, s, [], s)
  {
    if DecN(p, n, s).Ok? {
      assert [] + DecN(p, n, s).value == DecN(p, n, s).value;
    }
  }

  /** One turn of a list loop that reads x and leaves t. */
  lemma {:induction false} ListStep<T>(p: bytes -> Parse<T>, n: nat, s0: bytes, xs: seq<T>, s: bytes, x: T, t: bytes)
    requires ListLoop(p, n, s0, xs, s) && |xs| < n
    requires p(s) == Ok(x, t)
    ensures ListLoop(p, n, s0, xs + [x], t)
  {
    var rest := DecN(p, n - |xs| - 1, t);
    if rest.Ok? {
      assert xs + ([x] + rest.value) == xs + [x] + rest.value;
    }
  }

  /** A turn that fails ends the whole list the same way. */
  lemma {:induction false} ListStops<T>(p: bytes -> Parse<T>, n: nat, s0: bytes, xs: seq<T>, s: bytes)
    requires ListLoop(p, n, s0, xs, s) && |xs| < n
    requires !p(s).Ok?
    ensures DecN(p, n, s0) == if p(s).Fail? then Fail else Panic
  {
  }

  lemma {:induction false} ListDone<T>(p: bytes -> Parse<T>, n: nat, s0: bytes, xs: seq<T>, s: bytes)
    requires ListLoop(p, n, s0, xs, s) && |xs| == n
    ensures DecN(p, n, s0) == Ok(xs, s)
  {
    assert xs + [] == xs;
  }

  function EncN<T>(e: T -> bytes, xs: seq<T>): bytes
  {
    if xs == [] then [] else e(xs[0]) + EncN(e, xs[1..])
  }

  lemma {:induction false} EncNFrom<T>(e: T -> bytes, xs: seq<T>, i: nat)
    requires i < |xs|
    ensures EncN(e, xs[i..]) == e(xs[i]) + EncN(e, xs[i + 1..])
  {
    assert xs[i..][0] == xs[i] && xs[i..][1..] == xs[i + 1..];
  }

  function EncList<T>(e: T -> bytes, xs: seq<T>): bytes { EncVarInt(Trunc32(|xs|)) + EncN(e, xs) }

  /** p reads back what e wrote for x, whatever follows it. */
  ghost predicate Inverts<T(!new)>(p: bytes -> Parse<T>, e: T -> bytes, x: T)
  {
    forall rest: bytes {:trigger e(x) + rest} :: p(e(x) + rest) == Ok(x, rest)
  }

  lemma {:induction false} NRoundTrip<T(!new)>(p: bytes -> Parse<T>, e: T -> bytes, xs: seq<T>, rest: bytes)
    requires forall x :: x in xs ==> Inverts(p, e, x)
    ensures DecN(p, |xs|, EncN(e, xs) + rest) == Ok(xs, rest)
  {
    if xs == [] {
      assert [] + rest == rest;
    } else {
      var tail := EncN(e, xs[1..]) + rest;
      assert EncN(e, xs) + rest == e(xs[0]) + tail;
      assert Inverts(p, e, xs[0]);
      NRoundTrip(p, e, xs[1..], rest);
      assert [xs[0]] + xs[1..] == xs;
    }
  }

  lemma {:induction false} ListRoundTrip<T(!new)>(p: bytes -> Parse<T>, e: T -> bytes, xs: seq<T>, rest: bytes)
    requires |xs| < TWO31
    requires forall x :: x in xs ==> Inverts(p, e, x)
    ensures DecList(p, EncList(e, xs) + rest) == Ok(xs, rest)
  {
    assert EncList(e, xs) + rest == EncVarInt(Trunc32(|xs|)) + (EncN(e, xs) + rest);
    VarIntRoundTrip(Trunc32(|xs|), EncN(e, xs) + rest);
    NRoundTrip(p, e, xs, rest);
  }
}
