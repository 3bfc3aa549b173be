/** The zigzag varint and the Protobuf frame that carries a message index. */
module Wire {
  import opened Wrappers

  type byte = b: int | 0 <= b < 256

  type Bytes = seq<byte>

  const TWO_63: int := 0x8000_0000_0000_0000
  const TWO_64: int := 0x1_0000_0000_0000_0000

  predicate IsI64(v: int) { -TWO_63 <= v < TWO_63 }

  predicate IsI32(v: int) { -0x8000_0000 <= v < 0x8000_0000 }

  predicate IsU32(v: int) { 0 <= v < 0x1_0000_0000 }

  datatype WireError =
    | TooShort | BadMagic | Truncated | TooLong | Overflow | Overlong
    | NegativeCount | CountTooLarge | IndexRange

  // ------------------------------------------------------------------
  // Varints
  // ------------------------------------------------------------------

  // (v << 1) ^ (v >> 63), as an unsigned number.
  function ZigZag(v: int): (z: nat)
    ensures IsI64(v) ==> z < TWO_64
  {
    if v < 0 then -2 * v - 1 else 2 * v
  }

  // (z >> 1) ^ -(z & 1)
  function UnZigZag(z: nat): int { if z % 2 == 0 then z / 2 else -(z / 2) - 1 }

  lemma ZigZagBijection(v: int, z: nat)
    ensures UnZigZag(ZigZag(v)) == v && ZigZag(UnZigZag(z)) == z
    ensures z < TWO_64 <==> IsI64(UnZigZag(z))
  {}

  /** Seven bits a byte, least significant first; the high bit says that more follow. */
  function Varint(z: nat): (r: Bytes)
    ensures r != []
  {
    if z < 128 then [z] else [z % 128 + 128] + Varint(z / 128)
  }

  function Pow128(n: nat): (p: nat)
    ensures p > 0
  {
    if n == 0 then 1 else 128 * Pow128(n - 1)
  }

  lemma PowZero()
    ensures Pow128(0) == 1
  {}

  /** What the reading loop makes of the bytes from `index` on, with `result` read so far. */
  function ReadFrom(bytes: Bytes, index: nat, result: nat): Result<(int, Bytes), WireError>
    requires index <= 10 && index <= |bytes|
    decreases 10 - index
  {
    if index == 10 then Err(TooLong)
    else if index == |bytes| then Err(Truncated)
    else
      var payload := bytes[index] % 128;
      var next := result + payload * Pow128(index);
      if index == 9 && payload > 1 then Err(Overflow)
      else if bytes[index] >= 128 then ReadFrom(bytes, index + 1, next)
      else if |Varint(next)| != index + 1 then Err(Overlong)
      else Ok((UnZigZag(next), bytes[index + 1..]))
  }

  function ReadVarint(bytes: Bytes): Result<(int, Bytes), WireError> { ReadFrom(bytes, 0, 0) }

  method PutVarint(buf: Bytes, value: int) returns (out: Bytes)
    requires IsI64(value)
    ensures out == buf + Varint(ZigZag(value))
  {
    var zig := ZigZag(value);
    out := buf;
    while zig >= 128
      invariant out + Varint(zig) == buf + Varint(ZigZag(value))
    {
      assert out + Varint(zig) == out + [zig % 128 + 128] + Varint(zig / 128);
      out := out + [zig % 128 + 128];
      zig := zig / 128;
    }
    out := out + [zig];
  }

  method EncodedVarintLength(value: nat) returns (len: nat)
    ensures len == |Varint(value)|
  {
    len := 1;
    var rest := value;
    while rest >= 128
      invariant len - 1 + |Varint(rest)| == |Varint(value)|
    {
      rest := rest / 128;
      len := len + 1;
    }
  }

  method Read(bytes: Bytes) returns (r: Result<(int, Bytes), WireError>)
    ensures r == ReadVarint(bytes)
  {
    hide Pow128, Varint, UnZigZag;
    var result: nat, index: nat, scale: nat := 0, 0, 1;
    PowZero();
    while index < 10 && index < |bytes|
      invariant index <= 10 && index <= |bytes| && scale == Pow128(index)
      invariant ReadVarint(bytes) == ReadFrom(bytes, index, result)
    {
      var payload: nat := bytes[index] % 128;
      if index == 9 && payload > 1 {
        return Err(Overflow);
      }
      result := result + payload * scale;
      if bytes[index] < 128 {
        var len := EncodedVarintLength(result);
        if len != index + 1 {
          return Err(Overlong);
        }
        return Ok((UnZigZag(result), bytes[index + 1..]));
      }
      PowStep(index);
      index, scale := index + 1, 128 * scale;
    }
    return if |bytes| >= 10 then Err(TooLong) else Err(Truncated);
  }

  // ------------------------------------------------------------------
  // Reading what was written
  // ------------------------------------------------------------------

  lemma Pow9()
    ensures Pow128(9) == TWO_63
  {
    assert Pow128(3) == 0x20_0000;
    assert Pow128(6) == 0x20_0000 * 0x20_0000;
  }

  lemma {:induction false} PowMono(a: nat, b: nat)
    requires a <= b
    ensures Pow128(a) <= Pow128(b)
  {
    if a < b {
      PowMono(a, b - 1);
    }
  }

  lemma PowStep(i: nat)
    ensures Pow128(i + 1) == 128 * Pow128(i)
  {}

  lemma Distribute(a: int, b: int, c: int)
    ensures (a + b) * c == a * c + b * c && (128 * a) * c == a * (128 * c)
  {}

  lemma TakeDigit(result: nat, digit: nat, above: nat, i: nat)
    requires result < Pow128(i) && digit < 128
    ensures (result + digit * Pow128(i)) + above * Pow128(i + 1) == result + (digit + 128 * above) * Pow128(i)
    ensures result + digit * Pow128(i) < Pow128(i + 1)
  {
    hide Pow128;
    PowStep(i);
    var p := Pow128(i);
    Distribute(digit, 128 * above, p);
    Distribute(above, 0, p);
    assert digit * p <= 127 * p;
  }

  /** Moving one digit of `z` below the point. */
  lemma MoveDigit(low: nat, z: nat, i: nat)
    requires low < Pow128(i)
    ensures low + z * Pow128(i) == (low + (z % 128) * Pow128(i)) + (z / 128) * Pow128(i + 1)
    ensures low + (z % 128) * Pow128(i) < Pow128(i + 1)
  {
    hide Pow128;
    PowStep(i);
    TakeDigit(low, z % 128, z / 128, i);
  }

  lemma DropDigit(low: nat, z: nat, i: nat)
    requires i > 0 && low < Pow128(i) && z > 0
    ensures low + z * Pow128(i) >= 128 && (low + z * Pow128(i)) / 128 == low / 128 + z * Pow128(i - 1)
    ensures low / 128 < Pow128(i - 1)
  {
    var p := Pow128(i - 1);
    assert z * (128 * p) == 128 * (z * p);
    assert z * p >= 1;
  }

  /** A number with `i` digits below the number `z` takes `i` more bytes than `z`. */
  lemma {:induction false} LengthAbove(low: nat, z: nat, i: nat)
    requires low < Pow128(i) && (z > 0 || i == 0)
    ensures |Varint(low + z * Pow128(i))| == i + |Varint(z)|
  {
    if i > 0 {
      hide Pow128;
      DropDigit(low, z, i);
      LengthAbove(low / 128, z, i - 1);
    }
  }

  lemma Cancel(a: nat, b: nat, c: nat)
    requires a * c < b * c
    ensures a < b
  {}

  lemma NinthDigit(low: nat, z: nat)
    requires low + z * Pow128(9) < TWO_64
    ensures z < 2
  {
    Pow9();
    Cancel(z, 2, Pow128(9));
  }

  lemma {:induction false} ReadsWritten(prefix: Bytes, low: nat, z: nat, rest: Bytes)
    requires |prefix| < 10 && low < Pow128(|prefix|) && (z > 0 || prefix == []) && low + z * Pow128(|prefix|) < TWO_64
    ensures ReadFrom(prefix + Varint(z) + rest, |prefix|, low) == Ok((UnZigZag(low + z * Pow128(|prefix|)), rest))
    decreases 10 - |prefix|
  {
    hide Pow128, UnZigZag;
    var i, bytes := |prefix|, prefix + Varint(z) + rest;
    if i == 9 { NinthDigit(low, z); }
    WrittenBytes(prefix, z, rest);
    if z < 128 {
      LengthAbove(low, z, i);
    } else {
      var longer, next := prefix + [z % 128 + 128], low + (z % 128) * Pow128(i);
      MoveDigit(low, z, i);
      ReadsWritten(longer, next, z / 128, rest);
    }
  }

  lemma WrittenBytes(prefix: Bytes, z: nat, rest: Bytes)
    ensures var bytes := prefix + Varint(z) + rest;
            |prefix| < |bytes| && bytes[|prefix|] == (if z < 128 then z else z % 128 + 128)
            && if z < 128 then bytes[|prefix| + 1..] == rest
               else bytes == (prefix + [z % 128 + 128]) + Varint(z / 128) + rest
  {
    var bytes := prefix + Varint(z) + rest;
    assert bytes[|prefix|] == Varint(z)[0];
  }

  /** Reading a written number gives it back, with whatever follows. */
  lemma VarintRoundTrip(v: int, rest: Bytes)
    requires IsI64(v)
    ensures ReadVarint(Varint(ZigZag(v)) + rest) == Ok((v, rest))
  {
    hide ReadFrom, Varint;
    var z := ZigZag(v);
    ReadsWritten([], 0, z, rest);
    assert [] + Varint(z) + rest == Varint(z) + rest;
    ZigZagBijection(v, z);
  }

  // ------------------------------------------------------------------
  // Nothing else is accepted
  // ------------------------------------------------------------------

  function Value(bs: Bytes): nat { if bs == [] then 0 else bs[0] % 128 + 128 * Value(bs[1..]) }

  ghost predicate Terminated(bs: Bytes) {
    bs != [] && bs[|bs| - 1] < 128 && forall i :: 0 <= i < |bs| - 1 ==> bs[i] >= 128
  }

  lemma {:induction false} ShortestIsCanonical(bs: Bytes)
    requires Terminated(bs) && |Varint(Value(bs))| == |bs|
    ensures Varint(Value(bs)) == bs
  {
    if |bs| > 1 {
      var rest := bs[1..];
      assert Value(bs) % 128 == bs[0] % 128 && Value(bs) / 128 == Value(rest);
      assert Value(bs) >= 128;
      ShortestIsCanonical(rest);
      assert bs == [bs[0]] + rest;
    } else {
      assert Value(bs[1..]) == 0;
    }
  }

  lemma {:induction false} AcceptedIs(bytes: Bytes, index: nat, result: nat) returns (end: nat)
    requires index <= 10 && index <= |bytes| && ReadFrom(bytes, index, result).Ok? && result < Pow128(index)
    ensures index < end <= |bytes| && Terminated(bytes[index..end])
    ensures ReadFrom(bytes, index, result).value.1 == bytes[end..]
    ensures var total := result + Value(bytes[index..end]) * Pow128(index);
            total < TWO_64 && |Varint(total)| == end && ReadFrom(bytes, index, result).value.0 == UnZigZag(total)
    decreases 10 - index
  {
    hide Pow128, Varint, UnZigZag;
    var payload := bytes[index] % 128;
    var next := result + payload * Pow128(index);
    end := index + 1;
    if bytes[index] < 128 {
      assert bytes[index..end] == [bytes[index]] && Value([bytes[index]]) == payload + 128 * Value([]);
      Bounded(result, payload, index);
    } else {
      TakeDigit(result, payload, 0, index);
      end := AcceptedIs(bytes, index + 1, next);
      var tail := bytes[index + 1..end];
      assert bytes[index..end] == [bytes[index]] + tail && ([bytes[index]] + tail)[1..] == tail;
      assert Value(bytes[index..end]) == payload + 128 * Value(tail);
      TakeDigit(result, payload, Value(tail), index);
    }
  }

  lemma Bounded(result: nat, payload: nat, index: nat)
    requires index < 10 && result < Pow128(index) && payload < 128 && (index == 9 ==> payload <= 1)
    ensures result + payload * Pow128(index) < TWO_64
  {
    Pow9();
    var p := Pow128(index);
    if index < 9 {
      PowMono(index + 1, 9);
      assert payload * p <= 127 * p;
    } else {
      assert payload * p <= p;
    }
  }

  /** Every accepted input is the encoding of the number it gives, followed by the rest. */
  lemma AcceptedIsCanonical(bytes: Bytes)
    requires ReadVarint(bytes).Ok?
    ensures IsI64(ReadVarint(bytes).value.0)
    ensures bytes == Varint(ZigZag(ReadVarint(bytes).value.0)) + ReadVarint(bytes).value.1
  {
    var end := AcceptedIs(bytes, 0, 0);
    var bs := bytes[0..end];
    ShortestIsCanonical(bs);
    ZigZagBijection(0, Value(bs));
    assert bytes == bs + bytes[end..];
  }

  // ------------------------------------------------------------------
  // Frames
  // ------------------------------------------------------------------

  const MAGIC: byte := 0

  function BigEndian(id: int): (r: Bytes)
    requires IsU32(id)
    ensures |r| == 4
  {
    [id / 256 / 256 / 256, id / 256 / 256 % 256, id / 256 % 256, id % 256]
  }

  function FromBigEndian(b: Bytes): (id: int)
    requires |b| == 4
    ensures IsU32(id)
  {
    var w: int, x: int, y: int, z: int := b[0], b[1], b[2], b[3];
    ((w * 256 + x) * 256 + y) * 256 + z
  }

  lemma LastByte(n: int, b: int)
    requires 0 <= b < 256
    ensures (n * 256 + b) / 256 == n && (n * 256 + b) % 256 == b
  {}

  lemma BigEndianBijection(id: int, b: Bytes)
    ensures IsU32(id) ==> FromBigEndian(BigEndian(id)) == id
    ensures |b| == 4 ==> BigEndian(FromBigEndian(b)) == b
  {
    if |b| == 4 {
      var w: int, x: int, y: int, z: int := b[0], b[1], b[2], b[3];
      LastByte((w * 256 + x) * 256 + y, z);
      LastByte(w * 256 + x, y);
      LastByte(w, x);
      assert BigEndian(FromBigEndian(b)) == [w, x, y, z] == b;
    }
  }

  function Varints(index: seq<int>): Bytes {
    if index == [] then [] else Varint(ZigZag(index[0])) + Varints(index[1..])
  }

  function Header(id: int): Bytes
    requires IsU32(id)
  {
    [MAGIC] + BigEndian(id)
  }

  /** The path [0] is one zero byte; any other is its length and its elements. */
  function PathBytes(index: seq<int>): Bytes {
    if index == [0] then [0] else Varint(ZigZag(|index|)) + Varints(index)
  }

  function Frame(id: int, index: seq<int>, body: Bytes): Bytes
    requires IsU32(id)
  {
    Header(id) + PathBytes(index) + body
  }

  ghost predicate IsPath(index: seq<int>) { |index| < TWO_63 && forall i <- index :: IsI32(i) }

  method EncodeProtobuf(id: int, index: seq<int>, body: Bytes) returns (frame: Bytes)
    requires IsU32(id) && IsPath(index)
    ensures frame == Frame(id, index, body)
  {
    var buf := [MAGIC] + BigEndian(id);
    if index == [0] {
      buf := buf + [0];
    } else {
      buf := PutVarint(buf, |index|);
      assert index[0..] == index;
      for i := 0 to |index|
        invariant buf + Varints(index[i..]) == Header(id) + PathBytes(index)
      {
        hide Header, PathBytes, BigEndian, Varint, ZigZag;
        assert index[i] in index && index[i..][1..] == index[i + 1..];
        ghost var before := buf;
        buf := PutVarint(buf, index[i]);
        assert buf + Varints(index[i + 1..]) == before + (Varint(ZigZag(index[i])) + Varints(index[i + 1..]));
      }
    }
    frame := buf + body;
  }

  function StripHeader(bytes: Bytes): Result<(int, Bytes), WireError> {
    if |bytes| < 5 then Err(TooShort)
    else if bytes[0] != MAGIC then Err(BadMagic)
    else Ok((FromBigEndian(bytes[1..5]), bytes[5..]))
  }

  function ReadIndices(bytes: Bytes, count: nat): Result<(seq<int>, Bytes), WireError>
    decreases count
  {
    if count == 0 then Ok(([], bytes))
    else match ReadVarint(bytes)
      case Err(e) => Err(e)
      case Ok((ix, rest)) =>
        if !IsI32(ix) then Err(IndexRange)
        else match ReadIndices(rest, count - 1)
          case Err(e) => Err(e)
          case Ok((more, end)) => Ok(([ix] + more, end))
  }

  // The indices read so far, then those of `r`.
  function After(indices: seq<int>, r: Result<(seq<int>, Bytes), WireError>): Result<(seq<int>, Bytes), WireError> {
    match r
    case Ok((more, end)) => Ok((indices + more, end))
    case Err(e) => Err(e)
  }

  lemma AfterNone(r: Result<(seq<int>, Bytes), WireError>)
    ensures After([], r) == r
  {
    if r.Ok? { assert [] + r.value.0 == r.value.0; }
  }

  lemma AfterOne(indices: seq<int>, ix: int, r: Result<(seq<int>, Bytes), WireError>)
    ensures After(indices + [ix], r) == After(indices, After([ix], r))
  {
    if r.Ok? { assert indices + [ix] + r.value.0 == indices + ([ix] + r.value.0); }
  }

  function ReadPath(bytes: Bytes): Result<(seq<int>, Bytes), WireError> {
    match ReadVarint(bytes)
    case Err(e) => Err(e)
    case Ok((len, rest)) =>
      if len == 0 then Ok(([0], rest))
      else if len < 0 then Err(NegativeCount)
      else if len > |rest| then Err(CountTooLarge)
      else ReadIndices(rest, len)
  }

  /** Split a frame into id, message index and body. */
  function DecodeFrame(bytes: Bytes): Result<(int, seq<int>, Bytes), WireError> {
    match StripHeader(bytes)
    case Err(e) => Err(e)
    case Ok((id, rest)) =>
      match ReadPath(rest)
      case Err(e) => Err(e)
      case Ok((index, body)) => Ok((id, index, body))
  }

  method DecodeProtobuf(bytes: Bytes) returns (r: Result<(int, seq<int>, Bytes), WireError>)
    ensures r == DecodeFrame(bytes)
  {
    hide ReadVarint, StripHeader;
    var header := StripHeader(bytes);
    if header.Err? {
      return Err(header.error);
    }
    var first := Read(header.value.1);
    if first.Err? {
      return Err(first.error);
    }
    var (len, rest) := first.value;
    if len == 0 {
      return Ok((header.value.0, [0], rest));
    }
    if len < 0 {
      return Err(NegativeCount);
    }
    if len > |rest| {
      return Err(CountTooLarge);
    }
    var indices: seq<int> := [];
    ghost var start := rest;
    AfterNone(ReadIndices(rest, len));
    for k := 0 to len
      invariant ReadIndices(start, len) == After(indices, ReadIndices(rest, len - k))
    {
      var next := Read(rest);
      if next.Err? {
        return Err(next.error);
      }
      if !IsI32(next.value.0) {
        return Err(IndexRange);
      }
      AfterOne(indices, next.value.0, ReadIndices(next.value.1, len - k - 1));
      indices := indices + [next.value.0];
      rest := next.value.1;
    }
    assert indices + [] == indices;
    return Ok((header.value.0, indices, rest));
  }

  // ------------------------------------------------------------------
  // Frames round trip
  // ------------------------------------------------------------------

  lemma {:induction false} IndicesRoundTrip(index: seq<int>, body: Bytes)
    requires forall i <- index :: IsI32(i)
    ensures ReadIndices(Varints(index) + body, |index|) == Ok((index, body)) && |index| <= |Varints(index)|
  {
    hide Varint, ZigZag, ReadVarint;
    if index == [] {
      assert Varints(index) + body == body;
    } else {
      assert index[0] in index && index == [index[0]] + index[1..];
      var tail := Varints(index[1..]) + body;
      assert Varints(index) + body == Varint(ZigZag(index[0])) + tail;
      VarintRoundTrip(index[0], tail);
      IndicesRoundTrip(index[1..], body);
    }
  }

  lemma PathRoundTrip(index: seq<int>, body: Bytes)
    requires IsPath(index) && index != []
    ensures ReadPath(PathBytes(index) + body) == Ok((index, body))
  {
    hide Varint, ReadVarint;
    if index == [0] {
      VarintRoundTrip(0, body);
      ZeroByte();
    } else {
      var tail := Varints(index) + body;
      assert PathBytes(index) + body == Varint(ZigZag(|index|)) + tail;
      VarintRoundTrip(|index|, tail);
      IndicesRoundTrip(index, body);
    }
  }

  lemma ZeroByte()
    ensures Varint(ZigZag(0)) == [0] && Varint(ZigZag(1)) == [2]
  {}

  lemma HeaderStripped(id: int, rest: Bytes)
    requires IsU32(id)
    ensures StripHeader(Header(id) + rest) == Ok((id, rest))
  {
    BigEndianBijection(id, []);
    var bytes := Header(id) + rest;
    assert bytes[1..5] == BigEndian(id) && bytes[5..] == rest;
  }

  /** Decoding inverts encoding for every non-empty message index. */
  lemma FrameRoundTrip(id: int, index: seq<int>, body: Bytes)
    requires IsU32(id) && IsPath(index) && index != []
    ensures DecodeFrame(Frame(id, index, body)) == Ok((id, index, body))
  {
    hide PathBytes, ReadPath, StripHeader;
    assert Frame(id, index, body) == Header(id) + (PathBytes(index) + body);
    HeaderStripped(id, PathBytes(index) + body);
    PathRoundTrip(index, body);
  }

  /** The empty index is the one that does not: it decodes to [0]. */
  lemma EmptyIndexIsZero(id: int, body: Bytes)
    requires IsU32(id)
    ensures Frame(id, [], body) == Frame(id, [0], body) && DecodeFrame(Frame(id, [], body)) == Ok((id, [0], body))
  {
    ZeroByte();
    assert PathBytes([]) == Varint(ZigZag(0)) + [] == [0];
    FrameRoundTrip(id, [0], body);
  }

  lemma {:induction false} AcceptedIndices(bytes: Bytes, count: nat)
    requires ReadIndices(bytes, count).Ok?
    ensures var (index, body) := ReadIndices(bytes, count).value;
            |index| == count && (forall i <- index :: IsI32(i)) && bytes == Varints(index) + body
    decreases count
  {
    hide Varint, ZigZag, ReadVarint;
    if count > 0 {
      var (ix, rest) := ReadVarint(bytes).value;
      AcceptedIsCanonical(bytes);
      AcceptedIndices(rest, count - 1);
      var (more, end) := ReadIndices(rest, count - 1).value;
      assert ([ix] + more)[1..] == more;
      assert bytes == Varint(ZigZag(ix)) + Varints(more) + end;
    } else {
      assert bytes == [] + bytes;
    }
  }

  /** Nothing but an encoded frame is accepted, except the written-out form of the path [0]. */
  lemma AcceptedFrames(bytes: Bytes)
    requires DecodeFrame(bytes).Ok?
    ensures var (id, index, body) := DecodeFrame(bytes).value;
            IsU32(id) && (bytes == Frame(id, index, body) || (index == [0] && bytes == Header(id) + [2, 0] + body))
  {
    hide Varint, ReadVarint;
    var (id, rest) := StripHeader(bytes).value;
    BigEndianBijection(id, bytes[1..5]);
    assert bytes == Header(id) + rest;
    AcceptedIsCanonical(rest);
    var (len, tail) := ReadVarint(rest).value;
    ZeroByte();
    if len != 0 {
      AcceptedIndices(tail, len);
      var (index, body) := ReadIndices(tail, len).value;
      assert bytes == Header(id) + (Varint(ZigZag(len)) + Varints(index) + body);
      if index == [0] {
        assert Varints([0][1..]) == [] && Varints([0]) == [0] + [];
        assert bytes == Header(id) + [2, 0] + body;
      }
    }
  }

  // ------------------------------------------------------------------
  // The bytes themselves
  // ------------------------------------------------------------------

  /** Zigzag counts 0, -1, 1, -2, 2 and so on. */
  lemma ZigZagCounts(n: nat)
    ensures var v: int := n; ZigZag(0) == 0 && ZigZag(-v - 1) == ZigZag(v) + 1 && ZigZag(v + 1) == ZigZag(-v - 1) + 1
  {}

  function Digits(bytes: Bytes): nat {
    if bytes == [] then 0 else (bytes[0] as nat) % 128 + 128 * Digits(bytes[1..])
  }

  /** A varint is the number in base 128, least significant digit first, with the high bit on every byte but
      the last. */
  lemma {:induction false} VarintIsBase128(z: nat)
    ensures var bytes := Varint(z);
            && Digits(bytes) == z && bytes[|bytes| - 1] < 128
            && forall i :: 0 <= i < |bytes| - 1 ==> bytes[i] >= 128
  {
    if z >= 128 {
      VarintIsBase128(z / 128);
      var first, rest := z % 128 + 128, Varint(z / 128);
      assert Varint(z)[1..] == rest && Varint(z)[0] % 128 == z % 128;
      forall i | 0 <= i < |Varint(z)| - 1 ensures Varint(z)[i] >= 128 {
        if i > 0 { assert Varint(z)[i] == rest[i - 1]; }
      }
    } else {
      assert Varint(z)[1..] == [];
    }
  }

  /** A frame is a zero byte, the id in base 256, most significant digit first, the message index and the body;
      the path [0] is one zero byte, any other its length and its elements as zigzag varints. */
  lemma FrameLayout(id: int, index: seq<int>, body: Bytes)
    requires IsU32(id)
    ensures var frame := Frame(id, index, body);
            && |frame| >= 6 && frame[0] == 0
            && id == 0x100_0000 * (frame[1] as int) + 0x1_0000 * (frame[2] as int) + 0x100 * (frame[3] as int)
                     + frame[4] as int
            && |body| <= |frame| && frame[|frame| - |body|..] == body
            && frame[5..|frame| - |body|] ==
                 if index == [0] then [0] else Varint(ZigZag(|index|)) + Varints(index)
  {
    hide Varint, Varints, ZigZag;
    var path := PathBytes(index);
    assert Frame(id, index, body) == [MAGIC] + BigEndian(id) + (path + body);
    assert Frame(id, index, body)[5..] == path + body;
    IdDigits(id);
  }

  lemma IdDigits(id: int)
    requires IsU32(id)
    ensures var b := BigEndian(id);
            id == 0x100_0000 * (b[0] as int) + 0x1_0000 * (b[1] as int) + 0x100 * (b[2] as int) + b[3] as int
  {}
}
