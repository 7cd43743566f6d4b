/** The variable-length integer codec of mrpc_int.c.

    Unsigned values travel as little-endian groups of seven bits, one per octet, the top bit of an octet
    saying that another octet follows. Signed values are first mapped to unsigned ones by ZigZag. */
module Varint {
  import opened Arithmetic
  import opened Wrappers

  const MAX_OCTETS: nat := 10
  const TWO_64: nat := 0x1_0000_0000_0000_0000
  const TWO_32: nat := 0x1_0000_0000

  type Uint64 = x: int | 0 <= x < TWO_64

  /** 128 to the power n: the weight of octet n. */
  function Weight(n: nat): (w: nat)
    ensures w >= 1
  {
    if n == 0 then 1 else 128 * Weight(n - 1)
  }

  function Encode(x: nat): (s: seq<Byte>)
    ensures s != []
  {
    if x < 128 then [x] else [x % 128 + 128] + Encode(x / 128)
  }

  /** What reading a value from a stream yields: the value and the unread octets, or a failure. */
  datatype Decoded = Value(v: nat, rest: seq<Byte>) | Failure

  /** The decoding loop, entered with k octets read and the value acc accumulated so far. */
  function DecodeFrom(s: seq<Byte>, k: nat, acc: nat): Decoded
    decreases |s|
  {
    if k >= MAX_OCTETS || s == [] then Failure
    else
      var acc' := acc + (s[0] % 128 * Weight(k)) % TWO_64;
      if s[0] >= 128 then DecodeFrom(s[1..], k + 1, acc') else Value(acc', s[1..])
  }

  function Decode(s: seq<Byte>): Decoded {
    DecodeFrom(s, 0, 0)
  }

  // ---- the stream the codec reads and writes ----

  /** The underlying byte stream: the octets still to be read, the octets written, and whether writing fails. */
  class ByteStream {
    var input: seq<Byte>
    var output: seq<Byte>
    var broken: bool

    method Read(n: nat) returns (data: Option<seq<Byte>>)
      modifies this`input
      ensures data.Some? <==> n <= |old(input)|
      ensures data.Some? ==> data.value == old(input)[..n] && input == old(input)[n..]
    {
      if n <= |input| {
        data := Some(input[..n]);
        input := input[n..];
      } else {
        data := None;
        input := [];
      }
    }

    method Write(data: seq<Byte>) returns (ok: bool)
      modifies this`output
      ensures ok <==> !broken
      ensures output == if ok then old(output) + data else old(output)
    {
      ok := !broken;
      if ok {
        output := output + data;
      }
    }
  }

  // ---- the two loops of mrpc_int.c ----

  method Serialize64(data: Uint64, stream: ByteStream) returns (ok: bool)
    modifies stream`output
    ensures ok <==> !stream.broken
    ensures stream.output == if ok then old(stream.output) + Encode(data) else old(stream.output)
  {
    var buf := new Byte[MAX_OCTETS];
    var len, d, more := 0, data, true;
    while more
      invariant 0 <= d && 0 <= len <= MAX_OCTETS && stream.output == old(stream.output)
      invariant more ==> d * Weight(len) <= data && (len > 0 ==> d > 0)
      invariant more ==> Encode(data) == buf[..len] + Encode(d)
      invariant !more ==> Encode(data) == buf[..len]
      decreases more, d
    {
      if len > 0 {
        FewOctets(d, len, data);
      }
      ghost var d0 := d;
      var octet: Byte := d % 128;
      d := d / 128;
      if d != 0 {
        octet := octet + 128;
      }
      buf[len] := octet;
      DivideWeight(d0, len);
      len := len + 1;
      more := d != 0;
    }
    ok := stream.Write(buf[..len]);
  }

  /** The left shift of a 64-bit word, which drops what does not fit. */
  function ShiftLeft64(x: nat, n: nat): nat {
    x * Pow2(n) % TWO_64
  }

  method Unserialize64(stream: ByteStream) returns (data: Option<Uint64>)
    modifies stream`input
    ensures match Decode(old(stream.input))
            case Value(v, rest) => data == Some(v) && stream.input == rest
            case Failure => data == None
    ensures |stream.input| + MAX_OCTETS >= |old(stream.input)|
  {
    var u: nat, bitsLen: nat, more := 0, 0, true;
    ghost var k := 0;
    while more
      invariant k <= MAX_OCTETS && bitsLen == 7 * k
      invariant u < Weight(k) && u < TWO_64 && |stream.input| + k == |old(stream.input)|
      invariant Decode(old(stream.input)) == if more then DecodeFrom(stream.input, k, u) else Value(u, stream.input)
      decreases MAX_OCTETS - k
    {
      if bitsLen >= 64 {
        return None;
      }
      var octet := stream.Read(1);
      if octet == None {
        return None;
      }
      OrAccumulates(u, octet.value[0] % 128, k);
      AccumulateBounds(u, octet.value[0] % 128, k);
      u := BitOr(u, ShiftLeft64(octet.value[0] % 128, bitsLen));
      bitsLen, k := bitsLen + 7, k + 1;
      more := octet.value[0] >= 128;
    }
    return Some(u);
  }

  // ---- arithmetic helpers ----

  lemma WeightValues()
    ensures Weight(9) == 0x8000_0000_0000_0000
    ensures Weight(10) == 128 * Weight(9) > TWO_64
    ensures Weight(1) == 128 && Weight(2) == 16384 && Weight(5) > TWO_32
  {
    assert Weight(3) == 128 * Weight(2) && Weight(4) == 128 * Weight(3) && Weight(5) == 128 * Weight(4);
    assert Weight(6) == 128 * Weight(5) && Weight(7) == 128 * Weight(6) && Weight(8) == 128 * Weight(7);
  }

  /** A positive value that has been shifted len octets down started at least at the weight of octet len. */
  lemma FewOctets(d: nat, len: nat, x: nat)
    requires d > 0 && d * Weight(len) <= x < TWO_64
    ensures len < MAX_OCTETS
  {
    MulMono(1, d, Weight(len));
    if len >= MAX_OCTETS {
      WeightValues();
      WeightMono(10, len);
    }
  }

  lemma DivideWeight(d: nat, k: nat)
    ensures (d / 128) * Weight(k + 1) <= d * Weight(k)
  {
    var q := d / 128;
    assert q * Weight(k + 1) == (128 * q) * Weight(k);
    MulMono(128 * q, d, Weight(k));
  }

  lemma WeightMono(j: nat, k: nat)
    requires j <= k
    ensures Weight(j) <= Weight(k)
  {
    if j < k {
      WeightMono(j, k - 1);
    }
  }

  /** Adding the next group keeps the value within its groups and within 64 bits: the OR of the code is a sum. */
  lemma AccumulateBounds(u: nat, g: nat, k: nat)
    requires k < MAX_OCTETS && u < Weight(k) && g < 128
    ensures u + (g * Weight(k)) % TWO_64 < Weight(k + 1)
    ensures u + (g * Weight(k)) % TWO_64 < TWO_64
  {
    WeightValues();
    MulMono(g, 127, Weight(k));
    if k < 9 {
      WeightMono(k + 1, 9);
    } else {
      TopGroup(g);
    }
  }

  lemma {:induction false} WeightIsPow2(k: nat)
    ensures Weight(k) == Pow2(7 * k)
  {
    if k > 0 {
      WeightIsPow2(k - 1);
      Pow2Values();
      Pow2Sum(7, 7 * (k - 1));
    }
  }

  /** What a shift by fewer than 64 bits leaves is a multiple of its power of two. */
  lemma ShiftedIsMultiple(g: nat, n: nat)
    requires n <= 64
    ensures ShiftLeft64(g, n) % Pow2(n) == 0
  {
    Pow2Values();
    Pow2Sum(n, 64 - n);
    ReducedMultiple(g, Pow2(n), Pow2(64 - n), TWO_64);
  }

  /** The OR of the code adds the next group at its weight, as far as it fits. */
  lemma OrAccumulates(u: nat, g: nat, k: nat)
    requires k < MAX_OCTETS && u < Weight(k)
    ensures BitOr(u, ShiftLeft64(g, 7 * k)) == u + (g * Weight(k)) % TWO_64
  {
    WeightIsPow2(k);
    ShiftedIsMultiple(g, 7 * k);
    OrIsSum(u, ShiftLeft64(g, 7 * k), 7 * k);
  }

  /** The tenth group is shifted by 63, so only its lowest bit survives. */
  lemma TopGroup(g: nat)
    ensures (g * Weight(9)) % TWO_64 == (g % 2) * Weight(9)
  {
    WeightValues();
    assert g * Weight(9) == (g / 2) * TWO_64 + (g % 2) * Weight(9);
  }

  // ---- what the codec guarantees ----

  /** Decoding undoes encoding for every 64-bit value and leaves whatever follows untouched. */
  lemma RoundTrip(x: Uint64, rest: seq<Byte>)
    ensures Decode(Encode(x) + rest) == Value(x, rest)
  {
    RoundTripFrom(x, rest, 0, 0);
  }

  lemma {:induction false} RoundTripFrom(x: nat, rest: seq<Byte>, k: nat, acc: nat)
    requires k < MAX_OCTETS && acc + x * Weight(k) < TWO_64
    ensures DecodeFrom(Encode(x) + rest, k, acc) == Value(acc + x * Weight(k), rest)
    decreases x
  {
    if x < 128 {
      DecodeStep(x, rest, k, acc);
    } else {
      var q, g := x / 128, x % 128;
      var high, low := q * Weight(k + 1), g * Weight(k);
      assert Encode(x) + rest == [g + 128] + (Encode(q) + rest);
      assert x * Weight(k) == high + low && low >= 0 by { SplitProduct(q, g, Weight(k)); }
      assert k + 1 < MAX_OCTETS by { FewOctets(q, k + 1, high); }
      DecodeStep(g + 128, Encode(q) + rest, k, acc);
      RoundTripFrom(q, rest, k + 1, acc + low);
    }
  }

  lemma DecodeStep(octet: Byte, rest: seq<Byte>, k: nat, acc: nat)
    requires k < MAX_OCTETS && 0 <= octet % 128 * Weight(k) && acc + octet % 128 * Weight(k) < TWO_64
    ensures DecodeFrom([octet] + rest, k, acc) ==
            var acc' := acc + octet % 128 * Weight(k);
            if octet >= 128 then DecodeFrom(rest, k + 1, acc') else Value(acc', rest)
  {
    assert ([octet] + rest)[1..] == rest;
  }

  lemma SplitProduct(q: nat, g: nat, w: nat)
    ensures (128 * q + g) * w == q * (128 * w) + g * w
    ensures q * (128 * w) >= 0 && g * w >= 0
  {
  }

  /** An encoding has n octets exactly when the value needs n groups of seven bits. */
  lemma {:induction false} EncodedLength(x: nat, n: nat)
    requires n > 0
    ensures |Encode(x)| == n <==> x < Weight(n) && (n > 1 ==> x >= Weight(n - 1))
  {
    if x >= 128 && n > 1 {
      EncodedLength(x / 128, n - 1);
      assert x / 128 < Weight(n - 1) <==> x < Weight(n) by { GroupBound(x, n - 1); }
      if n > 2 {
        assert x / 128 >= Weight(n - 2) <==> x >= Weight(n - 1) by { GroupBound(x, n - 2); }
      } else {
        assert Weight(1) == 128;
      }
    } else if x < 128 {
      assert Weight(1) == 128;
      if n > 1 { WeightMono(1, n - 1); }
    } else {
      assert Weight(1) == 128;
    }
  }

  lemma GroupBound(x: nat, n: nat)
    ensures x / 128 < Weight(n) <==> x < Weight(n + 1)
  {
  }

  /** The position of the first octet without a continuation flag. */
  function Terminator(s: seq<Byte>): (t: nat)
    ensures t <= |s| && (t < |s| ==> s[t] < 128) && forall i :: 0 <= i < t ==> s[i] >= 128
  {
    if s == [] || s[0] < 128 then 0 else 1 + Terminator(s[1..])
  }

  /** The value of a list of groups, low group first, before any truncation; the first is group k. */
  function GroupSum(s: seq<Byte>, k: nat): nat {
    if s == [] then 0 else s[0] % 128 * Weight(k) + GroupSum(s[1..], k + 1)
  }

  /** Decoding accepts exactly the inputs whose first ten octets contain a terminator, consumes the octets up
      to it, and yields the sum of their groups modulo 2^64. */
  lemma DecodeMeaning(s: seq<Byte>)
    ensures var t := Terminator(s);
            Decode(s) == if t < |s| && t < MAX_OCTETS then Value(GroupSum(s[..t + 1], 0) % TWO_64, s[t + 1..])
              else Failure
  {
    DecodeFromMeaning(s, 0, 0);
  }

  lemma {:induction false} DecodeFromMeaning(s: seq<Byte>, k: nat, acc: nat)
    requires k <= MAX_OCTETS && acc < Weight(k) && acc < TWO_64
    ensures DecodeFrom(s, k, acc) == Meaning(s, k, acc)
    decreases |s|
  {
    if k < MAX_OCTETS && s != [] {
      AccumulateBounds(acc, s[0] % 128, k);
      FirstGroup(s, k, acc);
      if s[0] >= 128 {
        DecodeFromMeaning(s[1..], k + 1, acc + (s[0] % 128 * Weight(k)) % TWO_64);
      }
    }
  }

  /** What the decoding loop yields from a state of k octets read and acc accumulated. */
  function Meaning(s: seq<Byte>, k: nat, acc: nat): Decoded {
    var t := Terminator(s);
    if t < |s| && k + t < MAX_OCTETS
    then Value((acc + GroupSum(s[..t + 1], k)) % TWO_64, s[t + 1..])
    else Failure
  }

  /** Splitting the first group off a terminated list of groups. */
  lemma FirstGroup(s: seq<Byte>, k: nat, acc: nat)
    requires s != [] && k < MAX_OCTETS
    requires acc + (s[0] % 128 * Weight(k)) % TWO_64 < TWO_64
    ensures var acc' := acc + (s[0] % 128 * Weight(k)) % TWO_64;
            Meaning(s, k, acc) == if s[0] < 128 then Value(acc', s[1..]) else Meaning(s[1..], k + 1, acc')
  {
    if s[0] < 128 {
      LastGroup(s, k, acc, s[0] % 128 * Weight(k));
    } else {
      MoreGroups(s, k, acc, s[0] % 128 * Weight(k));
    }
  }

  lemma LastGroup(s: seq<Byte>, k: nat, acc: nat, first: nat)
    requires s != [] && k < MAX_OCTETS && s[0] < 128 && first == s[0] % 128 * Weight(k)
    requires acc + first % TWO_64 < TWO_64
    ensures Meaning(s, k, acc) == Value(acc + first % TWO_64, s[1..])
  {
    assert Terminator(s) == 0;
    var one := s[..1];
    assert one[1..] == [] && GroupSum(one, k) == first;
    ModSum(acc, first, 0);
  }

  lemma MoreGroups(s: seq<Byte>, k: nat, acc: nat, first: nat)
    requires s != [] && k < MAX_OCTETS && s[0] >= 128 && first == s[0] % 128 * Weight(k)
    ensures Meaning(s, k, acc) == Meaning(s[1..], k + 1, acc + first % TWO_64)
  {
    var t := Terminator(s);
    if t < |s| {
      var tail := s[1..][..t];
      assert s[..t + 1][1..] == tail;
      ModSum(acc, first, GroupSum(tail, k + 1));
    }
  }

  lemma ModSum(a: nat, b: nat, c: nat)
    ensures (a + b % TWO_64 + c) % TWO_64 == (a + (b + c)) % TWO_64
  {
    assert a + b + c == a + b % TWO_64 + c + TWO_64 * (b / TWO_64);
    ModAddMultiple(a + b % TWO_64 + c, b / TWO_64);
  }

  lemma ModAddMultiple(x: nat, q: nat)
    ensures (x + TWO_64 * q) % TWO_64 == x % TWO_64
  {
  }

  /** Reading a 32-bit value refuses what does not fit in 32 bits. */
  function Decode32(s: seq<Byte>): (d: Decoded) {
    match Decode(s)
    case Value(v, rest) => if v < TWO_32 then Value(v, rest) else Failure
    case Failure => Failure
  }

  // ---- ZigZag, on the machine words of the code ----

  function Sar31(x: bv32): bv32 { 0 - (x >> 31) }  // an arithmetic shift that keeps only the sign
  function ZigZag32(x: bv32): bv32 { (x << 1) ^ Sar31(x) }
  function UnZigZag32(u: bv32): bv32 { (u >> 1) ^ (0 - (u & 1)) }

  function Sar63(x: bv64): bv64 { 0 - (x >> 63) }  // an arithmetic shift that keeps only the sign
  function ZigZag64(x: bv64): bv64 { (x << 1) ^ Sar63(x) }
  function UnZigZag64(u: bv64): bv64 { (u >> 1) ^ (0 - (u & 1)) }

  /** ZigZag sends m to 2m and -m-1 to 2m+1, so small magnitudes of either sign get short encodings. */
  lemma ZigZag32Meaning(m: bv32)
    requires m <= 0x7FFF_FFFF
    ensures ZigZag32(m) == m + m && ZigZag32(0 - m - 1) == m + m + 1
  {
  }

  lemma UnZigZag32Meaning(m: bv32)
    requires m <= 0x7FFF_FFFF
    ensures UnZigZag32(m + m) == m && UnZigZag32(m + m + 1) == 0 - m - 1
  {
  }

  lemma Sign32(x: bv32) returns (m: bv32)
    ensures m <= 0x7FFF_FFFF && (x == m || x == 0 - m - 1)
  {
    m := if x <= 0x7FFF_FFFF then x else 0 - x - 1;
  }

  lemma Parity32(x: bv32) returns (m: bv32)
    ensures m <= 0x7FFF_FFFF && (x == m + m || x == m + m + 1)
  {
    m := x >> 1;
  }

  /** Decoding a signed 32-bit word undoes encoding it. */
  lemma ZigZag32RoundTrip(x: bv32)
    ensures UnZigZag32(ZigZag32(x)) == x
  {
    var m := Sign32(x);
    ZigZag32Meaning(m);
    UnZigZag32Meaning(m);
  }

  /** Every 32-bit word is the encoding of the signed word it decodes to. */
  lemma UnZigZag32RoundTrip(u: bv32)
    ensures ZigZag32(UnZigZag32(u)) == u
  {
    var m := Parity32(u);
    ZigZag32Meaning(m);
    UnZigZag32Meaning(m);
  }

  /** ZigZag sends m to 2m and -m-1 to 2m+1, so small magnitudes of either sign get short encodings. */
  lemma ZigZag64Meaning(m: bv64)
    requires m <= 0x7FFF_FFFF_FFFF_FFFF
    ensures ZigZag64(m) == m + m && ZigZag64(0 - m - 1) == m + m + 1
  {
  }

  lemma UnZigZag64Meaning(m: bv64)
    requires m <= 0x7FFF_FFFF_FFFF_FFFF
    ensures UnZigZag64(m + m) == m && UnZigZag64(m + m + 1) == 0 - m - 1
  {
  }

  lemma Sign64(x: bv64) returns (m: bv64)
    ensures m <= 0x7FFF_FFFF_FFFF_FFFF && (x == m || x == 0 - m - 1)
  {
    m := if x <= 0x7FFF_FFFF_FFFF_FFFF then x else 0 - x - 1;
  }

  lemma Parity64(x: bv64) returns (m: bv64)
    ensures m <= 0x7FFF_FFFF_FFFF_FFFF && (x == m + m || x == m + m + 1)
  {
    m := x >> 1;
  }

  /** Decoding a signed 64-bit word undoes encoding it. */
  lemma ZigZag64RoundTrip(x: bv64)
    ensures UnZigZag64(ZigZag64(x)) == x
  {
    var m := Sign64(x);
    ZigZag64Meaning(m);
    UnZigZag64Meaning(m);
  }

  /** Every 64-bit word is the encoding of the signed word it decodes to. */
  lemma UnZigZag64RoundTrip(u: bv64)
    ensures ZigZag64(UnZigZag64(u)) == u
  {
    var m := Parity64(u);
    ZigZag64Meaning(m);
    UnZigZag64Meaning(m);
  }

  // ---- signed values on the wire ----

  /** A signed 64-bit word x is sent as the unsigned value u of ZigZag64(x); what is read back decodes to x. */
  lemma SignedRoundTrip64(x: bv64, u: Uint64, rest: seq<Byte>)
    requires u as bv64 == ZigZag64(x)
    ensures Decode(Encode(u) + rest) == Value(u, rest) && UnZigZag64(u as bv64) == x
  {
    RoundTrip(u, rest);
    ZigZag64RoundTrip(x);
  }

  /** The same for 32 bits, through the reader that refuses values above 32 bits. */
  lemma SignedRoundTrip32(x: bv32, u: Uint64, rest: seq<Byte>)
    requires u < TWO_32 && u as bv32 == ZigZag32(x)
    ensures Decode32(Encode(u) + rest) == Value(u, rest) && UnZigZag32(u as bv32) == x
  {
    RoundTrip(u, rest);
    ZigZag32RoundTrip(x);
  }
}
