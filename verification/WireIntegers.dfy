/**
 Integers in host memory and on the wire (water/base/funcs.h, and htons/htonl of the platform).
 The byte order of the host is a parameter.
 */
module WireIntegers {

  newtype byte = x: int | 0 <= x < 256

  type uint8 = x: int | 0 <= x < 0x100
  type uint16 = x: int | 0 <= x < 0x1_0000
  type uint32 = x: int | 0 <= x < 0x1_0000_0000
  type uint64 = x: int | 0 <= x < 0x1_0000_0000_0000_0000

  const TWO_TO_32 := 0x1_0000_0000

  datatype HostOrder = LittleEndian | BigEndian

  /* ---------- Numbers as bytes ---------- */

  // The k low bytes of v in network order: the most significant byte first.
  function NetworkBytes(v: nat, k: nat): (bs: seq<byte>)
    ensures |bs| == k
  {
    if k == 0 then [] else NetworkBytes(v / 256, k - 1) + [(v % 256) as byte]
  }

  // The number that bytes in network order stand for.
  function NetworkValue(bs: seq<byte>): nat {
    if bs == [] then 0 else NetworkValue(bs[..|bs| - 1]) * 256 + bs[|bs| - 1] as int
  }

  function Reverse(bs: seq<byte>): (r: seq<byte>)
    ensures |r| == |bs|
    ensures forall i :: 0 <= i < |r| ==> r[i] == bs[|bs| - 1 - i]
  {
    if bs == [] then [] else Reverse(bs[1..]) + [bs[0]]
  }

  // v, stored in k bytes of host memory, and back.
  function Store(h: HostOrder, v: nat, k: nat): (bs: seq<byte>)
    ensures |bs| == k
  {
    if h == BigEndian then NetworkBytes(v, k) else Reverse(NetworkBytes(v, k))
  }

  function Load(h: HostOrder, bs: seq<byte>): nat {
    NetworkValue(if h == BigEndian then bs else Reverse(bs))
  }

  function Pow256(k: nat): nat {
    if k == 0 then 1 else 256 * Pow256(k - 1)
  }

  lemma {:induction false} ValueOfBytes(v: nat, k: nat)
    requires v < Pow256(k)
    ensures NetworkValue(NetworkBytes(v, k)) == v
  {
    if k > 0 {
      ValueOfBytes(v / 256, k - 1);
      assert NetworkBytes(v, k)[..k - 1] == NetworkBytes(v / 256, k - 1);
    }
  }

  lemma {:induction false} BytesOfValue(bs: seq<byte>)
    ensures NetworkBytes(NetworkValue(bs), |bs|) == bs
    ensures NetworkValue(bs) < Pow256(|bs|)
  {
    if bs != [] {
      var front := bs[..|bs| - 1];
      BytesOfValue(front);
      assert bs == front + [bs[|bs| - 1]];
      assert NetworkValue(bs) / 256 == NetworkValue(front);
    }
  }

  lemma ReverseTwice(bs: seq<byte>)
    ensures Reverse(Reverse(bs)) == bs
  {
  }

  lemma Powers()
    ensures Pow256(1) == 0x100 && Pow256(2) == 0x1_0000 && Pow256(4) == TWO_TO_32
    ensures Pow256(8) == 0x1_0000_0000_0000_0000
  {
    assert Pow256(3) == 0x100_0000;
    assert Pow256(5) == 0x100_0000_0000;
    assert Pow256(6) == 0x1_0000_0000_0000;
    assert Pow256(7) == 0x100_0000_0000_0000;
  }

  /* ---------- Which byte stands where ---------- */

  lemma DivideTwice(v: nat, unit: nat)
    requires unit > 0
    ensures v / 256 / unit == v / (256 * unit)
  {
    var q, r := v / 256 / unit, v / 256 % unit;
    var low := v % 256;
    assert v == 256 * (q * unit + r) + low;
    assert 256 * (q * unit + r) + low == q * (256 * unit) + (256 * r + low);
    assert 256 * r + low < 256 * unit;
    QuotientIs(v, 256 * unit, q, 256 * r + low);
  }

  lemma MoreUnits(a: nat, b: nat, unit: nat)
    requires a < b
    ensures a * unit + unit <= b * unit
  {
    if a + 1 < b {
      MoreUnits(a, b - 1, unit);
    }
  }

  lemma QuotientIs(v: nat, unit: nat, q: nat, r: nat)
    requires v == q * unit + r && r < unit
    ensures v / unit == q
  {
    var d := v / unit;
    assert v == d * unit + v % unit;
    if d < q {
      MoreUnits(d, q, unit);
    } else if d > q {
      MoreUnits(q, d, unit);
    }
  }

  // Digit i of a number to the base 256.
  function DigitAt(v: nat, i: nat): nat {
    Pow256Positive(i);
    v / Pow256(i) % 256
  }

  // The byte in place i from the right is digit i. So the most significant
  // byte comes first.
  lemma {:induction false} NetworkByteAt(v: nat, k: nat, i: nat)
    requires i < k
    ensures NetworkBytes(v, k)[k - 1 - i] as int == DigitAt(v, i)
  {
    if i > 0 {
      NetworkByteAt(v / 256, k - 1, i - 1);
      Pow256Positive(i - 1);
      DivideTwice(v, Pow256(i - 1));
    }
  }

  // The value of bytes is the sum of the bytes, each times the power of 256 for its place.
  function PlaceSum(bs: seq<byte>, n: nat): nat
    requires n <= |bs|
  {
    if n == 0 then 0 else PlaceSum(bs, n - 1) + bs[|bs| - n] as int * Pow256(n - 1)
  }

  lemma {:induction false} PlaceSumShifts(bs: seq<byte>, n: nat)
    requires n < |bs|
    ensures PlaceSum(bs, n + 1) == 256 * PlaceSum(bs[..|bs| - 1], n) + bs[|bs| - 1] as int
  {
    if n > 0 {
      PlaceSumShifts(bs, n - 1);
      ShiftProduct(bs[|bs| - n - 1] as int, Pow256(n - 1));
    }
  }

  lemma ShiftProduct(b: nat, unit: nat)
    ensures b * (256 * unit) == 256 * (b * unit)
  {
  }

  lemma {:induction false} NetworkValueIsPlaceSum(bs: seq<byte>)
    ensures NetworkValue(bs) == PlaceSum(bs, |bs|)
  {
    if bs != [] {
      NetworkValueIsPlaceSum(bs[..|bs| - 1]);
      PlaceSumShifts(bs, |bs| - 1);
    }
  }

  // The same for host memory: on a little-endian host the least significant byte comes first.
  lemma StoredByteAt(h: HostOrder, v: nat, k: nat, i: nat)
    requires i < k
    ensures Store(h, v, k)[if h == LittleEndian then i else k - 1 - i] as int == DigitAt(v, i)
  {
    NetworkByteAt(v, k, i);
    var bs := NetworkBytes(v, k);
    assert h == LittleEndian ==> Store(h, v, k)[i] == bs[k - 1 - i];
  }

  // For example, 0x01020304.
  lemma FourBytes()
    ensures NetworkBytes(0x0102_0304, 4) == [1, 2, 3, 4] && NetworkValue([1, 2, 3, 4]) == 0x0102_0304
  {
    NetworkByteAt(0x0102_0304, 4, 0);
    NetworkByteAt(0x0102_0304, 4, 1);
    NetworkByteAt(0x0102_0304, 4, 2);
    NetworkByteAt(0x0102_0304, 4, 3);
    Powers();
    assert Pow256(0) == 1 && Pow256(3) == 0x100_0000;
    ValueOfBytes(0x0102_0304, 4);
  }

  /* ---------- htons, htonl, ntohs, ntohl ---------- */

  // Both directions are the same function: a byte swap on a little-endian host, nothing on the other.
  function SwapToNetwork(h: HostOrder, v: nat, k: nat): nat {
    if h == BigEndian then v else NetworkValue(Reverse(NetworkBytes(v, k)))
  }

  lemma SwapFits(h: HostOrder, v: nat, k: nat)
    requires v < Pow256(k)
    ensures SwapToNetwork(h, v, k) < Pow256(k)
  {
    BytesOfValue(Reverse(NetworkBytes(v, k)));
  }

  lemma SwapTwice(h: HostOrder, v: nat, k: nat)
    requires v < Pow256(k)
    ensures SwapToNetwork(h, SwapToNetwork(h, v, k), k) == v
  {
    BytesOfValue(Reverse(NetworkBytes(v, k)));
    ReverseTwice(NetworkBytes(v, k));
    ValueOfBytes(v, k);
  }

  // A swapped number lies in memory in network order, on either host.
  lemma StoredSwapIsNetworkOrder(h: HostOrder, v: nat, k: nat)
    ensures Store(h, SwapToNetwork(h, v, k), k) == NetworkBytes(v, k)
  {
    BytesOfValue(Reverse(NetworkBytes(v, k)));
    ReverseTwice(NetworkBytes(v, k));
  }

  // What a read makes of bytes: ntohs and ntohl of the number in host memory.
  function Unwire(h: HostOrder, bs: seq<byte>): nat {
    SwapToNetwork(h, Load(h, bs), |bs|)
  }

  lemma UnwireIsNetworkValue(h: HostOrder, bs: seq<byte>)
    ensures Unwire(h, bs) == NetworkValue(bs)
  {
    BytesOfValue(Reverse(bs));
    ReverseTwice(bs);
  }

  /* ---------- hton64, ntoh64 ---------- */

  // (htonl(low half) << 32) | htonl(high half); the conversion to 32 bits drops the high half.
  function Hton64(h: HostOrder, v: uint64): nat {
    SwapToNetwork(h, v % TWO_TO_32, 4) * TWO_TO_32 + SwapToNetwork(h, v / TWO_TO_32, 4)
  }

  function Ntoh64(h: HostOrder, v: uint64): nat {
    Hton64(h, v)
  }

  lemma SwapFits32(h: HostOrder, v: uint32)
    ensures SwapToNetwork(h, v, 4) < TWO_TO_32
  {
    Powers();
    SwapFits(h, v, 4);
  }

  lemma Hton64Fits(h: HostOrder, v: uint64)
    ensures Hton64(h, v) < 0x1_0000_0000_0000_0000
  {
    SwapFits32(h, v % TWO_TO_32);
    SwapFits32(h, v / TWO_TO_32);
  }

  // ntoh64 inverts hton64 on either host.
  lemma Ntoh64InvertsHton64(h: HostOrder, v: uint64)
    ensures Hton64(h, v) < 0x1_0000_0000_0000_0000 && Ntoh64(h, Hton64(h, v)) == v
  {
    Hton64Fits(h, v);
    var low, high := v % TWO_TO_32, v / TWO_TO_32;
    SwapFits32(h, high);
    assert Hton64(h, v) % TWO_TO_32 == SwapToNetwork(h, high, 4);
    assert Hton64(h, v) / TWO_TO_32 == SwapToNetwork(h, low, 4);
    Powers();
    SwapTwice(h, low, 4);
    SwapTwice(h, high, 4);
  }

  // Dividing by 256 peels the last byte off the low part of a number.
  lemma PeelByte(high: nat, low: nat, unit: nat)
    requires unit > 0
    ensures (high * (256 * unit) + low) / 256 == high * unit + low / 256
    ensures (high * (256 * unit) + low) % 256 == low % 256
  {
    var v := high * (256 * unit) + low;
    assert v == 256 * (high * unit + low / 256) + low % 256;
  }

  lemma {:induction false} LowBytesPeelOff(high: nat, low: nat, j: nat, k: nat)
    requires low < Pow256(k)
    ensures NetworkBytes(high * Pow256(k) + low, j + k) == NetworkBytes(high, j) + NetworkBytes(low, k)
  {
    if k > 0 {
      assert Pow256(k - 1) > 0 by { Pow256Positive(k - 1); }
      PeelByte(high, low, Pow256(k - 1));
      LowBytesPeelOff(high, low / 256, j, k - 1);
    }
  }

  lemma Pow256Positive(k: nat)
    ensures Pow256(k) > 0
  {
  }

  lemma EightBytesAreTwoHalves(v: nat)
    ensures NetworkBytes(v, 8) == NetworkBytes(v / TWO_TO_32, 4) + NetworkBytes(v % TWO_TO_32, 4)
  {
    Powers();
    LowBytesPeelOff(v / TWO_TO_32, v % TWO_TO_32, 4, 4);
  }

  // What AppendInt64 puts on the wire.
  function Wire64(h: HostOrder, v: uint64): (bs: seq<byte>)
    ensures |bs| == 8
  {
    Store(h, Hton64(h, v), 8)
  }

  // What ReadInt64 makes of eight bytes.
  function Unwire64(h: HostOrder, bs: seq<byte>): nat
    requires |bs| == 8
  {
    LoadFits64(h, bs);
    Ntoh64(h, Load(h, bs))
  }

  lemma LoadFits64(h: HostOrder, bs: seq<byte>)
    requires |bs| == 8
    ensures Load(h, bs) < 0x1_0000_0000_0000_0000
  {
    Powers();
    BytesOfValue(if h == BigEndian then bs else Reverse(bs));
  }

  lemma Wire64RoundTrip(h: HostOrder, v: uint64)
    ensures Unwire64(h, Wire64(h, v)) == v
  {
    Hton64Fits(h, v);
    Powers();
    ValueOfBytes(Hton64(h, v), 8);
    ReverseTwice(NetworkBytes(Hton64(h, v), 8));
    Ntoh64InvertsHton64(h, v);
  }

  lemma ReverseConcat(a: seq<byte>, b: seq<byte>)
    ensures Reverse(a + b) == Reverse(b) + Reverse(a)
  {
  }

  lemma Wire64Halves(h: HostOrder, v: uint64)
    ensures var high, low := NetworkBytes(v / TWO_TO_32, 4), NetworkBytes(v % TWO_TO_32, 4);
            Wire64(h, v) == if h == LittleEndian then high + low else low + high
  {
    var low, high := v % TWO_TO_32, v / TWO_TO_32;
    SwapFits32(h, low);
    SwapFits32(h, high);
    var a, b := SwapToNetwork(h, low, 4), SwapToNetwork(h, high, 4);
    Powers();
    LowBytesPeelOff(a, b, 4, 4);
    StoredSwapIsNetworkOrder(h, low, 4);
    StoredSwapIsNetworkOrder(h, high, 4);
    ReverseConcat(NetworkBytes(a, 4), NetworkBytes(b, 4));
  }

  // On a little-endian host the eight bytes are in network order. On a big-endian one hton64 swaps
  // the halves, so they are so only for numbers whose halves are equal.
  lemma Wire64IsNetworkOrderIff(h: HostOrder, v: uint64)
    ensures Wire64(h, v) == NetworkBytes(v, 8) <==> h == LittleEndian || v / TWO_TO_32 == v % TWO_TO_32
  {
    var low, high := v % TWO_TO_32, v / TWO_TO_32;
    Wire64Halves(h, v);
    EightBytesAreTwoHalves(v);
    if h == BigEndian && Wire64(h, v) == NetworkBytes(v, 8) {
      assert NetworkBytes(low, 4) == Wire64(h, v)[..4] == NetworkBytes(high, 4);
      Powers();
      ValueOfBytes(low, 4);
      ValueOfBytes(high, 4);
    }
  }
}
