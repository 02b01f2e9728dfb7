/** Base 128 varints, as the generated code of p2p/pb/header_request.pb.go writes and reads them. */
module Varint {
  import opened Headers

  const TWO_64: int := 0x1_0000_0000_0000_0000
  const TWO_63: int := 0x8000_0000_0000_0000

  datatype Error =
    | IntOverflow | UnexpectedEOF | InvalidLength | EndGroup | IllegalTag | WrongWireType
    | UnexpectedEndOfGroup | IllegalWireType

  /** A value read from a buffer and the index behind it, or an error. */
  datatype Read<+T> = Got(value: T, next: nat) | Fail(err: Error)

  /** math/bits.Len64. */
  function BitLen(x: nat): nat {
    if x == 0 then 0 else 1 + BitLen(x / 2)
  }

  function OrOne(x: nat): nat {
    if x % 2 == 0 then x + 1 else x
  }

  function Sov(x: nat): nat {
    (BitLen(OrOne(x)) + 6) / 7
  }

  /** The encoding itself: seven bits a byte, low bits first, the high bit set on all but the last. */
  function Bytes(v: nat): seq<byte> {
    if v < 128 then [v] else [v % 128 + 128] + Bytes(v / 128)
  }

  lemma BitLenOfHalves(x: nat)
    requires x >= 128
    ensures BitLen(x) == 7 + BitLen(x / 128)
  {
    var a := x / 2;
    var b := a / 2;
    var c := b / 2;
    var d := c / 2;
    var e := d / 2;
    var f := e / 2;
    assert f >= 2 && f / 2 == x / 128;
    assert BitLen(x) == 1 + BitLen(a) && BitLen(a) == 1 + BitLen(b) && BitLen(b) == 1 + BitLen(c);
    assert BitLen(c) == 1 + BitLen(d) && BitLen(d) == 1 + BitLen(e) && BitLen(e) == 1 + BitLen(f);
    assert BitLen(f) == 1 + BitLen(f / 2);
  }

  lemma SovStep(v: nat)
    ensures v < 128 ==> Sov(v) == 1
    ensures v >= 128 ==> Sov(v) == 1 + Sov(v / 128)
  {
    var x := OrOne(v);
    if v < 128 {
      assert x < Pow2(7);
      assert BitLen(x) == 1 + BitLen(x / 2);
      SmallBitLen(x, 7);
    } else {
      BitLenOfHalves(x);
      assert x / 128 == v / 128;
      BitLenOrOne(v / 128);
    }
  }

  function Pow2(n: nat): nat {
    if n == 0 then 1 else 2 * Pow2(n - 1)
  }

  lemma {:induction false} SmallBitLen(x: nat, n: nat)
    requires x < Pow2(n)
    ensures BitLen(x) <= n
  {
    if x > 0 {
      SmallBitLen(x / 2, n - 1);
    }
  }

  lemma BitLenOrOne(x: nat)
    requires x > 0
    ensures BitLen(OrOne(x)) == BitLen(x)
  {
    assert OrOne(x) / 2 == x / 2;
  }

  /** Every varint takes exactly as many bytes as sovHeaderRequest says. */
  lemma {:induction false} BytesTakeSov(v: nat)
    ensures |Bytes(v)| == Sov(v)
    decreases v
  {
    SovStep(v);
    if v >= 128 {
      BytesTakeSov(v / 128);
    }
  }

  /** encodeVarintHeaderRequest: writes the varint so that it ends just before `offset`. */
  method EncodeVarint(a: array<byte>, offset: nat, v: nat) returns (base: nat)
    requires Sov(v) <= offset <= a.Length
    modifies a
    ensures base + Sov(v) == offset
    ensures a[base..offset] == Bytes(v)
    ensures a[..base] == old(a[..base]) && a[offset..] == old(a[offset..])
  {
    base := offset - Sov(v);
    var at, rest := base, v;
    ghost var all := Bytes(v);
    BytesTakeSov(v);
    while rest >= 128
      invariant base <= at < offset && Bytes(rest) == all[at - base..]
      invariant a[base..at] == all[..at - base]
      invariant a[..base] == old(a[..base]) && a[offset..] == old(a[offset..])
      decreases rest
    {
      BytesUnfold(rest);
      a[at] := rest % 128 + 128;
      assert a[base..at + 1] == a[base..at] + [all[at - base]];
      rest := rest / 128;
      at := at + 1;
    }
    a[at] := rest;
    assert Bytes(rest) == [rest];
    assert a[base..offset] == a[base..at] + [rest];
  }

  lemma BytesUnfold(v: nat)
    requires v >= 128
    ensures Bytes(v)[0] == v % 128 + 128 && Bytes(v / 128) == Bytes(v)[1..] && Bytes(v)[1..] != []
  {
  }

  /** The low seven bits of b, shifted to `weight` and cut to 64 bits, or-ed into an acc below `weight`. */
  function OrShifted(acc: nat, b: byte, weight: nat): (r: nat)
    ensures r < TWO_64
  {
    (acc + b % 128 * weight) % TWO_64
  }

  /**
   * The reading loop from index i on: `weight` is two to the `shift`, `acc` the bits read so far.
   * As acc < weight, adding a shifted byte is the same as or-ing it in.
   */
  function DecodeFrom(data: seq<byte>, i: nat, shift: nat, weight: nat, acc: nat): (r: Read<nat>)
    ensures r.Got? && acc < TWO_64 ==> r.value < TWO_64 && i < r.next <= |data|
    decreases |data| - i
  {
    if shift >= 64 then Fail(IntOverflow)
    else if i >= |data| then Fail(UnexpectedEOF)
    else
      var sum := OrShifted(acc, data[i], weight);
      if data[i] < 128 then Got(sum, i + 1) else DecodeFrom(data, i + 1, shift + 7, weight * 128, sum)
  }

  function Decode(data: seq<byte>, i: nat): Read<nat> {
    DecodeFrom(data, i, 0, 1, 0)
  }

  method ReadVarint(data: seq<byte>, index: nat) returns (r: Read<nat>)
    ensures r == Decode(data, index)
  {
    var i, shift: nat, weight: nat, v: nat := index, 0, 1, 0;
    while true
      invariant index <= i && v < TWO_64
      invariant shift < 64 + 7 && (shift < 64 ==> v < weight == Pow2(shift) <= TWO_63)
      invariant DecodeFrom(data, i, shift, weight, v) == Decode(data, index)
      decreases 64 + 7 - shift
    {
      if shift >= 64 {
        return Fail(IntOverflow);
      }
      if i >= |data| {
        return Fail(UnexpectedEOF);
      }
      var b := data[i];
      i := i + 1;
      NextWeight(shift, weight, v, b);
      v := OrShifted(v, b, weight);
      if b < 128 {
        return Got(v, i);
      }
      shift, weight := shift + 7, weight * 128;
    }
  }

  lemma Pow2Seven(n: nat)
    ensures Pow2(n + 7) == 128 * Pow2(n)
  {
    assert Pow2(n + 7) == 2 * Pow2(n + 6);
    assert Pow2(n + 6) == 2 * Pow2(n + 5);
    assert Pow2(n + 5) == 2 * Pow2(n + 4);
    assert Pow2(n + 4) == 2 * Pow2(n + 3);
    assert Pow2(n + 3) == 2 * Pow2(n + 2);
    assert Pow2(n + 2) == 2 * Pow2(n + 1);
  }

  lemma Pow2Limits()
    ensures Pow2(63) == TWO_63 && Pow2(64) == TWO_64
  {
    assert Pow2(0) == 1;
    Pow2Seven(0);
    Pow2Seven(7);
    Pow2Seven(14);
    Pow2Seven(21);
    Pow2Seven(28);
    Pow2Seven(35);
    Pow2Seven(42);
    Pow2Seven(49);
    Pow2Seven(56);
    assert Pow2(64) == 2 * Pow2(63);
  }

  lemma NextWeight(shift: nat, weight: nat, v: nat, b: byte)
    requires shift < 64 && v < weight == Pow2(shift) <= TWO_63
    ensures weight * 128 == Pow2(shift + 7)
    ensures OrShifted(v, b, weight) < TWO_64 && (shift + 7 < 64 ==> OrShifted(v, b, weight) < weight * 128)
    ensures shift + 7 < 64 ==> weight * 128 <= TWO_63
  {
    Pow2Seven(shift);
    Pow2Limits();
    if shift + 7 < 64 {
      Pow2Rises(shift + 7, 63);
      OrShiftedBelow(v, b, weight);
    }
  }

  lemma OrShiftedBelow(acc: nat, b: byte, weight: nat)
    requires acc < weight && weight * 128 <= TWO_63
    ensures OrShifted(acc, b, weight) < weight * 128
  {
    var digit := b % 128;
    ByteBelow(digit, weight);
    assert acc + digit * weight < TWO_64;
  }

  lemma ByteBelow(b: nat, weight: nat)
    requires b <= 127
    ensures b * weight <= 127 * weight
  {
  }

  lemma {:induction false} Pow2Rises(a: nat, b: nat)
    requires a <= b
    ensures Pow2(a) <= Pow2(b)
  {
    if a < b {
      Pow2Rises(a, b - 1);
    }
  }

  lemma SplitByWeight(v: nat, weight: nat)
    requires v >= 128
    ensures v * weight == v % 128 * weight + v / 128 * (weight * 128)
    ensures v / 128 * (weight * 128) >= weight * 128
  {
    var low, high := v % 128, v / 128;
    assert v == low + 128 * high;
    assert (low + 128 * high) * weight == low * weight + 128 * high * weight;
    assert 128 * high * weight == high * (weight * 128);
    assert high >= 1;
    assert high * (weight * 128) >= 1 * (weight * 128);
  }

  lemma ShiftFits(shift: nat, weight: nat)
    requires shift <= 63 && weight == Pow2(shift) && weight * 128 < TWO_64
    ensures shift + 7 <= 63 && weight * 128 == Pow2(shift + 7)
  {
    Pow2Seven(shift);
    Pow2Limits();
    if shift + 7 > 63 {
      Pow2Rises(64, shift + 7);
    }
  }

  lemma DecodeOneMore(data: seq<byte>, i: nat, shift: nat, weight: nat, acc: nat, sum: nat)
    requires i < |data| && data[i] >= 128 && shift < 64 && sum == acc + data[i] % 128 * weight < TWO_64
    ensures DecodeFrom(data, i, shift, weight, acc) == DecodeFrom(data, i + 1, shift + 7, weight * 128, sum)
  {
    assert sum % TWO_64 == sum;
  }

  lemma DecodeDigit(data: seq<byte>, i: nat, shift: nat, weight: nat, acc: nat, digit: nat, sum: nat)
    requires i < |data| && digit < 128 && data[i] == digit + 128 && shift < 64 && sum == acc + digit * weight < TWO_64
    ensures DecodeFrom(data, i, shift, weight, acc) == DecodeFrom(data, i + 1, shift + 7, weight * 128, sum)
  {
    assert data[i] % 128 == digit;
    DecodeOneMore(data, i, shift, weight, acc, sum);
  }

  lemma DecodeLast(data: seq<byte>, i: nat, shift: nat, weight: nat, acc: nat)
    requires i < |data| && data[i] < 128 && shift < 64 && acc + data[i] * weight < TWO_64
    ensures DecodeFrom(data, i, shift, weight, acc) == Got(acc + data[i] * weight, i + 1)
  {
    var sum := acc + data[i] * weight;
    assert sum % TWO_64 == sum;
  }

  lemma SplitTotal(v: nat, shift: nat, weight: nat, acc: nat, total: nat) returns (sum: nat)
    requires v >= 128 && weight == Pow2(shift) && shift <= 63 && acc + v * weight == total < TWO_64
    ensures sum == acc + v % 128 * weight && sum + v / 128 * (weight * 128) == total
    ensures sum < TWO_64 && shift + 7 <= 63 && weight * 128 == Pow2(shift + 7)
  {
    SplitByWeight(v, weight);
    ShiftFits(shift, weight);
    sum := acc + v % 128 * weight;
  }

  lemma {:induction false} DecodeBytes(pre: seq<byte>, v: nat, post: seq<byte>, shift: nat, weight: nat, acc: nat, total: nat)
    requires weight == Pow2(shift) && shift <= 63 && acc + v * weight == total < TWO_64
    ensures DecodeFrom(pre + Bytes(v) + post, |pre|, shift, weight, acc) == Got(total, |pre| + |Bytes(v)|)
    decreases v
  {
    Layout(pre, v, post);
    if v < 128 {
      DecodeLast(pre + Bytes(v) + post, |pre|, shift, weight, acc);
    } else {
      var sum := SplitTotal(v, shift, weight, acc, total);
      DecodeDigit(pre + Bytes(v) + post, |pre|, shift, weight, acc, v % 128, sum);
      DecodeBytes(pre + [v % 128 + 128], v / 128, post, shift + 7, weight * 128, sum, total);
    }
  }

  lemma Layout(pre: seq<byte>, v: nat, post: seq<byte>)
    ensures v < 128 ==> Bytes(v) == [v] && (pre + Bytes(v) + post)[|pre|] == v
    ensures v >= 128 ==>
              && |Bytes(v)| == 1 + |Bytes(v / 128)|
              && (pre + Bytes(v) + post)[|pre|] == v % 128 + 128
              && pre + Bytes(v) + post == (pre + [v % 128 + 128]) + Bytes(v / 128) + post
  {
  }

  /**
   * A varint that does not end: it is an overflow from the tenth continuing byte on, and an unexpected
   * end of the data before.
   */
  lemma {:induction false} EndlessVarint(data: seq<byte>, i: nat, shift: nat, weight: nat, acc: nat)
    requires i <= |data| && forall k | i <= k < |data| :: data[k] >= 128
    ensures DecodeFrom(data, i, shift, weight, acc) == Fail(if shift + 7 * (|data| - i) >= 64 then IntOverflow else UnexpectedEOF)
    decreases |data| - i
  {
    if shift < 64 && i < |data| {
      EndlessVarint(data, i + 1, shift + 7, weight * 128, OrShifted(acc, data[i], weight));
    }
  }

  /** Every uint64 decodes to itself, wherever its varint stands. */
  lemma VarintRoundTrip(pre: seq<byte>, v: nat, post: seq<byte>)
    requires v < TWO_64
    ensures Decode(pre + Bytes(v) + post, |pre|) == Got(v, |pre| + Sov(v))
  {
    DecodeBytes(pre, v, post, 0, 1, 0, v);
    BytesTakeSov(v);
  }
}
