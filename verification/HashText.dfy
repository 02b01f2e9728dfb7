/** The text and JSON forms of a hash (hash.go): upper-case hexadecimal, quoted for JSON. */
module HashText {
  import opened Headers

  const QUOTE: byte := 34

  /** The alphabet of encoding/hex. */
  function HexDigit(n: nat): byte
    requires n < 16
  {
    if n < 10 then 48 + n else 87 + n
  }

  function LowerHex(h: Hash): (text: seq<byte>)
    ensures |text| == 2 * |h|
  {
    if h == [] then [] else [HexDigit(h[0] / 16), HexDigit(h[0] % 16)] + LowerHex(h[1..])
  }

  function UpperByte(c: byte): byte {
    if 97 <= c <= 122 then c - 32 else c
  }

  function Upper(text: seq<byte>): (upper: seq<byte>)
    ensures |upper| == |text| && forall i | 0 <= i < |text| :: upper[i] == UpperByte(text[i])
  {
    seq(|text|, i requires 0 <= i < |text| => UpperByte(text[i]))
  }

  /** Hash.String. */
  function HexText(h: Hash): seq<byte> {
    Upper(LowerHex(h))
  }

  /** Hash.MarshalJSON. */
  function Json(h: Hash): seq<byte> {
    [QUOTE] + HexText(h) + [QUOTE]
  }

  method HexToUpper(b: array<byte>)
    modifies b
    ensures b[..] == Upper(old(b[..]))
  {
    for i := 0 to b.Length
      invariant forall k | 0 <= k < i :: b[k] == UpperByte(old(b[k]))
      invariant forall k | i <= k < b.Length :: b[k] == old(b[k])
    {
      var c := b[i];
      if 97 <= c <= 122 {
        c := c - 32;
      }
      b[i] := c;
    }
  }

  /** hex.Encode into b, from `offset` on. */
  method HexEncode(b: array<byte>, offset: nat, h: Hash)
    requires offset + 2 * |h| <= b.Length
    modifies b
    ensures b[..offset] == old(b[..offset]) && b[offset..offset + 2 * |h|] == LowerHex(h)
    ensures b[offset + 2 * |h|..] == old(b[offset + 2 * |h|..])
  {
    for i := 0 to |h|
      invariant b[..offset] == old(b[..offset])
      invariant b[offset + 2 * |h|..] == old(b[offset + 2 * |h|..])
      invariant b[offset..offset + 2 * i] == LowerHex(h[..i])
    {
      ghost var before := b[offset..offset + 2 * i];
      b[offset + 2 * i] := HexDigit(h[i] / 16);
      b[offset + 2 * i + 1] := HexDigit(h[i] % 16);
      LowerHexSnoc(h[..i], h[i]);
      assert h[..i + 1] == h[..i] + [h[i]];
      assert b[offset..offset + 2 * (i + 1)] == before + [HexDigit(h[i] / 16), HexDigit(h[i] % 16)];
    }
    assert h[..|h|] == h;
  }

  lemma {:induction false} LowerHexSnoc(h: Hash, c: byte)
    ensures LowerHex(h + [c]) == LowerHex(h) + [HexDigit(c / 16), HexDigit(c % 16)]
  {
    if h == [] {
      assert [c][1..] == [];
    } else {
      LowerHexSnoc(h[1..], c);
      assert (h + [c])[1..] == h[1..] + [c];
    }
  }

  method HashString(h: Hash) returns (buf: array<byte>)
    ensures fresh(buf) && buf[..] == HexText(h)
  {
    buf := new byte[2 * |h|];
    HexEncode(buf, 0, h);
    assert buf[..] == buf[0..0 + 2 * |h|];
    HexToUpper(buf);
  }

  method MarshalJSON(h: Hash) returns (buf: array<byte>)
    ensures fresh(buf) && buf[..] == Json(h)
  {
    buf := new byte[2 + 2 * |h|];
    buf[0] := QUOTE;
    HexEncode(buf, 1, h);
    assert buf[0] == QUOTE by { assert buf[..1][0] == buf[0]; }
    assert buf[1..1 + 2 * |h|] == LowerHex(h);
    ghost var lower := buf[..];
    assert forall k | 0 <= k < 2 * |h| :: lower[k + 1] == LowerHex(h)[k] by {
      forall k | 0 <= k < 2 * |h| ensures lower[k + 1] == LowerHex(h)[k] {
        assert buf[1..1 + 2 * |h|][k] == lower[k + 1];
      }
    }
    HexToUpper(buf);
    buf[buf.Length - 1] := QUOTE;
  }

  /** The value of a hex digit of either case. */
  function FromHex(c: byte): (v: Option<nat>)
    ensures v.Some? ==> v.value < 16
  {
    if 48 <= c <= 57 then Some(c - 48)
    else if 97 <= c <= 102 then Some(c - 87)
    else if 65 <= c <= 70 then Some(c - 55)
    else None
  }

  /** hex.Decode: None for an odd length or a character that is no digit. */
  function DecodeHex(text: seq<byte>): Option<Hash> {
    if text == [] then Some([])
    else if |text| == 1 then None
    else
      var hi, lo, rest := FromHex(text[0]), FromHex(text[1]), DecodeHex(text[2..]);
      if hi.None? || lo.None? || rest.None? then None else Some([16 * hi.value + lo.value] + rest.value)
  }

  function UnmarshalJSON(data: seq<byte>): Option<Hash> {
    if |data| < 2 || data[0] != QUOTE || data[|data| - 1] != QUOTE then None
    else DecodeHex(data[1..|data| - 1])
  }

  lemma DigitRoundTrip(n: nat)
    requires n < 16
    ensures FromHex(HexDigit(n)) == FromHex(UpperByte(HexDigit(n))) == Some(n)
  {
  }

  lemma {:induction false} TextRoundTrip(h: Hash)
    ensures DecodeHex(HexText(h)) == Some(h)
  {
    if h != [] {
      TextRoundTrip(h[1..]);
      assert HexText(h)[2..] == HexText(h[1..]);
      DigitRoundTrip(h[0] / 16);
      DigitRoundTrip(h[0] % 16);
      assert h == [h[0]] + h[1..];
    }
  }

  /** The text form identifies the hash. */
  lemma TextIsInjective(a: Hash, b: Hash)
    requires HexText(a) == HexText(b)
    ensures a == b
  {
    TextRoundTrip(a);
    TextRoundTrip(b);
  }

  lemma JsonRoundTrip(h: Hash)
    ensures UnmarshalJSON(Json(h)) == Some(h)
  {
    TextRoundTrip(h);
    assert Json(h)[1..|Json(h)| - 1] == HexText(h);
  }

  lemma UpperPair(text: seq<byte>)
    requires |text| >= 2
    ensures Upper(text) == [UpperByte(text[0]), UpperByte(text[1])] + Upper(text[2..])
  {
  }

  lemma HexTextPair(h: Hash)
    requires h != []
    ensures HexText(h) == [UpperByte(HexDigit(h[0] / 16)), UpperByte(HexDigit(h[0] % 16))] + HexText(h[1..])
  {
    var lower := LowerHex(h);
    assert lower == [HexDigit(h[0] / 16), HexDigit(h[0] % 16)] + LowerHex(h[1..]);
    assert lower[2..] == LowerHex(h[1..]);
    UpperPair(lower);
  }

  lemma DecodedPair(text: seq<byte>, h: Hash)
    requires |text| >= 2 && DecodeHex(text) == Some(h)
    ensures h != [] && DecodeHex(text[2..]) == Some(h[1..])
    ensures FromHex(text[0]) == Some(h[0] / 16) && FromHex(text[1]) == Some(h[0] % 16)
  {
    var hi, lo, rest := FromHex(text[0]).value, FromHex(text[1]).value, DecodeHex(text[2..]).value;
    NibblesOf(hi, lo);
    assert h[0] == 16 * hi + lo && h[1..] == rest;
  }

  lemma NibblesOf(hi: nat, lo: nat)
    requires lo < 16
    ensures (16 * hi + lo) / 16 == hi && (16 * hi + lo) % 16 == lo
  {
  }

  lemma {:induction false} DecodedText(text: seq<byte>, h: Hash)
    requires DecodeHex(text) == Some(h)
    ensures HexText(h) == Upper(text)
  {
    if |text| >= 2 {
      DecodedPair(text, h);
      DecodedText(text[2..], h[1..]);
      HexTextPair(h);
      UpperPair(text);
      SameDigit(text[0]);
      SameDigit(text[1]);
    }
  }

  lemma SameDigit(c: byte)
    requires FromHex(c).Some?
    ensures UpperByte(HexDigit(FromHex(c).value)) == UpperByte(c)
  {
  }

  /** UnmarshalJSON accepts exactly the JSON forms of hashes, in upper or lower case. */
  lemma UnmarshalInvertsMarshal(data: seq<byte>, h: Hash)
    ensures UnmarshalJSON(data) == Some(h) <==> Upper(data) == Json(h)
  {
    if UnmarshalJSON(data) == Some(h) {
      var text := data[1..|data| - 1];
      DecodedText(text, h);
      assert data == [QUOTE] + text + [QUOTE];
    }
    if Upper(data) == Json(h) {
      var text := data[1..|data| - 1];
      assert Upper(text) == Json(h)[1..|data| - 1] == HexText(h);
      assert UpperByte(data[0]) == QUOTE && UpperByte(data[|data| - 1]) == QUOTE;
      DecodesLikeUpper(text);
      TextRoundTrip(h);
    }
  }

  lemma {:induction false} DecodesLikeUpper(text: seq<byte>)
    ensures DecodeHex(text) == DecodeHex(Upper(text))
  {
    if |text| >= 2 {
      DecodesLikeUpper(text[2..]);
      assert Upper(text)[2..] == Upper(text[2..]);
    }
  }
}
