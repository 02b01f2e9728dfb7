/** The datastore keys of the store (store/keys.go) and why they never collide. */
module Keys {
  import opened Headers
  import opened HashText

  /** What the store keeps under a key: a header, an index entry, or one of the two pointers. */
  datatype Key = HashKey(hash: Hash) | HeightKey(height: nat) | HeadKey | TailKey

  /** strconv.FormatUint with base 10. */
  function Decimal(n: nat): seq<byte> {
    if n < 10 then [48 + n] else Decimal(n / 10) + [48 + n % 10]
  }

  function Name(k: Key): seq<byte> {
    match k
    case HashKey(hash) => HexText(hash)
    case HeightKey(height) => Decimal(height)
    case HeadKey => [104, 101, 97, 100] // head
    case TailKey => [116, 97, 105, 108] // tail
  }

  function Pow10(k: nat): nat {
    if k == 0 then 1 else 10 * Pow10(k - 1)
  }

  predicate IsDigit(c: byte) {
    48 <= c <= 57
  }

  lemma {:induction false} DecimalDigits(n: nat)
    ensures Decimal(n) != [] && forall i | 0 <= i < |Decimal(n)| :: IsDigit(Decimal(n)[i])
  {
    if n >= 10 {
      DecimalDigits(n / 10);
    }
  }

  lemma {:induction false} DecimalIsInjective(a: nat, b: nat)
    requires Decimal(a) == Decimal(b)
    ensures a == b
  {
    DecimalDigits(a / 10);
    DecimalDigits(b / 10);
    if a >= 10 && b >= 10 {
      var n := |Decimal(a)| - 1;
      assert Decimal(a)[..n] == Decimal(a / 10) && Decimal(b)[..n] == Decimal(b / 10);
      assert Decimal(a)[n] == 48 + a % 10 && Decimal(b)[n] == 48 + b % 10;
      DecimalIsInjective(a / 10, b / 10);
    }
  }

  lemma {:induction false} DecimalLength(n: nat, k: nat)
    requires k > 0 && n < Pow10(k)
    ensures |Decimal(n)| <= k
  {
    if n >= 10 {
      DecimalLength(n / 10, k - 1);
    }
  }

  lemma Uint64HasTwentyDigits(n: nat)
    requires n <= MAX_UINT64
    ensures |Decimal(n)| <= 20
  {
    TwentyDigits();
    DecimalLength(n, 20);
  }

  lemma TwentyDigits()
    ensures Pow10(19) == 10_000_000_000_000_000_000 && MAX_UINT64 < Pow10(20)
  {
    assert Pow10(5) == 100_000;
    assert Pow10(10) == 100_000 * Pow10(5);
    assert Pow10(15) == 100_000 * Pow10(10);
    assert Pow10(20) == 10 * Pow10(19) == 100_000 * Pow10(15);
  }

  lemma {:induction false} HexTextChars(h: Hash)
    ensures |HexText(h)| == 2 * |h|
    ensures forall i | 0 <= i < |HexText(h)| :: IsDigit(HexText(h)[i]) || 65 <= HexText(h)[i] <= 70
  {
    if h != [] {
      HexTextChars(h[1..]);
      assert HexText(h)[2..] == HexText(h[1..]);
      forall i | 2 <= i < |HexText(h)| ensures IsDigit(HexText(h)[i]) || 65 <= HexText(h)[i] <= 70 {
        assert HexText(h)[i] == HexText(h[1..])[i - 2];
      }
    }
  }

  /** A key the store uses: heights are uint64, and the hash is longer than ten bytes. */
  predicate Usable(k: Key) {
    (k.HeightKey? ==> k.height <= MAX_UINT64) && (k.HashKey? ==> |k.hash| > 10)
  }

  lemma HashAndHeightDiffer(hash: Hash, height: nat)
    requires |hash| > 10 && height <= MAX_UINT64
    ensures Name(HashKey(hash)) != Name(HeightKey(height))
  {
    HexTextChars(hash);
    Uint64HasTwentyDigits(height);
  }

  lemma PointerKeysDiffer(k: Key)
    requires k.HashKey? || k.HeightKey?
    ensures Name(k) != Name(HeadKey) && Name(k) != Name(TailKey)
  {
    match k
    case HashKey(hash) =>
      HexTextChars(hash);
      assert Name(HeadKey)[0] == 104 && Name(TailKey)[0] == 116;
    case HeightKey(height) =>
      DecimalDigits(height);
      assert Name(HeadKey)[0] == 104 && Name(TailKey)[0] == 116 && IsDigit(Name(k)[0]);
  }

  /** No two different keys of the store have the same name. */
  lemma KeysNeverCollide(a: Key, b: Key)
    requires Usable(a) && Usable(b)
    ensures Name(a) == Name(b) <==> a == b
  {
    assert Name(HeadKey)[0] != Name(TailKey)[0];
    if Name(a) == Name(b) {
      match (a, b)
      case (HashKey(g), HashKey(h)) => TextIsInjective(g, h);
      case (HeightKey(m), HeightKey(n)) => DecimalIsInjective(m, n);
      case (HashKey(h), HeightKey(n)) => HashAndHeightDiffer(h, n);
      case (HeightKey(n), HashKey(h)) => HashAndHeightDiffer(h, n);
      case (HashKey(_), _) => PointerKeysDiffer(a);
      case (HeightKey(_), _) => PointerKeysDiffer(a);
      case (_, HashKey(_)) => PointerKeysDiffer(b);
      case (_, HeightKey(_)) => PointerKeysDiffer(b);
      case _ =>
    }
  }

  function Zeros(n: nat): seq<byte> {
    seq(n, _ => 48)
  }

  lemma {:induction false} DecimalOfPow10(k: nat)
    ensures Decimal(Pow10(k)) == [49] + Zeros(k)
  {
    if k > 0 {
      DecimalOfPow10(k - 1);
      assert Zeros(k) == Zeros(k - 1) + [48];
    }
  }

  lemma {:induction false} HexOfZeros(n: nat)
    ensures HexText(seq(n, _ => 0)) == Zeros(2 * n)
  {
    var h: Hash := seq(n, _ => 0);
    if n > 0 {
      HexOfZeros(n - 1);
      assert h[1..] == seq(n - 1, _ => 0);
      assert HexText(h)[2..] == HexText(h[1..]);
    }
  }

  lemma {:induction false} Pow10Rises(a: nat, b: nat)
    requires a <= b
    ensures Pow10(a) <= Pow10(b)
  {
    if a < b {
      Pow10Rises(a, b - 1);
    }
  }

  /** Ten bytes is the exact limit: for every shorter length some hash has the name of a height. */
  lemma ShorterHashesCollide(n: nat) returns (hash: Hash, height: nat)
    requires 1 <= n <= 10
    ensures |hash| == n && height <= MAX_UINT64 && Name(HashKey(hash)) == Name(HeightKey(height))
  {
    hash, height := [16] + seq(n - 1, _ => 0), Pow10(2 * n - 1);
    SmallPowerFits(2 * n - 1);
    DecimalOfPow10(2 * n - 1);
    HexOfTen(n - 1);
    LeadingZero(2 * n - 2);
  }

  lemma SmallPowerFits(k: nat)
    requires k <= 19
    ensures Pow10(k) <= MAX_UINT64
  {
    TwentyDigits();
    Pow10Rises(k, 19);
  }

  lemma LeadingZero(n: nat)
    ensures [49] + Zeros(n + 1) == [49, 48] + Zeros(n)
  {
  }

  lemma HexOfTen(n: nat)
    ensures var hash: Hash := [16] + seq(n, _ => 0); HexText(hash) == [49, 48] + Zeros(2 * n)
  {
    var tail: Hash := seq(n, _ => 0);
    var hash: Hash := [16] + tail;
    HexOfZeros(n);
    assert hash[1..] == tail;
    assert HexText(hash)[2..] == HexText(tail);
    assert HexText(hash)[0] == 49 && HexText(hash)[1] == 48;
  }
}
