/** The recorder's keys in the datastore: decimal epochs as path components, and the watermark bytes. */
module RecorderKeys {

  /** `abi.ChainEpoch` is an int64. */
  predicate Int64(n: int) {
    -0x8000_0000_0000_0000 <= n < 0x8000_0000_0000_0000
  }

  // ---- Decimal epochs ----

  function Digit(d: nat): char
    requires d < 10
  {
    '0' + d as char
  }

  predicate AllDigits(s: string) {
    forall i | 0 <= i < |s| :: '0' <= s[i] <= '9'
  }

  function Digits(n: nat): (s: string)
    ensures s != []
    ensures AllDigits(s)
  {
    if n < 10 then [Digit(n)] else Digits(n / 10) + [Digit(n % 10)]
  }

  function Decimal(n: int): string {
    if n < 0 then "-" + Digits(-n) else Digits(n)
  }

  /** The number a string of digits stands for. */
  function Value(s: string): nat
    requires AllDigits(s)
  {
    if s == [] then 0 else 10 * Value(s[..|s| - 1]) + (s[|s| - 1] - '0') as nat
  }

  lemma {:induction false} ValueOfDigits(n: nat)
    ensures Value(Digits(n)) == n
  {
    if n >= 10 {
      ValueOfDigits(n / 10);
      assert Digits(n)[..|Digits(n)| - 1] == Digits(n / 10);
    } else {
      assert Digits(n)[..0] == [];
    }
  }

  predicate SlashFree(s: string) {
    '/' !in s
  }

  lemma {:induction false} DigitsAreInjective(a: nat, b: nat)
    requires Digits(a) == Digits(b)
    ensures a == b
  {
    ValueOfDigits(a);
    ValueOfDigits(b);
  }

  /** The sign of an epoch shows in the first character of its text. */
  lemma {:induction false} DecimalShape(n: int)
    ensures Decimal(n) != [] && SlashFree(Decimal(n))
    ensures n < 0 <==> Decimal(n)[0] == '-'
    ensures n < 0 ==> Decimal(n)[1..] == Digits(-n)
  {
    var digits := Digits(if n < 0 then -n else n);
    assert digits[0] in digits && '0' <= digits[0] <= '9';
  }

  /** Different epochs have different texts, and none holds a slash. */
  lemma {:induction false} DecimalIsInjective(a: int, b: int)
    ensures SlashFree(Decimal(a))
    ensures Decimal(a) == Decimal(b) ==> a == b
  {
    DecimalShape(a);
    DecimalShape(b);
    if Decimal(a) == Decimal(b) {
      if a < 0 {
        DigitsAreInjective(-a, -b);
      } else {
        DigitsAreInjective(a, b);
      }
    }
  }

  // ---- Keys and prefix queries ----

  function Key(miner: string, epoch: int): string {
    "/" + Decimal(epoch) + "/" + miner
  }

  const META_MIN_EPOCH_KEY := "/index/min-epoch"

  /** A datastore query matches the keys strictly below its prefix as a path. */
  predicate Below(prefix: string, key: string) {
    prefix + "/" <= key
  }

  /** The text up to the first slash. */
  function Component(s: string): string {
    if s == [] || s[0] == '/' then [] else [s[0]] + Component(s[1..])
  }

  lemma {:induction false} ComponentOf(a: string, rest: string)
    requires SlashFree(a)
    ensures Component(a + "/" + rest) == a
  {
    if a != [] {
      assert (a + "/" + rest)[1..] == a[1..] + "/" + rest;
      assert a[0] in a && forall c | c in a[1..] :: c in a;
      ComponentOf(a[1..], rest);
    } else {
      assert a + "/" + rest == "/" + rest;
    }
  }

  lemma ComponentsAgree(a: string, b: string, rest: string)
    requires SlashFree(a) && SlashFree(b) && "/" + a + "/" <= "/" + b + "/" + rest
    ensures a == b
  {
    var whole := "/" + b + "/" + rest;
    var n := |"/" + a + "/"|;
    assert whole == "/" + a + "/" + whole[n..];
    assert whole[1..] == b + "/" + rest;
    assert whole[1..] == a + "/" + whole[n..];
    ComponentOf(a, whole[n..]);
    ComponentOf(b, rest);
  }

  lemma {:induction false} WatermarkIsApart(i: int)
    ensures !Below("/" + Decimal(i), META_MIN_EPOCH_KEY)
  {
    DecimalShape(i);
    assert META_MIN_EPOCH_KEY == "/" + "index" + "/" + "min-epoch";
    if Below("/" + Decimal(i), META_MIN_EPOCH_KEY) {
      ComponentsAgree(Decimal(i), "index", "min-epoch");
      NotIndex(i);
    }
  }

  lemma {:induction false} NotIndex(i: int)
    ensures Decimal(i) != "index"
  {
    DecimalShape(i);
    if i >= 0 {
      assert '0' <= Digits(i)[0] <= '9';
    }
  }

  /** The delete for epoch `i` reaches exactly the records of epoch `i`, never the watermark. */
  lemma {:induction false} PrefixMatchesOneEpoch(i: int, epoch: int, miner: string)
    ensures Below("/" + Decimal(i), Key(miner, epoch)) <==> i == epoch
    ensures !Below("/" + Decimal(i), META_MIN_EPOCH_KEY)
  {
    WatermarkIsApart(i);
    DecimalIsInjective(i, epoch);
    DecimalIsInjective(epoch, i);
    if Below("/" + Decimal(i), Key(miner, epoch)) {
      ComponentsAgree(Decimal(i), Decimal(epoch), miner);
    }
  }

  /** Different records have different keys, all different from the watermark's. */
  lemma KeysAreDistinct(m: string, e: int, m': string, e': int)
    ensures Key(m, e) == Key(m', e') <==> m == m' && e == e'
    ensures Key(m, e) != META_MIN_EPOCH_KEY
  {
    PrefixMatchesOneEpoch(e, e', m');
    PrefixMatchesOneEpoch(e, e, m);
    if Key(m, e) == Key(m', e') {
      var n := |"/" + Decimal(e) + "/"|;
      assert Key(m, e)[n..] == m && Key(m', e')[n..] == m';
    }
  }

  // ---- The watermark encoding ----

  type Byte = n: int | 0 <= n < 256

  /** `intoBytes`: two's complement, most significant byte first. */
  function IntoBytes(v: int): seq<Byte>
    requires Int64(v)
  {
    BigEndian(if v < 0 then v + 0x1_0000_0000_0000_0000 else v, 8)
  }

  function BigEndian(u: nat, n: nat): (b: seq<Byte>)
    ensures |b| == n
  {
    if n == 0 then [] else BigEndian(u / 256, n - 1) + [u % 256]
  }

  function FromBigEndian(b: seq<Byte>): nat {
    if b == [] then 0 else 256 * FromBigEndian(b[..|b| - 1]) + b[|b| - 1]
  }

  /** `fromBytes` into an int64. */
  function FromBytes(b: seq<Byte>): int {
    var u := FromBigEndian(b);
    if u >= 0x8000_0000_0000_0000 then u - 0x1_0000_0000_0000_0000 else u
  }

  function Pow256(n: nat): nat {
    if n == 0 then 1 else 256 * Pow256(n - 1)
  }

  lemma {:induction false} BigEndianRoundTrip(u: nat, n: nat)
    requires u < Pow256(n)
    ensures FromBigEndian(BigEndian(u, n)) == u
  {
    if n > 0 {
      BigEndianRoundTrip(u / 256, n - 1);
      assert BigEndian(u, n)[..n - 1] == BigEndian(u / 256, n - 1);
    }
  }

  lemma {:induction false} BytesRoundTrip(b: seq<Byte>)
    ensures FromBigEndian(b) < Pow256(|b|)
    ensures BigEndian(FromBigEndian(b), |b|) == b
  {
    if b != [] {
      BytesRoundTrip(b[..|b| - 1]);
      assert b == b[..|b| - 1] + [b[|b| - 1]];
    }
  }

  /** The first byte is the most significant one. */
  lemma {:induction false} MostSignificantFirst(b: seq<Byte>)
    requires b != []
    ensures FromBigEndian(b) == b[0] * Pow256(|b| - 1) + FromBigEndian(b[1..])
  {
    var n := |b| - 1;
    if n > 0 {
      MostSignificantFirst(b[..n]);
      assert b[..n][1..] == b[1..][..n - 1] && b[1..][n - 1] == b[n];
      Shift(b[0], Pow256(n - 1), FromBigEndian(b[..n][1..]));
    }
  }

  lemma Shift(x: int, p: int, rest: int)
    ensures 256 * (x * p + rest) == x * (256 * p) + 256 * rest
  {
  }

  lemma EightBytes()
    ensures Pow256(8) == 0x1_0000_0000_0000_0000
  {
    assert Pow256(4) == 0x1_0000_0000;
  }

  /** The watermark survives its encoding for every int64, and every eight bytes are one watermark. */
  lemma WatermarkRoundTrip(v: int, b: seq<Byte>)
    requires Int64(v) && |b| == 8
    ensures |IntoBytes(v)| == 8 && FromBytes(IntoBytes(v)) == v
    ensures Int64(FromBytes(b)) && IntoBytes(FromBytes(b)) == b
    ensures FromBigEndian(b) == b[0] * Pow256(7) + FromBigEndian(b[1..])
  {
    MostSignificantFirst(b);
    EightBytes();
    BigEndianRoundTrip(if v < 0 then v + 0x1_0000_0000_0000_0000 else v, 8);
    BytesRoundTrip(b);
  }
}
