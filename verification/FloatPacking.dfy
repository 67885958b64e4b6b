/** Amounts packed as a mantissa and a power of the base: the server's packer, over 128-bit arithmetic. */
module FloatPacking {
  import opened Types
  import opened Powers
  import opened Bits

  const U128_MAX: nat := 0xFFFF_FFFF_FFFF_FFFF_FFFF_FFFF_FFFF_FFFF

  function MaxMantissa(manBits: nat): nat {
    Pow(2, manBits) - 1
  }

  function MaxPower(expBits: nat): nat {
    Pow(2, expBits) - 1
  }

  /** The greatest packable number. */
  function Greatest(expBits: nat, manBits: nat, base: nat): nat {
    MaxMantissa(manBits) * Pow(base, MaxPower(expBits))
  }

  /** Exponent then mantissa, each lowest bit first. */
  function Layout(e: nat, m: nat, expBits: nat, manBits: nat): seq<bool> {
    BitsLE(e, expBits) + BitsLE(m, manBits)
  }

  // ---------- The exponent ----------

  /** `e` is the least exponent at which the greatest mantissa reaches `n`. */
  predicate IsLeast(max: nat, base: nat, n: nat, e: nat) {
    n <= max * Pow(base, e) && (e > 0 ==> max * Pow(base, e - 1) < n)
  }

  lemma LeastIsUnique(max: nat, base: nat, n: nat, e: nat, f: nat)
    requires base > 0 && IsLeast(max, base, n, e) && n <= max * Pow(base, f)
    ensures e <= f
    ensures IsLeast(max, base, n, f) ==> e == f
  {
    if f < e {
      PowMono(base, f, e - 1);
      MulMono(Pow(base, f), Pow(base, e - 1), max);
    } else if e < f {
      PowMono(base, e, f - 1);
      MulMono(Pow(base, e), Pow(base, f - 1), max);
    }
  }

  lemma HigherIsMore(max: nat, base: nat, e: nat)
    requires max > 0 && base >= 2
    ensures max * Pow(base, e) < max * Pow(base, e + 1)
  {
    MulGrows(base, Pow(base, e));
    ProductGrows(max, Pow(base, e), Pow(base, e + 1));
  }

  /** Search for it upwards. */
  function LeastFrom(max: nat, base: nat, n: nat, from: nat): (e: nat)
    requires max > 0 && base >= 2
    requires from > 0 ==> max * Pow(base, from - 1) < n
    ensures IsLeast(max, base, n, e)
    decreases n - max * Pow(base, from)
  {
    if n <= max * Pow(base, from) then from
    else
      HigherIsMore(max, base, from);
      LeastFrom(max, base, n, from + 1)
  }

  function Exponent(max: nat, base: nat, n: nat): (e: nat)
    requires max > 0 && base >= 2
    ensures IsLeast(max, base, n, e)
  {
    LeastFrom(max, base, n, 0)
  }

  // ---------- 128-bit arithmetic ----------

  /** A multiplication that must not overflow. */
  function Mul128(a: nat, b: nat): nat
    requires a * b <= U128_MAX
  {
    a * b
  }

  function SaturatingMul(a: nat, b: nat): nat {
    if a * b <= U128_MAX then a * b else U128_MAX
  }

  lemma SaturatingStep(a: nat, b: nat)
    requires b > 0
    ensures SaturatingMul(if a <= U128_MAX then a else U128_MAX, b) == if b * a <= U128_MAX then b * a else U128_MAX
  {
    if a > U128_MAX {
      MulMono(1, b, a);
      MulMono(1, b, U128_MAX);
    }
  }

  /** Saturation does not blur the range check on 128-bit numbers. */
  lemma SaturatedRange(n: nat, max: nat, top: nat)
    requires n <= U128_MAX && max > 0
    ensures n > SaturatingMul(max, if top <= U128_MAX then top else U128_MAX) <==> n > max * top
  {
    if top > U128_MAX {
      MulMono(1, max, top);
      MulMono(1, max, U128_MAX);
    }
  }

  /** Between the power found for `n / max` and the next one. */
  lemma GuessBounds(n: nat, max: nat, base: nat, e: nat)
    requires max > 0 && base >= 2
    requires 1 <= Quot(n / max, base, e) < base
    ensures max * Pow(base, e) <= n < max * Pow(base, e + 1)
    ensures Pow(base, e) <= n / max
  {
    var p, q := Pow(base, e), n / max;
    DivAtMost(q, p, 1);
    DivAtMost(q, p, base - 1);
    assert Pow(base, e + 1) == base * p;
    hide Pow;
    assert p <= q < base * p;
    DivAtMost(n, max, p);
    DivAtMost(n, max, base * p - 1);
    assert p * max == max * p && base * p * max == max * (base * p);
  }

  method ConvertToFloat(n: nat, expBits: nat, manBits: nat, base: nat) returns (r: Option<seq<bool>>)
    requires n <= U128_MAX && 2 <= base <= MaxMantissa(manBits) <= U128_MAX
    ensures r.None? <==> n > Greatest(expBits, manBits, base)
    ensures r.Some? ==>
              var e := Exponent(MaxMantissa(manBits), base, n);
              r.value == Layout(e, Quot(n, base, e), expBits, manBits)
  {
    var maxExponent := 1;
    var maxPower := MaxPower(expBits);
    for i := 0 to maxPower
      invariant maxExponent == if Pow(base, i) <= U128_MAX then Pow(base, i) else U128_MAX
    {
      SaturatingStep(Pow(base, i), base);
      maxExponent := SaturatingMul(maxExponent, base);
    }
    var max := MaxMantissa(manBits);
    SaturatedRange(n, max, Pow(base, maxPower));
    if n > SaturatingMul(max, maxExponent) {
      return None;
    }
    var exponent, mantissa := 0, n;
    if n > max {
      exponent, mantissa := Scale(n, max, base);
    } else {
      assert IsLeast(max, base, n, 0);
      QuotZero(n, base);
    }
    LeastIsUnique(max, base, n, Exponent(max, base, n), exponent);
    var encoding := [];
    for i := 0 to expBits
      invariant encoding == BitsLE(exponent, i)
    {
      encoding := encoding + [TestBit(exponent, i)];
    }
    for i := 0 to manBits
      invariant encoding == BitsLE(exponent, expBits) + BitsLE(mantissa, i)
    {
      encoding := encoding + [TestBit(mantissa, i)];
    }
    r := Some(encoding);
  }

  /** How often `q` can be divided by the base before it is below it. */
  method CountDivisions(q: nat, base: nat) returns (e: nat)
    requires q >= 1 && base >= 2
    ensures 1 <= Quot(q, base, e) < base
  {
    e := 0;
    var temp := q;
    QuotZero(q, base);
    hide Quot;
    while temp >= base
      invariant temp == Quot(q, base, e) && temp >= 1
      decreases temp
    {
      DivDiv(q, base, e);
      DivShrinks(temp, base);
      temp := temp / base;
      e := e + 1;
    }
  }

  lemma DivShrinks(n: nat, base: nat)
    requires n >= base >= 2
    ensures 1 <= n / base < n
  {
    DivAtMost(n, base, 1);
    DivBounds(n, base);
    MulMono(2, base, n / base);
  }

  method RaiseTo(base: nat, e: nat) returns (p: nat)
    requires base > 0 && Pow(base, e) <= U128_MAX
    ensures p == Pow(base, e)
  {
    p := 1;
    for i := 0 to e
      invariant p == Pow(base, i)
    {
      PowMono(base, i + 1, e);
      p := Mul128(base, p);
    }
  }

  lemma QuotientBelow(n: nat, max: nat)
    requires 0 < max < n
    ensures 1 <= n / max <= n
  {
    DivAtMost(n, max, 1);
    DivBounds(n, max);
    MulMono(1, max, n / max);
  }

  lemma BelowNext(max: nat, base: nat, n: nat, e: nat)
    requires base >= 2 && max > 0
    requires max * Pow(base, e) <= n < max * Pow(base, e + 1)
    ensures IsLeast(max, base, n, if max * Pow(base, e) < n then e + 1 else e)
  {
    if e > 0 {
      HigherIsMore(max, base, e - 1);
    }
  }

  /** The exponent by way of a quotient and a logarithm; no product on the way leaves 128 bits. */
  method Scale(n: nat, max: nat, base: nat) returns (exponent: nat, mantissa: nat)
    requires n <= U128_MAX && 2 <= base <= max < n
    ensures IsLeast(max, base, n, exponent) && mantissa == Quot(n, base, exponent)
  {
    QuotientBelow(n, max);
    exponent := CountDivisions(n / max, base);
    GuessBounds(n, max, base, exponent);
    BelowNext(max, base, n, exponent);
    var temp := RaiseTo(base, exponent);
    if Mul128(max, temp) < n {
      MulMono(base, max, temp);
      assert Pow(base, exponent + 1) == base * temp;
      exponent := exponent + 1;
      temp := Mul128(base, temp);
    }
    mantissa := n / temp;
  }

  // ---------- Bytes ----------

  const BASE: nat := 10
  const AMOUNT_EXPONENT_BITS: nat := 5
  const AMOUNT_MANTISSA_BITS: nat := 35
  const FEE_EXPONENT_BITS: nat := 5
  const FEE_MANTISSA_BITS: nat := 11

  /** Mantissa then exponent, each highest bit first, cut into bytes. */
  function Packed(e: nat, m: nat, expBits: nat, manBits: nat): seq<Byte>
    requires (expBits + manBits) % 8 == 0
  {
    BytesOf(Rev(Layout(e, m, expBits, manBits)))
  }

  function MantissaOf(data: seq<Byte>, manBits: nat): nat
    requires manBits <= |BitsOf(data)|
  {
    ValueLE(Rev(BitsOf(data)[..manBits]))
  }

  function ExponentOf(data: seq<Byte>, manBits: nat): nat
    requires manBits <= |BitsOf(data)|
  {
    ValueLE(Rev(BitsOf(data)[manBits..]))
  }

  /** What was packed can be read back. */
  lemma ReadBack(e: nat, m: nat, expBits: nat, manBits: nat)
    requires (expBits + manBits) % 8 == 0
    requires e <= MaxPower(expBits) && m <= MaxMantissa(manBits)
    ensures var data := Packed(e, m, expBits, manBits);
            && |BitsOf(data)| == expBits + manBits == 8 * |data|
            && MantissaOf(data, manBits) == m && ExponentOf(data, manBits) == e
  {
    var low, high := BitsLE(e, expBits), BitsLE(m, manBits);
    var data := Packed(e, m, expBits, manBits);
    BytesRoundTrip(Rev(low + high));
    BigEndianIsValue(data);
    RevConcat(low, high);
    RevConcat(high, low);
    assert BitsOf(data)[..manBits] == Rev(high) && BitsOf(data)[manBits..] == Rev(low);
    ValueOfBits(e, expBits);
    ValueOfBits(m, manBits);
  }

  /** None where the source aborts: the number does not convert to 128 bits, or is out of the format's range. */
  method PackAsFloat(n: nat, expBits: nat, manBits: nat) returns (data: Option<seq<Byte>>)
    requires BASE <= MaxMantissa(manBits) <= U128_MAX && (expBits + manBits) % 8 == 0
    ensures data == RustPack(n, expBits, manBits)
  {
    if n > U128_MAX {
      return None;
    }
    var bits := ConvertToFloat(n, expBits, manBits, BASE);
    if bits.None? {
      return None;
    }
    var bytes := PackBitsIntoBytesInOrder(Rev(bits.value));
    data := Some(bytes);
  }

  /** The numbers the server packs. */
  predicate ServerAccepts(n: nat, expBits: nat, manBits: nat) {
    n <= U128_MAX && n <= Greatest(expBits, manBits, BASE)
  }

  function RustPack(n: nat, expBits: nat, manBits: nat): Option<seq<Byte>>
    requires manBits > 0 && (expBits + manBits) % 8 == 0
  {
    if !ServerAccepts(n, expBits, manBits) then None
    else Some(PackWith(n, Exponent(MaxMantissa(manBits), BASE, n), BASE, expBits, manBits))
  }

  /** `n` packed at the given exponent. */
  function PackWith(n: nat, e: nat, base: nat, expBits: nat, manBits: nat): seq<Byte>
    requires base > 0 && (expBits + manBits) % 8 == 0
  {
    Packed(e, Quot(n, base, e), expBits, manBits)
  }

  /** Sum of the powers of two at the set bits, which come highest first. */
  method SumBits(bits: seq<bool>, limit: nat) returns (r: Option<nat>)
    requires Pow(2, |bits|) - 1 <= limit
    ensures r == Some(ValueLE(Rev(bits)))
  {
    ghost var rev := Rev(bits);
    var sum := 0;
    for i := 0 to |bits|
      invariant sum == ValueLE(rev[..i])
    {
      assert rev[..i + 1] == rev[..i] + [rev[i]];
      ValueOne(rev[..i], rev[i]);
      BitsOfValue(rev[..i + 1]);
      PowMono(2, i + 1, |bits|);
      if bits[|bits| - 1 - i] {
        if sum + Pow(2, i) > limit {
          return None;
        }
        sum := sum + Pow(2, i);
      }
    }
    assert rev[..|bits|] == rev;
    r := Some(sum);
  }

  const U32_MAX: nat := 0xFFFF_FFFF

  /** None when the length is wrong or the number leaves 128 bits. */
  method UnpackFloat(data: seq<Byte>, expBits: nat, manBits: nat) returns (r: Option<nat>)
    requires MaxMantissa(manBits) <= U128_MAX && MaxPower(expBits) <= U32_MAX
    ensures r == RustUnpack(data, expBits, manBits)
  {
    if expBits + manBits != |data| * 8 {
      return None;
    }
    BigEndianIsValue(data);
    var bits := BytesIntoBEBits(data);
    var mantissa := SumBits(bits[..manBits], U128_MAX);
    var exponent := SumBits(bits[manBits..], U32_MAX);
    r := CheckedScale(mantissa.value, exponent.value);
  }

  function RustUnpack(data: seq<Byte>, expBits: nat, manBits: nat): Option<nat> {
    if expBits + manBits != |data| * 8 then None else
    BigEndianIsValue(data);
    CheckedScale(MantissaOf(data, manBits), ExponentOf(data, manBits))
  }

  /** A power of the base and its multiple, each checked against 128 bits. */
  function CheckedScale(m: nat, e: nat): Option<nat> {
    var power := Pow(BASE, e);
    if power > U128_MAX || m * power > U128_MAX then None else Some(m * power)
  }

  // ---------- What packing keeps ----------

  lemma MantissaFits(n: nat, max: nat, base: nat, e: nat)
    requires base >= 2 && IsLeast(max, base, n, e)
    ensures Quot(n, base, e) <= max
  {
    var p := Pow(base, e);
    hide Pow;
    Distribute(max, 1, p);
    DivAtMost(n, p, max);
  }

  /** For every accepted number both fields fit, the loss is below one unit of the exponent, and, beyond the
      mantissa's range, below `base / max` of the number. */
  lemma PackingLoss(n: nat, expBits: nat, manBits: nat, base: nat)
    requires 2 <= base && MaxMantissa(manBits) > 0 && n <= Greatest(expBits, manBits, base)
    ensures var max := MaxMantissa(manBits);
            var e := Exponent(max, base, n);
            var m := Quot(n, base, e);
            && e <= MaxPower(expBits) && m <= max
            && m * Pow(base, e) <= n
            && n - m * Pow(base, e) < Pow(base, e)
            && (e > 0 ==> (n - m * Pow(base, e)) * max < base * n)
  {
    var max := MaxMantissa(manBits);
    var e := Exponent(max, base, n);
    var p := Pow(base, e);
    LeastIsUnique(max, base, n, e, MaxPower(expBits));
    MantissaFits(n, max, base, e);
    if e > 0 {
      var q := Pow(base, e - 1);
      assert p == base * q && max * q < n;
      hide Pow, MaxMantissa, Exponent, Greatest;
      DivBounds(n, p);
      LossBelow(n - (n / p) * p, max, base, q, n);
    } else {
      hide Pow;
      DivBounds(n, p);
    }
  }

  lemma LossBelow(loss: nat, max: nat, base: nat, q: nat, n: nat)
    requires loss < base * q && max * q < n && max > 0 && base > 0
    ensures loss * max < base * n
  {
    MulMono(loss, base * q, max);
    MulAssoc(base, q, max);
    MulMono(max * q, n - 1, base);
    assert base * (n - 1) == base * n - base;
    assert q * max == max * q;
  }
}
