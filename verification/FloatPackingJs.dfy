/** The client library's packer: the same encoding by another algorithm, over unbounded integers. */
module FloatPackingJs {
  import opened Types
  import opened Powers
  import opened Bits
  import opened FloatPacking

  /** `e` is the least exponent at which the truncated quotient is a mantissa. */
  predicate IsFirst(max: nat, base: nat, n: nat, e: nat)
    requires base > 0
  {
    Quot(n, base, e) <= max && (e > 0 ==> Quot(n, base, e - 1) > max)
  }

  lemma FirstIsUnique(max: nat, base: nat, n: nat, e: nat, f: nat)
    requires base > 0 && IsFirst(max, base, n, e) && Quot(n, base, f) <= max
    ensures e <= f
    ensures IsFirst(max, base, n, f) ==> e == f
  {
    if f < e {
      QuotientFalls(n, base, f, e - 1);
    } else if e < f {
      QuotientFalls(n, base, e, f - 1);
    }
  }

  lemma QuotientFalls(n: nat, base: nat, e: nat, f: nat)
    requires base > 0 && e <= f
    ensures Quot(n, base, f) <= Quot(n, base, e)
  {
    PowMono(base, e, f);
    LargerDivisor(n, Pow(base, e), Pow(base, f));
  }

  lemma LargerDivisor(n: nat, p: nat, q: nat)
    requires 0 < p <= q
    ensures n / q <= n / p
  {
    var k := n / q;
    assert k * q <= n by { DivBounds(n, q); }
    assert k * p <= k * q by { MulMono(p, q, k); }
    DivAtMost(n, p, k);
  }

  function JsExponent(max: nat, base: nat, n: nat): (e: nat)
    requires max > 0 && base >= 2
    ensures IsFirst(max, base, n, e)
  {
    FirstFrom(max, base, n, 0)
  }

  function FirstFrom(max: nat, base: nat, n: nat, from: nat): (e: nat)
    requires max > 0 && base >= 2
    requires from > 0 ==> Quot(n, base, from - 1) > max
    ensures IsFirst(max, base, n, e)
    decreases Quot(n, base, from)
  {
    if Quot(n, base, from) <= max then from
    else
      DivDiv(n, base, from);
      QuotientShrinks(Quot(n, base, from), base);
      FirstFrom(max, base, n, from + 1)
  }

  lemma QuotientShrinks(q: nat, base: nat)
    requires q > 0 && base >= 2
    ensures q / base < q
  {
    if q >= base {
      DivShrinks(q, base);
    } else {
      DivAtMost(q, base, 0);
    }
  }

  function JsPack(n: nat, expBits: nat, manBits: nat): Option<seq<Byte>>
    requires manBits > 0 && (expBits + manBits) % 8 == 0
  {
    if n > Greatest(expBits, manBits, BASE) then None
    else Some(PackWith(n, JsExponent(MaxMantissa(manBits), BASE, n), BASE, expBits, manBits))
  }

  function JsUnpack(data: seq<Byte>, expBits: nat, manBits: nat): Option<nat> {
    if |data| * 8 != manBits + expBits then None else
    BigEndianIsValue(data);
    Some(Scaled(MantissaOf(data, manBits), ExponentOf(data, manBits)))
  }

  function Scaled(m: nat, e: nat): nat {
    m * Pow(BASE, e)
  }

  // ---------- The loops ----------

  function Weight(bit: bool, weight: nat): nat {
    if bit then weight else 0
  }

  method BitsIntoBytesInBEOrder(bits: seq<bool>) returns (bytes: seq<Byte>)
    requires |bits| % 8 == 0
    ensures bytes == BytesOf(bits)
  {
    bytes := [];
    for byte := 0 to |bits| / 8
      invariant bytes == BytesOf(bits)[..byte]
    {
      var value := 0;
      value := value + Weight(bits[byte * 8], 0x80);
      value := value + Weight(bits[byte * 8 + 1], 0x40);
      value := value + Weight(bits[byte * 8 + 2], 0x20);
      value := value + Weight(bits[byte * 8 + 3], 0x10);
      value := value + Weight(bits[byte * 8 + 4], 0x08);
      value := value + Weight(bits[byte * 8 + 5], 0x04);
      value := value + Weight(bits[byte * 8 + 6], 0x02);
      value := value + Weight(bits[byte * 8 + 7], 0x01);
      ghost var chunk := bits[8 * byte..8 * byte + 8];
      EightBits(chunk);
      bytes := bytes + [value];
    }
  }

  lemma EightBits(chunk: seq<bool>)
    requires |chunk| == 8
    ensures ByteOf(chunk) ==
            Weight(chunk[0], 0x80) + Weight(chunk[1], 0x40) + Weight(chunk[2], 0x20) + Weight(chunk[3], 0x10)
            + Weight(chunk[4], 0x08) + Weight(chunk[5], 0x04) + Weight(chunk[6], 0x02) + Weight(chunk[7], 0x01)
  {
    var low := [chunk[7], chunk[6], chunk[5], chunk[4]];
    var high := [chunk[3], chunk[2], chunk[1], chunk[0]];
    assert Rev(chunk) == low + high;
    ValueAppend(low, high);
    FourBits(low);
    FourBits(high);
    assert Pow(2, 4) == 16;
  }

  lemma FourBits(bits: seq<bool>)
    requires |bits| == 4
    ensures ValueLE(bits) == Weight(bits[0], 1) + Weight(bits[1], 2) + Weight(bits[2], 4) + Weight(bits[3], 8)
  {
    assert bits[1..][1..] == bits[2..] && bits[2..][1..] == bits[3..] && bits[3..][1..] == [];
    assert ValueLE(bits[3..]) == Weight(bits[3], 1);
    assert ValueLE(bits[2..]) == Weight(bits[2], 1) + Weight(bits[3], 2);
    assert ValueLE(bits[1..]) == Weight(bits[1], 1) + Weight(bits[2], 2) + Weight(bits[3], 4);
  }

  /** The bytes come out in little-endian order. The range check is for base 10 whatever the base; an exponent too
      big for its bits loses its high ones. */
  method IntegerToFloat(n: nat, expBits: nat, manBits: nat, base: nat) returns (r: Option<seq<Byte>>)
    requires manBits > 0 && (expBits + manBits) % 8 == 0 && base >= 2
    ensures r.None? <==> n > Greatest(expBits, manBits, BASE)
    ensures r.Some? ==>
              r.value == Rev(PackWith(n, JsExponent(MaxMantissa(manBits), base, n), base, expBits, manBits))
  {
    var max := MaxMantissa(manBits);
    if n > max * Pow(BASE, MaxPower(expBits)) {
      return None;
    }
    var exponent, mantissa := Shrink(n, max, base);
    var encoding := [];
    for i := 0 to expBits
      invariant encoding == BitsLE(exponent, i)
    {
      encoding := encoding + [TestBit(exponent, i)];
    }
    for i := 0 to manBits
      invariant encoding == BitsLE(exponent, expBits) + BitsLE(mantissa, i)
    {
      encoding := encoding + [TestBit(mantissa, i)];
    }
    var bytes := BitsIntoBytesInBEOrder(Rev(encoding));
    r := Some(Rev(bytes));
  }

  method Shrink(n: nat, max: nat, base: nat) returns (exponent: nat, mantissa: nat)
    requires max > 0 && base >= 2
    ensures exponent == JsExponent(max, base, n) && mantissa == Quot(n, base, exponent)
  {
    exponent, mantissa := 0, n;
    QuotZero(n, base);
    hide Quot, JsExponent;
    while mantissa > max
      invariant mantissa == Quot(n, base, exponent)
      invariant exponent > 0 ==> Quot(n, base, exponent - 1) > max
      decreases mantissa
    {
      DivDiv(n, base, exponent);
      QuotientShrinks(mantissa, base);
      mantissa := mantissa / base;
      exponent := exponent + 1;
    }
    FirstIsUnique(max, base, n, exponent, JsExponent(max, base, n));
  }

  /** Only the order of the bytes is reversed: the result of mapping over the bits of each byte is not used. */
  method ReverseBits(bytes: seq<Byte>) returns (r: seq<Byte>)
    ensures r == Rev(bytes)
  {
    r := Rev(bytes);
  }

  method Pack(n: nat, expBits: nat, manBits: nat) returns (r: Option<seq<Byte>>)
    requires manBits > 0 && (expBits + manBits) % 8 == 0
    ensures r == JsPack(n, expBits, manBits)
  {
    var bytes := IntegerToFloat(n, expBits, manBits, BASE);
    if bytes.None? {
      return None;
    }
    var reversed := ReverseBits(bytes.value);
    RevConcat(JsPack(n, expBits, manBits).value, []);
    r := Some(reversed);
  }

  /** Sums powers of two over the set bits of the big-endian number, exponent first. */
  method FloatToInteger(data: seq<Byte>, expBits: nat, manBits: nat) returns (r: Option<nat>)
    ensures r == JsUnpack(data, expBits, manBits)
  {
    if |data| * 8 != manBits + expBits {
      return None;
    }
    var holder := BigEndian(data);
    BigEndianIsValue(data);
    ghost var bits := Rev(BitsOf(data));
    var exponent := SumSetBits(holder, bits, 0, expBits);
    var mantissa := SumSetBits(holder, bits, expBits, manBits);
    assert bits[0..expBits] == Rev(BitsOf(data)[manBits..]);
    assert bits[expBits..expBits + manBits] == Rev(BitsOf(data)[..manBits]);
    r := Some(Scaled(mantissa, exponent));
  }

  method SumSetBits(holder: nat, ghost bits: seq<bool>, from: nat, count: nat) returns (sum: nat)
    requires holder == ValueLE(bits) && from + count <= |bits|
    ensures sum == ValueLE(bits[from..from + count])
  {
    ghost var part := bits[from..from + count];
    sum := 0;
    var power := 1;
    for i := 0 to count
      invariant sum == ValueLE(part[..i]) && power == Pow(2, i)
    {
      assert part[..i + 1] == part[..i] + [part[i]];
      ValueOne(part[..i], part[i]);
      BitOfValue(bits, from + i);
      if TestBit(holder, from + i) {
        sum := sum + power;
      }
      power := power * 2;
    }
    assert part[..count] == part;
  }
}
