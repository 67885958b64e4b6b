/** Reading arbitrary public data: what is accepted, and that nothing but padding and fees can differ between two
    readings of one operation. */
module PubDataReads {
  import opened Powers
  import opened Bits
  import opened FloatPacking
  import opened FloatTheorems
  import opened PubData

  lemma {:induction false} BytesWritten(bytes: seq<Byte>)
    ensures BigEndian(bytes) < Pow(256, |bytes|) && ToBytes(BigEndian(bytes), |bytes|) == bytes
  {
    if bytes != [] {
      hide Pow;
      var n := |bytes| - 1;
      BytesWritten(bytes[..n]);
      OneMoreByte(BigEndian(bytes[..n]), bytes[n], n);
      assert bytes == bytes[..n] + [bytes[n]];
    }
  }

  lemma OneMoreByte(before: nat, byte: Byte, n: nat)
    requires before < Pow(256, n)
    ensures var all := before * 256 + byte;
            all < Pow(256, n + 1) && all / 256 == before && all % 256 == byte
  {
    assert Pow(256, n + 1) == 256 * Pow(256, n);
  }

  /** Any two bytes are a fee. */
  lemma FeeReads(bytes: seq<Byte>)
    requires |bytes| == FEE
    ensures UnpackFee(bytes).Some?
  {
    FeesWithinServer();
    BigEndianIsValue(bytes);
    var m, e := MantissaOf(bytes, FEE_MANTISSA_BITS), ExponentOf(bytes, FEE_MANTISSA_BITS);
    assert m <= MaxMantissa(FEE_MANTISSA_BITS) by { BitsOfValue(Rev(BitsOf(bytes)[..FEE_MANTISSA_BITS])); }
    assert e <= MaxPower(FEE_EXPONENT_BITS) by { BitsOfValue(Rev(BitsOf(bytes)[FEE_MANTISSA_BITS..])); }
    FeeScales(m, e);
  }

  lemma FeeScales(m: nat, e: nat)
    requires m <= MaxMantissa(FEE_MANTISSA_BITS) && e <= MaxPower(FEE_EXPONENT_BITS)
    ensures CheckedScale(m, e).Some?
  {
    hide Pow, MaxMantissa, MaxPower;
    FeesWithinServer();
    PowMono(BASE, e, MaxPower(FEE_EXPONENT_BITS));
    SomeMantissa();
    ProductBelow(m, MaxMantissa(FEE_MANTISSA_BITS), Pow(BASE, e), Pow(BASE, MaxPower(FEE_EXPONENT_BITS)));
  }

  lemma SomeMantissa()
    ensures MaxMantissa(FEE_MANTISSA_BITS) >= 1
  {
  }

  lemma ProductBelow(m: nat, mantissa: nat, p: nat, power: nat)
    requires m <= mantissa && p <= power && mantissa >= 1
    ensures m * p <= mantissa * power && p <= mantissa * power
  {
    MulMono(m, mantissa, p);
    MulMono(p, power, mantissa);
    MulMono(1, mantissa, power);
  }

  /** Data is an operation exactly when its first byte is a code, its length the code's (or more, for a key change) and,
      for a no-op, all of it zero. */
  lemma ReadableExactly(bytes: seq<Byte>)
    ensures FromPublicData(bytes).Some? <==>
            && bytes != [] && PublicDataLength(bytes[0]).Some?
            && (if bytes[0] == 7 then |bytes| >= 48 else |bytes| == PublicDataLength(bytes[0]).value)
            && (bytes[0] == 0 ==> bytes == Zeros(8))
  {
    hide Read, UnpackFee;
    if bytes != [] {
      if bytes[0] == 2 && |bytes| == 40 {
        FeeReads(bytes[29..31]);
      } else if bytes[0] == 3 && |bytes| == 48 {
        FeeReads(bytes[6..8]);
      } else if bytes[0] == 5 && |bytes| == 16 {
        FeeReads(bytes[9..11]);
      }
    }
  }

  /** The bytes that carry the code or a field other than a fee; the rest is a fee or padding. */
  predicate Significant(code: Byte, i: nat) {
    match code
    case 0 => i < 8
    case 1 => i < 26
    case 2 => i < 29
    case 3 => i < 6 || 8 <= i < 28
    case 4 => i < 4
    case 5 => i < 9
    case 6 => i < 24
    case _ => i < 48
  }

  lemma SameField(a: seq<Byte>, b: seq<Byte>, offset: nat, width: nat)
    requires offset + width <= |a| && offset + width <= |b| && Read(a, offset, width) == Read(b, offset, width)
    ensures forall i | offset <= i < offset + width :: a[i] == b[i]
  {
    var x, y := a[offset..offset + width], b[offset..offset + width];
    BytesWritten(x);
    BytesWritten(y);
    assert x == y;
    forall i | offset <= i < offset + width ensures a[i] == b[i] {
      assert a[i] == x[i - offset] && b[i] == y[i - offset];
    }
  }

  lemma SameCode(bytes: seq<Byte>)
    requires FromPublicData(bytes).Some?
    ensures bytes != [] && OpCode(FromPublicData(bytes).value) == bytes[0]
  {
    hide Read, UnpackFee;
  }

  /** Two data that are read as the same operation agree in every significant byte. */
  lemma SameOperationSameBytes(a: seq<Byte>, b: seq<Byte>, i: nat)
    requires FromPublicData(a).Some? && FromPublicData(a) == FromPublicData(b)
    ensures a != [] && b != [] && a[0] == b[0]
    ensures Significant(a[0], i) ==> i < |a| && i < |b| && a[i] == b[i]
  {
    SameCode(a);
    SameCode(b);
    ReadableExactly(a);
    ReadableExactly(b);
    hide Read, UnpackFee, Zeros;
    match a[0]
    case 0 =>
    case 1 => SameField(a, b, 1, ID); SameField(a, b, 4, TOKEN); SameField(a, b, 6, ADDRESS);
    case 2 =>
      SameField(a, b, 1, ID);
      SameField(a, b, 4, TOKEN);
      SameField(a, b, 6, ADDRESS);
      SameField(a, b, 26, ID);
    case 3 => SameField(a, b, 1, ID); SameField(a, b, 4, TOKEN); SameField(a, b, 8, ADDRESS);
    case 4 => SameField(a, b, 1, ID);
    case 5 => SameField(a, b, 1, ID); SameField(a, b, 4, TOKEN); SameField(a, b, 6, ID);
    case 6 => SameField(a, b, 1, ID); SameField(a, b, 4, ADDRESS);
    case _ =>
      SameField(a, b, 1, ID);
      SameField(a, b, 4, ADDRESS);
      SameField(a, b, 24, ADDRESS);
      SameField(a, b, 44, NONCE);
  }
}
