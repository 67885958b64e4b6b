/** Numbers as bits and bits as bytes, in the orders the packers use. */
module Bits {
  import opened Powers

  type Byte = n: nat | n < 256

  predicate TestBit(n: nat, i: nat) {
    (n / Pow(2, i)) % 2 == 1
  }

  /** The low bits of a number, lowest first. */
  function BitsLE(n: nat, width: nat): seq<bool> {
    seq(width, i requires 0 <= i => TestBit(n, i))
  }

  /** The number whose bits, lowest first, these are. */
  function ValueLE(bits: seq<bool>): nat {
    if bits == [] then 0 else (if bits[0] then 1 else 0) + 2 * ValueLE(bits[1..])
  }

  function Rev<T>(s: seq<T>): seq<T> {
    seq(|s|, i requires 0 <= i < |s| => s[|s| - 1 - i])
  }

  lemma HalfBits(n: nat, width: nat)
    requires width > 0
    ensures BitsLE(n, width) == [n % 2 == 1] + BitsLE(n / 2, width - 1)
  {
    assert Pow(2, 0) == 1;
    forall i | 0 <= i < width - 1 ensures TestBit(n, i + 1) == TestBit(n / 2, i) {
      assert Pow(2, i + 1) == 2 * Pow(2, i);
      HalfFirst(n, Pow(2, i));
    }
  }

  lemma HalfFirst(n: nat, p: nat)
    requires p > 0
    ensures n / (2 * p) == n / 2 / p
  {
    DivTwice(n, 2, p);
    assert 2 * p == p * 2;
  }

  lemma {:induction false} ValueOfBits(n: nat, width: nat)
    requires n < Pow(2, width)
    ensures ValueLE(BitsLE(n, width)) == n
  {
    if width > 0 {
      HalfBits(n, width);
      ValueOfBits(n / 2, width - 1);
      assert BitsLE(n, width)[1..] == BitsLE(n / 2, width - 1);
    }
  }

  lemma {:induction false} BitsOfValue(bits: seq<bool>)
    ensures BitsLE(ValueLE(bits), |bits|) == bits && ValueLE(bits) < Pow(2, |bits|)
  {
    if bits != [] {
      BitsOfValue(bits[1..]);
      HalfBits(ValueLE(bits), |bits|);
      assert ValueLE(bits) / 2 == ValueLE(bits[1..]);
      assert bits == [bits[0]] + bits[1..];
    }
  }

  lemma {:induction false} ValueAppend(bits: seq<bool>, high: seq<bool>)
    ensures ValueLE(bits + high) == ValueLE(bits) + Pow(2, |bits|) * ValueLE(high)
  {
    if bits == [] {
      assert bits + high == high;
    } else {
      assert (bits + high)[1..] == bits[1..] + high;
      ValueAppend(bits[1..], high);
      MulAssoc(2, Pow(2, |bits| - 1), ValueLE(high));
    }
  }

  lemma ValueOne(bits: seq<bool>, bit: bool)
    ensures ValueLE(bits + [bit]) == ValueLE(bits) + if bit then Pow(2, |bits|) else 0
  {
    ValueAppend(bits, [bit]);
    assert ValueLE([bit]) == if bit then 1 else 0;
    hide Pow, ValueLE;
    if bit {
      assert Pow(2, |bits|) * 1 == Pow(2, |bits|);
    } else {
      assert Pow(2, |bits|) * 0 == 0;
    }
  }

  lemma BitOfValue(bits: seq<bool>, i: nat)
    requires i < |bits|
    ensures TestBit(ValueLE(bits), i) == bits[i]
  {
    BitsOfValue(bits);
    assert BitsLE(ValueLE(bits), |bits|)[i] == TestBit(ValueLE(bits), i);
  }

  lemma RevConcat<T>(a: seq<T>, b: seq<T>)
    ensures Rev(a + b) == Rev(b) + Rev(a)
    ensures Rev(Rev(a)) == a
  {
  }

  // ---------- Bytes ----------

  /** Eight bits, highest first, as a byte. */
  function ByteOf(bits: seq<bool>): Byte
    requires |bits| == 8
  {
    BitsOfValue(Rev(bits));
    assert Pow(2, 8) == 256;
    ValueLE(Rev(bits))
  }

  function BytesOf(bits: seq<bool>): seq<Byte>
    requires |bits| % 8 == 0
  {
    seq(|bits| / 8, j requires 0 <= j < |bits| / 8 => ByteOf(bits[8 * j..8 * j + 8]))
  }

  /** The bits of a byte, highest first. */
  function BitsOfByte(b: Byte): seq<bool> {
    Rev(BitsLE(b, 8))
  }

  function BitsOf(bytes: seq<Byte>): seq<bool> {
    if bytes == [] then [] else BitsOf(bytes[..|bytes| - 1]) + BitsOfByte(bytes[|bytes| - 1])
  }

  lemma ByteRoundTrip(bits: seq<bool>)
    requires |bits| == 8
    ensures BitsOfByte(ByteOf(bits)) == bits
  {
    BitsOfValue(Rev(bits));
    RevConcat(bits, []);
  }

  lemma {:induction false} BytesRoundTrip(bits: seq<bool>)
    requires |bits| % 8 == 0
    ensures BitsOf(BytesOf(bits)) == bits
    decreases |bits|
  {
    if bits != [] {
      var n := |bits| - 8;
      BytesRoundTrip(bits[..n]);
      LastByte(bits);
      ByteRoundTrip(bits[n..]);
      var bytes := BytesOf(bits);
      assert bytes[..|bytes| - 1] == BytesOf(bits[..n]);
    }
  }

  lemma LastByte(bits: seq<bool>)
    requires |bits| % 8 == 0 && bits != []
    ensures BytesOf(bits) == BytesOf(bits[..|bits| - 8]) + [ByteOf(bits[|bits| - 8..])]
  {
    var n := |bits| - 8;
    assert |bits| / 8 == n / 8 + 1 && 8 * (n / 8) == n;
    forall j | 0 <= j < n / 8 ensures bits[..n][8 * j..8 * j + 8] == bits[8 * j..8 * j + 8] {}
    assert bits[n..n + 8] == bits[n..];
  }

  /** Big-endian bytes as a number. */
  function BigEndian(bytes: seq<Byte>): nat {
    if bytes == [] then 0 else BigEndian(bytes[..|bytes| - 1]) * 256 + bytes[|bytes| - 1]
  }

  lemma {:induction false} BigEndianIsValue(bytes: seq<Byte>)
    ensures BigEndian(bytes) == ValueLE(Rev(BitsOf(bytes)))
    ensures |BitsOf(bytes)| == 8 * |bytes|
  {
    if bytes != [] {
      var n := |bytes| - 1;
      BigEndianIsValue(bytes[..n]);
      RevConcat(BitsOf(bytes[..n]), BitsOfByte(bytes[n]));
      RevConcat(BitsLE(bytes[n], 8), []);
      assert Pow(2, 8) == 256;
      ValueOfBits(bytes[n], 8);
      ValueAppend(BitsLE(bytes[n], 8), Rev(BitsOf(bytes[..n])));
    }
  }

  // ---------- The loops ----------

  /** Sets bit `i` of a byte, counted from the low end, for the `i`-th bit from the back of each eight. */
  method PackBitsIntoBytesInOrder(bits: seq<bool>) returns (bytes: seq<Byte>)
    requires |bits| % 8 == 0
    ensures bytes == BytesOf(bits)
  {
    bytes := [];
    for j := 0 to |bits| / 8
      invariant bytes == BytesOf(bits)[..j]
    {
      var chunk := bits[8 * j..8 * j + 8];
      ghost var rev := Rev(chunk);
      var byte := 0;
      for i := 0 to 8
        invariant byte == ValueLE(rev[..i])
      {
        assert rev[..i + 1] == rev[..i] + [rev[i]];
        ValueOne(rev[..i], rev[i]);
        if chunk[7 - i] {
          byte := byte + Pow(2, i);
        }
      }
      assert rev[..8] == rev;
      assert byte == ByteOf(chunk);
      bytes := bytes + [byte];
    }
  }

  /** Takes the top bit and shifts the byte left, eight times a byte. */
  method BytesIntoBEBits(bytes: seq<Byte>) returns (bits: seq<bool>)
    ensures bits == BitsOf(bytes)
  {
    bits := [];
    for j := 0 to |bytes|
      invariant bits == BitsOf(bytes[..j])
    {
      assert bytes[..j + 1][..j] == bytes[..j];
      var byte := bytes[j];
      var temp := byte;
      ghost var before := bits;
      for k := 0 to 8
        invariant bits == before + BitsOfByte(byte)[..k]
        invariant temp < 256 && temp == (byte * Pow(2, k)) % 256
      {
        TopBit(byte, k);
        ShiftLeft(byte, k);
        bits := bits + [temp >= 128];
        temp := (temp * 2) % 256;
      }
      assert BitsOfByte(byte)[..8] == BitsOfByte(byte);
    }
    assert bytes[..|bytes|] == bytes;
  }

  lemma ShiftLeft(byte: Byte, k: nat)
    ensures ((byte * Pow(2, k)) % 256 * 2) % 256 == (byte * Pow(2, k + 1)) % 256
  {
    var p := Pow(2, k);
    assert Pow(2, k + 1) == 2 * p;
    hide Pow;
    assert byte * (2 * p) == 2 * (byte * p);
    Doubled(byte * p);
  }

  lemma Doubled(n: nat)
    ensures (n % 256 * 2) % 256 == (2 * n) % 256
  {
    var q, r := n / 256, n % 256;
    DivisionIsUnique(2 * n, 256, 2 * q + 2 * r / 256, (2 * r) % 256);
  }

  lemma TopBit(byte: Byte, k: nat)
    requires k < 8
    ensures (byte * Pow(2, k)) % 256 >= 128 <==> BitsOfByte(byte)[k]
  {
    assert BitsOfByte(byte)[k] == TestBit(byte, 7 - k);
    PowAdd(2, k, 7 - k);
    assert Pow(2, 7) == 128;
    hide Pow, BitsOfByte;
    Window(byte, Pow(2, k), Pow(2, 7 - k));
  }

  lemma Window(n: nat, m: nat, d: nat)
    requires m * d == 128 && d > 0
    ensures (n * m) % 256 >= 128 <==> (n / d) % 2 == 1
  {
    var q, l := n / d, n % d;
    DivBounds(n, d);
    Distribute(q * d, l, m);
    assert q * d * m == q * 128 by { MulAssoc(q, d, m); }
    assert l * m < 128 by {
      MulMono(l, d - 1, m);
      Distribute(d - 1, 1, m);
      assert m > 0;
    }
    HalfTurn(q, l * m);
  }

  lemma HalfTurn(q: nat, low: nat)
    requires low < 128
    ensures (q * 128 + low) % 256 >= 128 <==> q % 2 == 1
  {
  }
}
