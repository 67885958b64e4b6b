/** What the two packers agree on: the representable amounts, which are exactly the ones packing keeps. */
module FloatTheorems {
  import opened Types
  import opened Powers
  import opened Bits
  import opened FloatPacking
  import opened FloatPackingJs

  ghost predicate Representable(n: nat, expBits: nat, manBits: nat, base: nat) {
    exists m: nat, e: nat :: IsForm(n, m, e, expBits, manBits, base)
  }

  predicate IsForm(n: nat, m: nat, e: nat, expBits: nat, manBits: nat, base: nat) {
    m <= MaxMantissa(manBits) && e <= MaxPower(expBits) && n == m * Pow(base, e)
  }

  /** The number packed at exponent `e` and unpacked again. */
  function Repacked(n: nat, base: nat, e: nat): nat
    requires base > 0
  {
    Quot(n, base, e) * Pow(base, e)
  }

  /** What both choices of the exponent have in common. */
  predicate Fair(max: nat, base: nat, n: nat, e: nat)
    requires base > 0
  {
    Quot(n, base, e) <= max && (e > 0 ==> max * Pow(base, e - 1) < n)
  }

  lemma RustIsFair(max: nat, base: nat, n: nat)
    requires max > 0 && base >= 2
    ensures Fair(max, base, n, Exponent(max, base, n))
  {
    hide Quot, Exponent, Pow;
    MantissaFits(n, max, base, Exponent(max, base, n));
  }

  lemma JsIsFair(max: nat, base: nat, n: nat)
    requires max > 0 && base >= 2
    ensures Fair(max, base, n, JsExponent(max, base, n))
  {
    var e := JsExponent(max, base, n);
    if e > 0 {
      OverMax(n, Pow(base, e - 1), max);
    }
  }

  lemma OverMax(n: nat, p: nat, max: nat)
    requires p > 0 && n / p > max
    ensures max * p < n
  {
    DivAtMost(n, p, max + 1);
    Distribute(max, 1, p);
  }

  // ---------- Where the exponents differ ----------

  /** Strictly between the greatest mantissa and one more, in units of some power: the quotient is the greatest
      mantissa and something is left over. */
  ghost predicate Ragged(max: nat, base: nat, n: nat) {
    exists e: nat :: RaggedAt(max, base, n, e)
  }

  predicate RaggedAt(max: nat, base: nat, n: nat, e: nat) {
    max * Pow(base, e) < n < (max + 1) * Pow(base, e)
  }

  /** That power is the client's exponent. */
  lemma RaggedAtFirst(max: nat, base: nat, n: nat, e: nat)
    requires max > 0 && base >= 2 && RaggedAt(max, base, n, e)
    ensures e == JsExponent(max, base, n)
  {
    var p := Pow(base, e);
    DivAtMost(n, p, max);
    if e > 0 {
      var q := Pow(base, e - 1);
      assert p == base * q;
      OneBelow(n, max, base, q);
    }
    FirstIsUnique(max, base, n, e, JsExponent(max, base, n));
  }

  lemma OneBelow(n: nat, max: nat, base: nat, q: nat)
    requires q > 0 && max > 0 && base >= 2 && max * (base * q) < n
    ensures n / q > max
  {
    MulMono(2, base, q);
    MulMono(2 * q, base * q, max);
    MulMono(1, max, q);
    Distribute(max, 1, q);
    assert max * (2 * q) == max * q + max * q;
    DivAtMost(n, q, max + 1);
  }

  lemma RaggedExactly(max: nat, base: nat, n: nat)
    requires max > 0 && base >= 2
    ensures var e := JsExponent(max, base, n);
            Ragged(max, base, n) <==> Quot(n, base, e) == max && n % Pow(base, e) != 0
  {
    var e := JsExponent(max, base, n);
    var p := Pow(base, e);
    if Quot(n, base, e) == max && n % p != 0 {
      DivBounds(n, p);
      assert RaggedAt(max, base, n, e);
    }
    if Ragged(max, base, n) {
      var f: nat :| RaggedAt(max, base, n, f);
      RaggedAtFirst(max, base, n, f);
      hide Pow, JsExponent;
      RestLeft(n, p, max);
    }
  }

  lemma RestLeft(n: nat, p: nat, max: nat)
    requires p > 0 && max * p < n < (max + 1) * p
    ensures n / p == max && n % p != 0
  {
    DivAtMost(n, p, max);
    DivBounds(n, p);
  }

  lemma ExponentsDiffer(max: nat, base: nat, n: nat)
    requires max > 0 && base >= 2
    ensures Exponent(max, base, n) == JsExponent(max, base, n) + if Ragged(max, base, n) then 1 else 0
  {
    var e := JsExponent(max, base, n);
    var p := Pow(base, e);
    JsIsFair(max, base, n);
    RaggedExactly(max, base, n);
    hide Ragged;
    if Ragged(max, base, n) {
      assert Pow(base, e + 1) == base * p;
      hide Pow, JsExponent, Exponent;
      JustOver(n, p, max, base);
      LeastIsUnique(max, base, n, Exponent(max, base, n), e + 1);
    } else {
      hide Pow, JsExponent, Exponent;
      NotOver(n, p, max);
      LeastIsUnique(max, base, n, Exponent(max, base, n), e);
    }
  }

  lemma JustOver(n: nat, p: nat, max: nat, base: nat)
    requires p > 0 && n / p == max && n % p != 0 && max > 0 && base >= 2
    ensures max * p < n <= max * (base * p)
  {
    DivBounds(n, p);
    Distribute(max, 1, p);
    MulMono(2, base, p);
    MulMono(2 * p, base * p, max);
    MulMono(1, max, p);
    assert max * (2 * p) == max * p + max * p;
  }

  lemma NotOver(n: nat, p: nat, max: nat)
    requires p > 0 && n / p <= max && !(n / p == max && n % p != 0)
    ensures n <= max * p
  {
    DivBounds(n, p);
    if n / p < max {
      MulMono(n / p + 1, max, p);
    }
  }

  // ---------- Pack, then unpack ----------

  lemma RepackedBelow(n: nat, base: nat, e: nat)
    requires base > 0
    ensures Repacked(n, base, e) <= n
    ensures Repacked(n, base, e) == n <==> n % Pow(base, e) == 0
  {
    var p := Pow(base, e);
    hide Pow;
    DivBounds(n, p);
  }

  /** A fair exponent is no greater than that of any form of the number. */
  lemma FairIsFine(max: nat, base: nat, n: nat, e: nat, m: nat, k: nat)
    requires base > 0 && Fair(max, base, n, e) && m <= max && n == m * Pow(base, k)
    ensures e <= k
  {
    hide Quot;
    if k < e {
      PowMono(base, k, e - 1);
      MulMono(m, max, Pow(base, k));
      MulMono(Pow(base, k), Pow(base, e - 1), max);
    }
  }

  /** Packing at a fair exponent keeps exactly the representable numbers. */
  lemma KeptExactly(n: nat, expBits: nat, manBits: nat, base: nat, e: nat)
    requires base > 0 && Fair(MaxMantissa(manBits), base, n, e) && e <= MaxPower(expBits)
    ensures Repacked(n, base, e) == n <==> Representable(n, expBits, manBits, base)
    ensures Representable(Repacked(n, base, e), expBits, manBits, base)
  {
    assert IsForm(Repacked(n, base, e), Quot(n, base, e), e, expBits, manBits, base);
    if Representable(n, expBits, manBits, base) {
      var m: nat, k: nat :| IsForm(n, m, k, expBits, manBits, base);
      FairIsFine(MaxMantissa(manBits), base, n, e, m, k);
      MultipleOfLower(base, m, e, k);
      RepackedBelow(n, base, e);
    }
  }

  /** A fair exponent that also fits, for every accepted number, in both packers. */
  lemma BothFit(n: nat, expBits: nat, manBits: nat, base: nat)
    requires manBits > 0 && base >= 2 && n <= Greatest(expBits, manBits, base)
    ensures MaxMantissa(manBits) > 0
    ensures var max := MaxMantissa(manBits);
            JsExponent(max, base, n) <= Exponent(max, base, n) <= MaxPower(expBits)
  {
    var max := MaxMantissa(manBits);
    ExponentsDiffer(max, base, n);
    LeastIsUnique(max, base, n, Exponent(max, base, n), MaxPower(expBits));
  }

  /** Packed and unpacked by the server, which aborts on what it does not accept. */
  function RustRepack(n: nat, expBits: nat, manBits: nat): Option<nat>
    requires manBits > 0
  {
    if !ServerAccepts(n, expBits, manBits) then None
    else Some(Repacked(n, BASE, Exponent(MaxMantissa(manBits), BASE, n)))
  }

  /** Packed and unpacked by the client, which throws on what is out of the format's range. */
  function JsRepack(n: nat, expBits: nat, manBits: nat): Option<nat>
    requires manBits > 0
  {
    if n > Greatest(expBits, manBits, BASE) then None
    else Some(Repacked(n, BASE, JsExponent(MaxMantissa(manBits), BASE, n)))
  }

  lemma RustRoundTrip(n: nat, expBits: nat, manBits: nat)
    requires (expBits + manBits) % 8 == 0 && manBits > 0 && BASE <= MaxMantissa(manBits)
    ensures RustPack(n, expBits, manBits).Some? <==> RustRepack(n, expBits, manBits).Some?
    ensures RustPack(n, expBits, manBits).Some? ==>
              RustUnpack(RustPack(n, expBits, manBits).value, expBits, manBits) == RustRepack(n, expBits, manBits)
  {
    if ServerAccepts(n, expBits, manBits) {
      var max := MaxMantissa(manBits);
      var e := Exponent(max, BASE, n);
      BothFit(n, expBits, manBits, BASE);
      RustIsFair(max, BASE, n);
      PowerFits(n, max, BASE, e);
      hide Quot, Exponent, Pow, Packed, MantissaOf, ExponentOf, Greatest, MaxMantissa, MaxPower;
      ReadBack(e, Quot(n, BASE, e), expBits, manBits);
      RepackedBelow(n, BASE, e);
    }
  }

  lemma PowerFits(n: nat, max: nat, base: nat, e: nat)
    requires 0 < base <= max && n <= U128_MAX && Fair(max, base, n, e)
    ensures Pow(base, e) <= U128_MAX
  {
    hide Quot;
    if e > 0 {
      assert Pow(base, e) == base * Pow(base, e - 1);
      MulMono(base, max, Pow(base, e - 1));
    }
  }

  lemma JsRoundTrip(n: nat, expBits: nat, manBits: nat)
    requires (expBits + manBits) % 8 == 0 && manBits > 0
    ensures JsPack(n, expBits, manBits).Some? <==> JsRepack(n, expBits, manBits).Some?
    ensures JsPack(n, expBits, manBits).Some? ==>
              JsUnpack(JsPack(n, expBits, manBits).value, expBits, manBits) == JsRepack(n, expBits, manBits)
  {
    if n <= Greatest(expBits, manBits, BASE) {
      var max := MaxMantissa(manBits);
      var e := JsExponent(max, BASE, n);
      BothFit(n, expBits, manBits, BASE);
      hide Quot, JsExponent, Pow, Packed, MantissaOf, ExponentOf, Greatest, MaxMantissa, MaxPower;
      ReadBack(e, Quot(n, BASE, e), expBits, manBits);
    }
  }

  /** Whatever the server can read, the client reads the same; the server fails only beyond 128 bits. */
  lemma ReadersAgree(data: seq<Byte>, expBits: nat, manBits: nat)
    ensures RustUnpack(data, expBits, manBits).Some? ==>
              JsUnpack(data, expBits, manBits) == RustUnpack(data, expBits, manBits)
    ensures JsUnpack(data, expBits, manBits).None? ==> RustUnpack(data, expBits, manBits).None?
    ensures |data| * 8 == manBits + expBits ==>
              && manBits <= |BitsOf(data)|
              && var m, power := MantissaOf(data, manBits), Pow(BASE, ExponentOf(data, manBits));
                 JsUnpack(data, expBits, manBits).Some? && RustUnpack(data, expBits, manBits).None? <==>
                 power > U128_MAX || m * power > U128_MAX
  {
    BigEndianIsValue(data);
    hide Pow, MantissaOf, ExponentOf;
  }

  /** The two packers answer alike exactly on what neither accepts, and on what both do and is not ragged. */
  lemma SameBytesExactly(n: nat, expBits: nat, manBits: nat)
    requires (expBits + manBits) % 8 == 0 && manBits > 0
    ensures RustPack(n, expBits, manBits) == JsPack(n, expBits, manBits) <==>
            n > Greatest(expBits, manBits, BASE) || (n <= U128_MAX && !Ragged(MaxMantissa(manBits), BASE, n))
  {
    if ServerAccepts(n, expBits, manBits) {
      var max := MaxMantissa(manBits);
      var r, j := Exponent(max, BASE, n), JsExponent(max, BASE, n);
      BothFit(n, expBits, manBits, BASE);
      RustIsFair(max, BASE, n);
      ExponentsDiffer(max, BASE, n);
      hide Quot, Exponent, JsExponent, Pow, Packed, MantissaOf, ExponentOf, Greatest, MaxMantissa, MaxPower, Ragged;
      ReadBack(r, Quot(n, BASE, r), expBits, manBits);
      ReadBack(j, Quot(n, BASE, j), expBits, manBits);
    }
  }

  /** The numbers left unchanged are, by the client, exactly the representable ones, and, by the server, those of them
      within 128 bits; what comes out is always representable and never greater. */
  lemma KeptByBoth(n: nat, expBits: nat, manBits: nat)
    requires manBits > 0
    ensures RustRepack(n, expBits, manBits) == Some(n) <==> n <= U128_MAX && Representable(n, expBits, manBits, BASE)
    ensures JsRepack(n, expBits, manBits) == Some(n) <==> Representable(n, expBits, manBits, BASE)
    ensures var r := RustRepack(n, expBits, manBits);
            r.Some? ==> r.value <= n && Representable(r.value, expBits, manBits, BASE)
    ensures var r := JsRepack(n, expBits, manBits);
            r.Some? ==> r.value <= n && Representable(r.value, expBits, manBits, BASE)
  {
    if Representable(n, expBits, manBits, BASE) {
      RepresentableFits(n, expBits, manBits, BASE);
    }
    if n <= Greatest(expBits, manBits, BASE) {
      var max := MaxMantissa(manBits);
      BothFit(n, expBits, manBits, BASE);
      RustIsFair(max, BASE, n);
      JsIsFair(max, BASE, n);
      hide Quot, Exponent, JsExponent, Pow, Greatest, MaxMantissa, MaxPower, Representable;
      KeptExactly(n, expBits, manBits, BASE, Exponent(max, BASE, n));
      KeptExactly(n, expBits, manBits, BASE, JsExponent(max, BASE, n));
      RepackedBelow(n, BASE, Exponent(max, BASE, n));
      RepackedBelow(n, BASE, JsExponent(max, BASE, n));
    }
  }

  lemma RepackingIsIdempotent(n: nat, expBits: nat, manBits: nat)
    requires manBits > 0
    ensures var r := RustRepack(n, expBits, manBits); r.Some? ==> RustRepack(r.value, expBits, manBits) == r
    ensures var r := JsRepack(n, expBits, manBits); r.Some? ==> JsRepack(r.value, expBits, manBits) == r
  {
    var r, j := RustRepack(n, expBits, manBits), JsRepack(n, expBits, manBits);
    KeptByBoth(n, expBits, manBits);
    hide JsRepack, Representable, Greatest, Repacked;
    if r.Some? {
      KeptByBoth(r.value, expBits, manBits);
    }
    if j.Some? {
      KeptByBoth(j.value, expBits, manBits);
    }
  }

  /** The client packs every representable amount; the server gives the same bytes exactly when the amount is within
      128 bits, and aborts otherwise. */
  lemma RepresentableSameBytes(n: nat, expBits: nat, manBits: nat)
    requires (expBits + manBits) % 8 == 0 && manBits > 0 && Representable(n, expBits, manBits, BASE)
    ensures JsPack(n, expBits, manBits).Some?
    ensures RustPack(n, expBits, manBits) == if n <= U128_MAX then JsPack(n, expBits, manBits) else None
  {
    RepresentableFits(n, expBits, manBits, BASE);
    KeptByBoth(n, expBits, manBits);
    RepackedBelow(n, BASE, JsExponent(MaxMantissa(manBits), BASE, n));
    RaggedExactly(MaxMantissa(manBits), BASE, n);
    hide JsExponent, Exponent, Pow, Quot, Packed, Ragged, Representable;
    SameBytesExactly(n, expBits, manBits);
  }

  /** Ten to the fortieth is an amount the client packs and the server cannot. */
  lemma AmountBeyondServer() returns (n: nat)
    ensures n == 10_000_000_000_000_000_000_000_000_000_000_000_000_000 > U128_MAX
    ensures Representable(n, AMOUNT_EXPONENT_BITS, AMOUNT_MANTISSA_BITS, BASE)
    ensures JsPack(n, AMOUNT_EXPONENT_BITS, AMOUNT_MANTISSA_BITS).Some?
    ensures RustPack(n, AMOUNT_EXPONENT_BITS, AMOUNT_MANTISSA_BITS).None?
  {
    hide Pow, MaxMantissa, MaxPower, Exponent, JsExponent, Packed, Greatest;
    n := Pow(BASE, 40);
    TenToTheFortieth();
    FormatsFit();
    assert IsForm(n, Pow(BASE, 9), 31, AMOUNT_EXPONENT_BITS, AMOUNT_MANTISSA_BITS, BASE);
    RepresentableSameBytes(n, AMOUNT_EXPONENT_BITS, AMOUNT_MANTISSA_BITS);
  }

  lemma TenToTheFortieth()
    ensures Pow(BASE, 40) == 10_000_000_000_000_000_000_000_000_000_000_000_000_000
    ensures Pow(BASE, 9) == 1_000_000_000 && Pow(BASE, 40) == Pow(BASE, 9) * Pow(BASE, 31)
  {
    assert Pow(10, 5) == 100000 && Pow(10, 4) == 10000;
    PowAdd(10, 5, 4);
    PowAdd(10, 5, 5);
    PowAdd(10, 10, 10);
    PowAdd(10, 20, 20);
    PowAdd(10, 9, 31);
    hide Pow;
  }

  /** Every fee of the format is within 128 bits, so for fees the representable ones are packed alike. */
  lemma FeesWithinServer()
    ensures Greatest(FEE_EXPONENT_BITS, FEE_MANTISSA_BITS, BASE) <= U128_MAX
    ensures Greatest(FEE_EXPONENT_BITS, FEE_MANTISSA_BITS, BASE) >= 20475
  {
    FormatsFit();
    assert Pow(10, 5) == 100000 && Pow(10, 1) == 10;
    PowAdd(10, 5, 5);
    PowAdd(10, 10, 10);
    PowAdd(10, 20, 10);
    PowAdd(10, 30, 1);
  }

  lemma RepresentableFits(n: nat, expBits: nat, manBits: nat, base: nat)
    requires base > 0 && Representable(n, expBits, manBits, base)
    ensures n <= Greatest(expBits, manBits, base)
  {
    var m: nat, e: nat :| IsForm(n, m, e, expBits, manBits, base);
    PowMono(base, e, MaxPower(expBits));
    MulMono(m, MaxMantissa(manBits), Pow(base, e));
    MulMono(Pow(base, e), Pow(base, MaxPower(expBits)), MaxMantissa(manBits));
  }

  /** No representable number lies above `value` and not above `n`. */
  ghost predicate GreatestBelow(n: nat, value: nat, expBits: nat, manBits: nat, base: nat) {
    forall v: nat | v <= n && Representable(v, expBits, manBits, base) :: v <= value
  }

  /** Packing at a fair exponent gives the greatest representable number not above `n` exactly when the exponent is 0
      or the mantissa times the base is at least the greatest mantissa. */
  lemma GreatestBelowExactly(n: nat, expBits: nat, manBits: nat, base: nat, e: nat)
    requires base > 0 && e <= MaxPower(expBits) && Fair(MaxMantissa(manBits), base, n, e)
    ensures GreatestBelow(n, Repacked(n, base, e), expBits, manBits, base) <==>
            (e == 0 || Quot(n, base, e) * base >= MaxMantissa(manBits))
  {
    var max := MaxMantissa(manBits);
    if e > 0 {
      var finer := max * Pow(base, e - 1);
      assert IsForm(finer, max, e - 1, expBits, manBits, base);
      assert Representable(finer, expBits, manBits, base);
      MulAssoc(Quot(n, base, e), base, Pow(base, e - 1));
      CompareFiner(Quot(n, base, e) * base, max, Pow(base, e - 1));
    }
    if e == 0 || Quot(n, base, e) * base >= max {
      forall v: nat | v <= n && Representable(v, expBits, manBits, base) ensures v <= Repacked(n, base, e) {
        var m: nat, k: nat :| IsForm(v, m, k, expBits, manBits, base);
        BelowRepacked(n, max, base, e, v, m, k);
      }
    }
  }

  /** The least mantissa that is worth as much as the greatest one with the exponent one lower. */
  function LeastFull(max: nat, base: nat): nat
    requires base > 0
  {
    (max + base - 1) / base
  }

  lemma LeastFullIsLeast(max: nat, base: nat, m: nat)
    requires base >= 2 && max > 0
    ensures m * base >= max <==> m >= LeastFull(max, base)
    ensures 1 <= LeastFull(max, base) <= max
  {
    var c := LeastFull(max, base);
    DivBounds(max + base - 1, base);
    Distribute(c, 1, base);
    if m >= c {
      MulMono(c, m, base);
    } else {
      MulMono(m + 1, c, base);
      Distribute(m, 1, base);
    }
    DivAtMost(max + base - 1, base, 1);
    DivAtMost(max + base - 1, base, max);
    MulMono(2, base, max);
    Distribute(max, 1, base);
    MaxTimesBase(max, base);
  }

  lemma MaxTimesBase(max: nat, base: nat)
    requires base >= 2 && max > 0
    ensures max + base - 1 < (max + 1) * base
  {
    Distribute(max, 1, base);
    MulMono(1, base, max);
  }

  /** The numbers just above the range of one exponent, which lose more than they need to at the next. */
  predicate RustGap(max: nat, base: nat, n: nat, e: nat)
    requires base > 0
  {
    e >= 1 && max * Pow(base, e - 1) < n < LeastFull(max, base) * Pow(base, e)
  }

  predicate JsGap(max: nat, base: nat, n: nat, e: nat)
    requires base > 0
  {
    e >= 1 && (max + 1) * Pow(base, e - 1) <= n < LeastFull(max, base) * Pow(base, e)
  }

  lemma RustGapExactly(max: nat, base: nat, n: nat)
    requires max > 0 && base >= 2
    ensures var e := Exponent(max, base, n);
            e > 0 && Quot(n, base, e) * base < max <==> exists f: nat :: RustGap(max, base, n, f)
  {
    var e := Exponent(max, base, n);
    BelowFull(max, base, n, e);
    if e > 0 && Quot(n, base, e) * base < max {
      assert RustGap(max, base, n, e);
    }
    if f: nat :| RustGap(max, base, n, f) {
      BelowFull(max, base, n, f);
      LeastIsUnique(max, base, n, f, e);
    }
  }

  lemma JsGapExactly(max: nat, base: nat, n: nat)
    requires max > 0 && base >= 2
    ensures var e := JsExponent(max, base, n);
            e > 0 && Quot(n, base, e) * base < max <==> exists f: nat :: JsGap(max, base, n, f)
  {
    var e := JsExponent(max, base, n);
    BelowFull(max, base, n, e);
    if e > 0 {
      DivAtMost(n, Pow(base, e - 1), max + 1);
    }
    if e > 0 && Quot(n, base, e) * base < max {
      assert JsGap(max, base, n, e);
    }
    if f: nat :| JsGap(max, base, n, f) {
      BelowFull(max, base, n, f);
      DivAtMost(n, Pow(base, f - 1), max + 1);
      FirstIsUnique(max, base, n, f, e);
    }
  }

  /** Below the least full mantissa, in units of a power. */
  lemma BelowFull(max: nat, base: nat, n: nat, e: nat)
    requires max > 0 && base >= 2
    ensures var below := n < LeastFull(max, base) * Pow(base, e);
            && (below <==> Quot(n, base, e) * base < max)
            && (below ==> n <= max * Pow(base, e) && Quot(n, base, e) <= max)
  {
    var c, p := LeastFull(max, base), Pow(base, e);
    LeastFullIsLeast(max, base, Quot(n, base, e));
    hide Pow, LeastFull;
    DivAtMost(n, p, c - 1);
    MulMono(c, max, p);
  }

  /** Where the server packs a number, its value is the greatest representable one not above exactly off its gaps. */
  lemma RustGreatestBelow(n: nat, expBits: nat, manBits: nat)
    requires manBits > 0
    ensures var r := RustRepack(n, expBits, manBits);
            r.Some? ==> (GreatestBelow(n, r.value, expBits, manBits, BASE) <==>
                         !exists e: nat :: RustGap(MaxMantissa(manBits), BASE, n, e))
  {
    if ServerAccepts(n, expBits, manBits) {
      BothFit(n, expBits, manBits, BASE);
      var max := MaxMantissa(manBits);
      RustIsFair(max, BASE, n);
      RustGapExactly(max, BASE, n);
      GreatestBelowExactly(n, expBits, manBits, BASE, Exponent(max, BASE, n));
      hide GreatestBelow, Exponent, Quot, Pow, RustGap, Greatest;
    }
  }

  /** Where the client does, exactly off its own. */
  lemma JsGreatestBelow(n: nat, expBits: nat, manBits: nat)
    requires manBits > 0
    ensures var r := JsRepack(n, expBits, manBits);
            r.Some? ==> (GreatestBelow(n, r.value, expBits, manBits, BASE) <==>
                         !exists e: nat :: JsGap(MaxMantissa(manBits), BASE, n, e))
  {
    if n <= Greatest(expBits, manBits, BASE) {
      BothFit(n, expBits, manBits, BASE);
      var max := MaxMantissa(manBits);
      JsIsFair(max, BASE, n);
      JsGapExactly(max, BASE, n);
      GreatestBelowExactly(n, expBits, manBits, BASE, JsExponent(max, BASE, n));
      hide GreatestBelow, JsExponent, Quot, Pow, JsGap, Greatest;
    }
  }

  lemma CompareFiner(a: nat, b: nat, p: nat)
    requires p > 0
    ensures a * p >= b * p <==> a >= b
  {
    if a >= b {
      MulMono(b, a, p);
    } else {
      MulMono(a + 1, b, p);
      Distribute(a, 1, p);
    }
  }

  lemma BelowRepacked(n: nat, max: nat, base: nat, e: nat, v: nat, m: nat, k: nat)
    requires base > 0 && v <= n && m <= max && v == m * Pow(base, k)
    requires e == 0 || max * Pow(base, e - 1) <= Repacked(n, base, e)
    ensures v <= Repacked(n, base, e)
  {
    if k < e {
      PowMono(base, k, e - 1);
      MulMono(m, max, Pow(base, k));
      MulMono(Pow(base, k), Pow(base, e - 1), max);
    } else {
      MultipleOfLower(base, m, e, k);
      var p, q := Pow(base, e), m * Pow(base, k - e);
      hide Pow;
      DivAtMost(n, p, q);
      MulMono(q, n / p, p);
    }
  }

  /** One below the range of a fee's mantissa it is kept; one above, it falls by 8; and where the quotient is the
      greatest mantissa with a rest, the two packers differ. */
  lemma FeeExamples()
    ensures RustRepack(2047, 5, 11) == JsRepack(2047, 5, 11) == Some(2047)
    ensures RustRepack(2048, 5, 11) == JsRepack(2048, 5, 11) == Some(2040)
    ensures RustRepack(20475, 5, 11) == Some(20400) && JsRepack(20475, 5, 11) == Some(20470)
  {
    assert Pow(10, 0) == 1 && Pow(10, 1) == 10 && Pow(10, 2) == 100;
    assert MaxMantissa(11) == 2047;
    FeesWithinServer();
    hide Greatest;
    RepackedAt(2047, 0, 0);
    RepackedAt(2048, 1, 1);
    RepackedAt(20475, 2, 1);
  }

  lemma RepackedAt(n: nat, r: nat, j: nat)
    requires MaxMantissa(11) == 2047 && IsLeast(2047, 10, n, r) && IsFirst(2047, 10, n, j)
    requires n <= 20475 <= Greatest(5, 11, 10)
    ensures RustRepack(n, 5, 11) == Some(Repacked(n, 10, r)) && JsRepack(n, 5, 11) == Some(Repacked(n, 10, j))
  {
    hide Greatest;
    LeastIsUnique(2047, 10, n, r, Exponent(2047, 10, n));
    FirstIsUnique(2047, 10, n, j, JsExponent(2047, 10, n));
  }

  /** The two formats in use satisfy what the packers ask of a format. */
  lemma FormatsFit()
    ensures MaxMantissa(AMOUNT_MANTISSA_BITS) == 0x7_FFFF_FFFF && MaxPower(AMOUNT_EXPONENT_BITS) == 31
    ensures MaxMantissa(FEE_MANTISSA_BITS) == 2047 && MaxPower(FEE_EXPONENT_BITS) == 31
    ensures (AMOUNT_EXPONENT_BITS + AMOUNT_MANTISSA_BITS) % 8 == 0 && (FEE_EXPONENT_BITS + FEE_MANTISSA_BITS) % 8 == 0
  {
    assert Pow(2, 10) == 1024 && Pow(2, 5) == 32 && Pow(2, 11) == 2048;
    PowAdd(2, 10, 10);
    PowAdd(2, 10, 5);
    PowAdd(2, 20, 15);
    hide Pow;
  }

  // ---------- The checked entry points ----------

  /** None when the number is too big to pack at all. */
  method ClosestPackable(n: nat, expBits: nat, manBits: nat) returns (r: Option<nat>)
    requires (expBits + manBits) % 8 == 0 && manBits > 0
    ensures r == JsRepack(n, expBits, manBits)
  {
    hide JsExponent, Packed, Quot, Pow, Representable;
    var data := Pack(n, expBits, manBits);
    JsRoundTrip(n, expBits, manBits);
    if data.None? {
      return None;
    }
    r := FloatToInteger(data.value, expBits, manBits);
  }

  /** The client's checked packer succeeds exactly on the representable amounts; its bytes are the server's exactly when
      the amount is within 128 bits. */
  method PackChecked(n: nat, expBits: nat, manBits: nat) returns (r: Option<seq<Byte>>)
    requires (expBits + manBits) % 8 == 0 && manBits > 0
    ensures r.Some? <==> Representable(n, expBits, manBits, BASE)
    ensures r.Some? ==> (RustPack(n, expBits, manBits) == r <==> n <= U128_MAX)
  {
    hide JsExponent, Exponent, Packed, Quot, Pow, Representable, Greatest;
    var closest := ClosestPackable(n, expBits, manBits);
    KeptByBoth(n, expBits, manBits);
    if closest != Some(n) {
      return None;
    }
    RepresentableSameBytes(n, expBits, manBits);
    r := Pack(n, expBits, manBits);
  }

  /** The server's test; None when it aborts on a number it does not accept. */
  method IsPackable(n: nat, expBits: nat, manBits: nat) returns (r: Option<bool>)
    requires (expBits + manBits) % 8 == 0 && manBits > 0
    requires BASE <= MaxMantissa(manBits) <= U128_MAX && MaxPower(expBits) <= U32_MAX
    ensures r == if !ServerAccepts(n, expBits, manBits) then None
                 else Some(Representable(n, expBits, manBits, BASE))
  {
    hide JsExponent, Exponent, Packed, Quot, Pow, Representable, Greatest;
    var data := PackAsFloat(n, expBits, manBits);
    if data.None? {
      return None;
    }
    RustRoundTrip(n, expBits, manBits);
    KeptByBoth(n, expBits, manBits);
    var back := UnpackFloat(data.value, expBits, manBits);
    r := Some(back == Some(n));
  }
}
