/** The public data of operations and blocks: the bytes a block publishes on chain, and how the restorer reads them. */
module PubData {
  import opened Types
  import opened Ledger
  import opened Powers
  import opened Bits
  import opened FloatPacking
  import opened FloatTheorems
  import opened Restore

  // ---------- Fields ----------

  function ToBytes(n: nat, width: nat): (bytes: seq<Byte>)
    ensures |bytes| == width
  {
    if width == 0 then [] else ToBytes(n / 256, width - 1) + [n % 256]
  }

  lemma {:induction false} BytesBack(n: nat, width: nat)
    requires n < Pow(256, width)
    ensures BigEndian(ToBytes(n, width)) == n
  {
    if width > 0 {
      var bytes := ToBytes(n, width);
      assert bytes[..width - 1] == ToBytes(n / 256, width - 1) && bytes[width - 1] == n % 256;
      assert Pow(256, width) == 256 * Pow(256, width - 1);
      BytesBack(n / 256, width - 1);
    }
  }

  function Zeros(n: nat): (bytes: seq<Byte>)
    ensures |bytes| == n
  {
    seq(n, i => 0)
  }

  /** Pad with zeros, or cut, to a length. */
  function Resize(bytes: seq<Byte>, length: nat): seq<Byte> {
    if |bytes| <= length then bytes + Zeros(length - |bytes|) else bytes[..length]
  }

  const ID: nat := 3
  const TOKEN: nat := 2
  const ADDRESS: nat := 20
  const NONCE: nat := 4
  const FEE: nat := 2

  /** A fee the packer accepts; it aborts on any other. */
  predicate PackableFee(fee: nat) {
    ServerAccepts(fee, FEE_EXPONENT_BITS, FEE_MANTISSA_BITS)
  }

  function PackFee(fee: nat): seq<Byte>
    requires PackableFee(fee)
  {
    RustPack(fee, FEE_EXPONENT_BITS, FEE_MANTISSA_BITS).value
  }

  function UnpackFee(bytes: seq<Byte>): Option<nat> {
    RustUnpack(bytes, FEE_EXPONENT_BITS, FEE_MANTISSA_BITS)
  }

  function RepackFee(fee: nat): nat {
    var r := RustRepack(fee, FEE_EXPONENT_BITS, FEE_MANTISSA_BITS);
    if r.Some? then r.value else 0
  }

  lemma FeeBack(fee: nat)
    requires PackableFee(fee)
    ensures |PackFee(fee)| == FEE && UnpackFee(PackFee(fee)) == Some(RepackFee(fee))
  {
    assert MaxMantissa(FEE_MANTISSA_BITS) == 2047;
    RustRoundTrip(fee, FEE_EXPONENT_BITS, FEE_MANTISSA_BITS);
    hide Exponent, Quot, Pow, BitsLE, ByteOf;
  }

  lemma {:induction false} NoBits(bits: seq<bool>)
    requires forall i | 0 <= i < |bits| :: !bits[i]
    ensures ValueLE(bits) == 0
  {
    if bits != [] {
      NoBits(bits[1..]);
    }
  }

  lemma ZeroByte()
    ensures forall i | 0 <= i < 8 :: !BitsOfByte(0)[i]
  {
    forall i | 0 <= i < 8 ensures !TestBit(0, i) {}
  }

  lemma NoFeeBack()
    ensures UnpackFee(Zeros(FEE)) == Some(0)
  {
    var data := Zeros(FEE);
    ZeroByte();
    BigEndianIsValue(data);
    assert data[..1] == [0] && data[..1][..0] == [];
    assert BitsOf(data) == BitsOfByte(0) + BitsOfByte(0);
    NoBits(Rev(BitsOf(data)[..FEE_MANTISSA_BITS]));
    NoBits(Rev(BitsOf(data)[FEE_MANTISSA_BITS..]));
    assert Pow(BASE, 0) == 1;
  }

  // ---------- Operations ----------

  /** What the source's integer and byte-array types guarantee, and that a published fee is packable. */
  predicate Typed(op: FranklinOp) {
    match op
    case NoopOp => true
    case DepositOp(d, id) => id < Pow(256, ID) && d.token < Pow(256, TOKEN) && d.to < Pow(256, ADDRESS)
    case TransferToNewOp(t, from, to) =>
      from < Pow(256, ID) && to < Pow(256, ID) && t.token < Pow(256, TOKEN) && t.to < Pow(256, ADDRESS)
    case WithdrawOp(w, id) =>
      id < Pow(256, ID) && w.token < Pow(256, TOKEN) && w.to < Pow(256, ADDRESS) && PackableFee(w.fee)
    case CloseOp(_, id) => id < Pow(256, ID)
    case TransferOp(t, from, to) =>
      from < Pow(256, ID) && to < Pow(256, ID) && t.token < Pow(256, TOKEN) && PackableFee(t.fee)
    case FullExitOp(e) => e.accountId < Pow(256, ID) && e.ethAddress < Pow(256, ADDRESS)
    case ChangePubKeyOp(p, id) =>
      && id < Pow(256, ID) && p.newPubKeyHash < Pow(256, ADDRESS)
      && p.account < Pow(256, ADDRESS) && p.nonce < Pow(256, NONCE)
  }

  function OpCode(op: FranklinOp): Byte {
    match op
    case NoopOp => 0
    case DepositOp(_, _) => 1
    case TransferToNewOp(_, _, _) => 2
    case WithdrawOp(_, _) => 3
    case CloseOp(_, _) => 4
    case TransferOp(_, _, _) => 5
    case FullExitOp(_) => 6
    case ChangePubKeyOp(_, _) => 7
  }

  /** Everything after the code and before the padding. */
  function Fields(op: FranklinOp): seq<Byte>
    requires Typed(op)
  {
    match op
    case NoopOp => []
    case DepositOp(d, id) => ToBytes(id, ID) + ToBytes(d.token, TOKEN) + ToBytes(d.to, ADDRESS)
    case TransferToNewOp(t, from, to) =>
      ToBytes(from, ID) + ToBytes(t.token, TOKEN) + ToBytes(t.to, ADDRESS) + ToBytes(to, ID)
    case WithdrawOp(w, id) => ToBytes(id, ID) + ToBytes(w.token, TOKEN) + PackFee(w.fee) + ToBytes(w.to, ADDRESS)
    case CloseOp(_, id) => ToBytes(id, ID)
    case TransferOp(t, from, to) => ToBytes(from, ID) + ToBytes(t.token, TOKEN) + ToBytes(to, ID) + PackFee(t.fee)
    case FullExitOp(e) => ToBytes(e.accountId, ID) + ToBytes(e.ethAddress, ADDRESS)
    case ChangePubKeyOp(p, id) =>
      ToBytes(id, ID) + ToBytes(p.newPubKeyHash, ADDRESS) + ToBytes(p.account, ADDRESS) + ToBytes(p.nonce, NONCE)
  }

  function PublicData(op: FranklinOp): seq<Byte>
    requires Typed(op)
  {
    Resize([OpCode(op)] + Fields(op), 8 * op.Chunks())
  }

  function PublicDataLength(code: Byte): Option<nat> {
    match code
    case 0 => Some(8)
    case 1 => Some(48)
    case 2 => Some(40)
    case 3 => Some(48)
    case 4 => Some(8)
    case 5 => Some(16)
    case 6 => Some(48)
    case 7 => Some(48)
    case _ => None
  }

  /** The number in a field. */
  function Read(bytes: seq<Byte>, offset: nat, width: nat): nat
    requires offset + width <= |bytes|
  {
    BigEndian(bytes[offset..offset + width])
  }

  function FromPublicData(bytes: seq<Byte>): Option<FranklinOp> {
    if bytes == [] then None else
    match bytes[0]
    case 0 => if bytes == Zeros(8) then Some(NoopOp) else None
    case 1 =>
      if |bytes| != 48 then None else
      Some(DepositOp(Deposit(0, Read(bytes, 4, TOKEN), Read(bytes, 6, ADDRESS)), Read(bytes, 1, ID)))
    case 2 =>
      if |bytes| != 40 || UnpackFee(bytes[29..31]).None? then None else
      var from, fee := Read(bytes, 1, ID), UnpackFee(bytes[29..31]).value;
      Some(TransferToNewOp(Transfer(from, 0, Read(bytes, 6, ADDRESS), Read(bytes, 4, TOKEN), fee, 0, None),
                           from, Read(bytes, 26, ID)))
    case 3 =>
      if |bytes| != 48 || UnpackFee(bytes[6..8]).None? then None else
      var id, fee := Read(bytes, 1, ID), UnpackFee(bytes[6..8]).value;
      Some(WithdrawOp(Withdraw(id, 0, Read(bytes, 8, ADDRESS), Read(bytes, 4, TOKEN), fee, 0, None), id))
    case 4 => if |bytes| != 8 then None else Some(CloseOp(Close(0, 0), Read(bytes, 1, ID)))
    case 5 =>
      if |bytes| != 16 || UnpackFee(bytes[9..11]).None? then None else
      var from, fee := Read(bytes, 1, ID), UnpackFee(bytes[9..11]).value;
      Some(TransferOp(Transfer(from, 0, 0, Read(bytes, 4, TOKEN), fee, 0, None), from, Read(bytes, 6, ID)))
    case 6 => if |bytes| != 48 then None else Some(FullExitOp(FullExit(Read(bytes, 1, ID), Read(bytes, 4, ADDRESS))))
    case 7 =>
      if |bytes| < 48 then None else
      var id := Read(bytes, 1, ID);
      var account, newPubKeyHash := Read(bytes, 24, ADDRESS), Read(bytes, 4, ADDRESS);
      Some(ChangePubKeyOp(ChangePubKey(id, account, newPubKeyHash, Read(bytes, 44, NONCE), None), id))
    case _ => None
  }

  /** What is left of an operation after publishing and reading it. */
  function Wire(op: FranklinOp): FranklinOp {
    match op
    case NoopOp => NoopOp
    case DepositOp(d, id) => DepositOp(d.(from := 0), id)
    case TransferToNewOp(t, from, to) => TransferToNewOp(Transfer(from, 0, t.to, t.token, 0, 0, None), from, to)
    case WithdrawOp(w, id) => WithdrawOp(Withdraw(id, 0, w.to, w.token, RepackFee(w.fee), 0, None), id)
    case CloseOp(_, id) => CloseOp(Close(0, 0), id)
    case TransferOp(t, from, to) => TransferOp(Transfer(from, 0, 0, t.token, RepackFee(t.fee), 0, None), from, to)
    case FullExitOp(e) => op
    case ChangePubKeyOp(p, id) => ChangePubKeyOp(p.(accountId := id, ethSignature := None), id)
  }

  lemma WireCarries(op: FranklinOp)
    ensures Carries(Wire(op), op)
  {
  }

  lemma PublicDataLengths(op: FranklinOp)
    requires Typed(op)
    ensures |PublicData(op)| == 8 * op.Chunks() && PublicData(op)[0] == OpCode(op)
    ensures PublicDataLength(OpCode(op)) == Some(8 * op.Chunks())
    ensures PublicData(op) == [OpCode(op)] + Fields(op) + Zeros(8 * op.Chunks() - 1 - |Fields(op)|)
  {
    hide Pow, ToBytes, PackFee, PackableFee;
    if op.WithdrawOp? {
      FeeBack(op.withdraw.fee);
    } else if op.TransferOp? {
      FeeBack(op.transfer.fee);
    }
  }

  /** A field read at its offset is the number written there. */
  lemma ReadField(before: seq<Byte>, n: nat, width: nat, after: seq<Byte>)
    requires n < Pow(256, width)
    ensures Read(before + ToBytes(n, width) + after, |before|, width) == n
  {
    BytesBack(n, width);
    var all := before + ToBytes(n, width) + after;
    assert all[|before|..|before| + width] == ToBytes(n, width);
  }

  lemma DepositBack(op: FranklinOp)
    requires Typed(op) && op.DepositOp?
    ensures FromPublicData(PublicData(op)) == Some(Wire(op))
  {
    hide Pow, ToBytes, BigEndian, Read;
    PublicDataLengths(op);
    var a, b := ToBytes(op.accountId, ID), ToBytes(op.deposit.token, TOKEN);
    var c, z := ToBytes(op.deposit.to, ADDRESS), Zeros(22);
    var all := PublicData(op);
    assert all == [1] + a + (b + c + z) && all == ([1] + a) + b + (c + z) && all == ([1] + a + b) + c + z;
    ReadField([1], op.accountId, ID, b + c + z);
    ReadField([1] + a, op.deposit.token, TOKEN, c + z);
    ReadField([1] + a + b, op.deposit.to, ADDRESS, z);
  }

  lemma TransferToNewBack(op: FranklinOp)
    requires Typed(op) && op.TransferToNewOp?
    ensures FromPublicData(PublicData(op)) == Some(Wire(op))
  {
    hide Pow, ToBytes, BigEndian, Read, UnpackFee;
    PublicDataLengths(op);
    var a, b := ToBytes(op.from, ID), ToBytes(op.transfer.token, TOKEN);
    var c, d, z := ToBytes(op.transfer.to, ADDRESS), ToBytes(op.to, ID), Zeros(11);
    var all := PublicData(op);
    assert all == [2] + a + (b + c + d + z) && all == ([2] + a) + b + (c + d + z);
    assert all == ([2] + a + b) + c + (d + z) && all == ([2] + a + b + c) + d + z;
    ReadField([2], op.from, ID, b + c + d + z);
    ReadField([2] + a, op.transfer.token, TOKEN, c + d + z);
    ReadField([2] + a + b, op.transfer.to, ADDRESS, d + z);
    ReadField([2] + a + b + c, op.to, ID, z);
    assert all[29..31] == Zeros(FEE);
    NoFeeBack();
  }

  lemma WithdrawBack(op: FranklinOp)
    requires Typed(op) && op.WithdrawOp?
    ensures FromPublicData(PublicData(op)) == Some(Wire(op))
  {
    hide Pow, ToBytes, BigEndian, Read, UnpackFee, PackFee, PackableFee, RepackFee;
    PublicDataLengths(op);
    FeeBack(op.withdraw.fee);
    var a, b := ToBytes(op.accountId, ID), ToBytes(op.withdraw.token, TOKEN);
    var c, d, z := PackFee(op.withdraw.fee), ToBytes(op.withdraw.to, ADDRESS), Zeros(20);
    var all := PublicData(op);
    assert all == [3] + a + (b + c + d + z) && all == ([3] + a) + b + (c + d + z);
    assert all == ([3] + a + b) + c + (d + z) && all == ([3] + a + b + c) + d + z;
    ReadField([3], op.accountId, ID, b + c + d + z);
    ReadField([3] + a, op.withdraw.token, TOKEN, c + d + z);
    ReadField([3] + a + b + c, op.withdraw.to, ADDRESS, z);
    assert all[6..8] == c;
  }

  lemma TransferBack(op: FranklinOp)
    requires Typed(op) && op.TransferOp?
    ensures FromPublicData(PublicData(op)) == Some(Wire(op))
  {
    hide Pow, ToBytes, BigEndian, Read, UnpackFee, PackFee, PackableFee, RepackFee;
    PublicDataLengths(op);
    FeeBack(op.transfer.fee);
    var a, b := ToBytes(op.from, ID), ToBytes(op.transfer.token, TOKEN);
    var c, d, z := ToBytes(op.to, ID), PackFee(op.transfer.fee), Zeros(5);
    var all := PublicData(op);
    assert all == [5] + a + (b + c + d + z) && all == ([5] + a) + b + (c + d + z);
    assert all == ([5] + a + b) + c + (d + z) && all == ([5] + a + b + c) + d + z;
    ReadField([5], op.from, ID, b + c + d + z);
    ReadField([5] + a, op.transfer.token, TOKEN, c + d + z);
    ReadField([5] + a + b, op.to, ID, d + z);
    assert all[9..11] == d;
  }

  lemma ChangePubKeyBack(op: FranklinOp)
    requires Typed(op) && op.ChangePubKeyOp?
    ensures FromPublicData(PublicData(op)) == Some(Wire(op))
  {
    hide Pow, ToBytes, BigEndian, Read;
    PublicDataLengths(op);
    var p := op.change;
    var a, b := ToBytes(op.accountId, ID), ToBytes(p.newPubKeyHash, ADDRESS);
    var c, d := ToBytes(p.account, ADDRESS), ToBytes(p.nonce, NONCE);
    var all := PublicData(op);
    assert all == [7] + a + (b + c + d) && all == ([7] + a) + b + (c + d);
    assert all == ([7] + a + b) + c + d && all == ([7] + a + b + c) + d + [];
    ReadField([7], op.accountId, ID, b + c + d);
    ReadField([7] + a, p.newPubKeyHash, ADDRESS, c + d);
    ReadField([7] + a + b, p.account, ADDRESS, d);
    ReadField([7] + a + b + c, p.nonce, NONCE, []);
  }

  lemma ShortBack(op: FranklinOp)
    requires Typed(op) && (op.NoopOp? || op.CloseOp? || op.FullExitOp?)
    ensures FromPublicData(PublicData(op)) == Some(Wire(op))
  {
    hide Pow, ToBytes, BigEndian, Read;
    PublicDataLengths(op);
    var all := PublicData(op);
    match op
    case NoopOp => assert all == Zeros(8);
    case CloseOp(_, id) => ReadField([4], id, ID, Zeros(4));
    case FullExitOp(e) =>
      var a, b, z := ToBytes(e.accountId, ID), ToBytes(e.ethAddress, ADDRESS), Zeros(24);
      assert all == [6] + a + (b + z) && all == ([6] + a) + b + z;
      ReadField([6], e.accountId, ID, b + z);
      ReadField([6] + a, e.ethAddress, ADDRESS, z);
  }

  /** Reading what an operation published gives it back, without what is not published. */
  lemma OperationBack(op: FranklinOp)
    requires Typed(op)
    ensures FromPublicData(PublicData(op)) == Some(Wire(op))
  {
    hide FromPublicData, PublicData, Typed, Wire;
    match op
    case DepositOp(_, _) => DepositBack(op);
    case TransferToNewOp(_, _, _) => TransferToNewBack(op);
    case WithdrawOp(_, _) => WithdrawBack(op);
    case TransferOp(_, _, _) => TransferBack(op);
    case ChangePubKeyOp(_, _) => ChangePubKeyBack(op);
    case _ => ShortBack(op);
  }

  // ---------- A block's data ----------

  /** The operations in the data, one after another; an error when one cannot be read, and an abort when the data
      ends within one. */
  function ParseOps(data: seq<Byte>): Outcome<seq<FranklinOp>>
    decreases |data|
  {
    if data == [] then Done([]) else
    match PublicDataLength(data[0])
    case None => Rejected(BadPublicData)
    case Some(n) =>
      if n > |data| then Panicked else
      match FromPublicData(data[..n])
      case None => Rejected(BadPublicData)
      case Some(op) => Prepend([op], ParseOps(data[n..]))
  }

  function Prepend(ops: seq<FranklinOp>, rest: Outcome<seq<FranklinOp>>): Outcome<seq<FranklinOp>> {
    match rest
    case Done(more) => Done(ops + more)
    case _ => rest
  }

  method GetRollupOpsFromData(data: seq<Byte>) returns (r: Outcome<seq<FranklinOp>>)
    ensures r == ParseOps(data)
  {
    var position := 0;
    var ops := [];
    assert data[0..] == data;
    PrependNothing(ParseOps(data));
    while position < |data|
      invariant position <= |data| && ParseOps(data) == Prepend(ops, ParseOps(data[position..]))
    {
      var size := PublicDataLength(data[position]);
      if size.None? {
        return Rejected(BadPublicData);
      }
      var post := position + size.value;
      if post > |data| {
        return Panicked;
      }
      assert data[position..][..size.value] == data[position..post];
      assert data[position..][size.value..] == data[post..];
      var op := FromPublicData(data[position..post]);
      if op.None? {
        return Rejected(BadPublicData);
      }
      PrependTwice(ops, [op.value], ParseOps(data[post..]));
      ops := ops + [op.value];
      position := post;
    }
    assert ops + [] == ops;
    r := Done(ops);
  }

  lemma PrependNothing(rest: Outcome<seq<FranklinOp>>)
    ensures Prepend([], rest) == rest
  {
    if rest.Done? {
      assert [] + rest.value == rest.value;
    }
  }

  lemma PrependTwice(a: seq<FranklinOp>, b: seq<FranklinOp>, rest: Outcome<seq<FranklinOp>>)
    ensures Prepend(a, Prepend(b, rest)) == Prepend(a + b, rest)
  {
    if rest.Done? {
      assert a + (b + rest.value) == (a + b) + rest.value;
    }
  }

  predicate AllTyped(ops: seq<FranklinOp>) {
    forall i | 0 <= i < |ops| :: Typed(ops[i])
  }

  function AllPublicData(ops: seq<FranklinOp>): seq<Byte>
    requires AllTyped(ops)
  {
    if ops == [] then [] else PublicData(ops[0]) + AllPublicData(ops[1..])
  }

  function Wires(ops: seq<FranklinOp>): seq<FranklinOp> {
    seq(|ops|, i requires 0 <= i < |ops| => Wire(ops[i]))
  }

  function Noops(n: nat): seq<FranklinOp> {
    seq(n, i => NoopOp)
  }

  lemma ParseFirst(op: FranklinOp, rest: seq<Byte>)
    requires Typed(op)
    ensures ParseOps(PublicData(op) + rest) == Prepend([Wire(op)], ParseOps(rest))
  {
    hide FromPublicData, PublicData, Typed, Wire;
    OperationBack(op);
    PublicDataLengths(op);
    var all, n := PublicData(op) + rest, 8 * op.Chunks();
    assert all[0] == OpCode(op) && all[..n] == PublicData(op) && all[n..] == rest;
  }

  lemma {:induction false} ParsePadding(n: nat)
    ensures ParseOps(Zeros(8 * n)) == Done(Noops(n))
  {
    if n == 0 {
      assert Zeros(0) == [] && Noops(0) == [];
    } else {
      var all, rest := Zeros(8 * n), Zeros(8 * (n - 1));
      assert all[..8] == Zeros(8) && all[8..] == rest;
      assert FromPublicData(Zeros(8)) == Some(NoopOp);
      ParsePadding(n - 1);
      assert [NoopOp] + Noops(n - 1) == Noops(n);
    }
  }

  /** Published operations followed by padding are read back, and the padding as no-ops. */
  lemma {:induction false} ParsePublished(ops: seq<FranklinOp>, padding: nat)
    requires AllTyped(ops)
    ensures ParseOps(AllPublicData(ops) + Zeros(8 * padding)) == Done(Wires(ops) + Noops(padding))
  {
    hide ParseOps, PublicData, Typed, Wire;
    if ops == [] {
      ParsePadding(padding);
      assert AllPublicData(ops) + Zeros(8 * padding) == Zeros(8 * padding);
      assert Wires(ops) + Noops(padding) == Noops(padding);
    } else {
      var rest := AllPublicData(ops[1..]) + Zeros(8 * padding);
      assert AllPublicData(ops) + Zeros(8 * padding) == PublicData(ops[0]) + rest;
      ParseFirst(ops[0], rest);
      ParsePublished(ops[1..], padding);
      assert Wires(ops) == [Wire(ops[0])] + Wires(ops[1..]);
      assert [Wire(ops[0])] + (Wires(ops[1..]) + Noops(padding)) == Wires(ops) + Noops(padding);
    }
  }
}
