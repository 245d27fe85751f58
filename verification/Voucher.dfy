/** packages/solana/src/voucher.ts: the 50-byte voucher payload. */
module Vouchers {
  import opened Basics
  import opened Numerals

  const CHANNEL_ID_LENGTH := 32
  const VOUCHER_LENGTH := 50
  const VOUCHER_MAGIC: seq<int> := [0x56, 0x01]
  const TWO_64: int := 0x1_0000_0000_0000_0000
  const TWO_63: int := 0x8000_0000_0000_0000

  datatype Voucher = Voucher(channelId: seq<int>, cumulativeAmount: int, expiresAt: int)

  datatype VoucherError =
    | WrongChannelIdLength
    | AmountOutOfRange
    | ExpiryOutOfRange
    | WrongLength
    | WrongMagic
    | PreviousOutOfRange
    | NextOutOfRange
    | CeilingOutOfRange
    | NotIncreasing
    | ExceedsCeiling

  predicate IsU64(n: int) {
    0 <= n < TWO_64
  }

  predicate IsI64(n: int) {
    -TWO_63 <= n < TWO_63
  }

  /** A voucher the type allows: its id is made of bytes. */
  predicate Typed(v: Voucher) {
    DigitsBelow(v.channelId, 256)
  }

  const WORD_LENGTH := 8

  /** n without its i low bytes. */
  function Shift(n: int, i: nat): int
    decreases i
  {
    if i == 0 then n else Shift(n / 256, i - 1)
  }

  /** The i-th byte of n, counted from the least significant. */
  function Byte(n: int, i: nat): (b: int)
    ensures 0 <= b < 256
  {
    Shift(n, i) % 256
  }

  /** A 64-bit word in little-endian order. */
  function Word(n: int): (bs: seq<int>)
    ensures |bs| == WORD_LENGTH && DigitsBelow(bs, 256)
  {
    seq(WORD_LENGTH, i requires 0 <= i < WORD_LENGTH => Byte(n, i))
  }

  /** Two's complement: what setBigInt64 stores and getBigInt64 reads. */
  function ToUnsigned(n: int): int {
    if n < 0 then n + TWO_64 else n
  }

  function ToSigned(n: int): int {
    if n >= TWO_63 then n - TWO_64 else n
  }

  function Encode(v: Voucher): Result<seq<int>, VoucherError> {
    if |v.channelId| != CHANNEL_ID_LENGTH then Err(WrongChannelIdLength)
    else if !IsU64(v.cumulativeAmount) then Err(AmountOutOfRange)
    else if !IsI64(v.expiresAt) then Err(ExpiryOutOfRange)
    else Ok(VOUCHER_MAGIC + v.channelId + Word(v.cumulativeAmount) + Word(ToUnsigned(v.expiresAt)))
  }

  function Decode(encoded: seq<int>): Result<Voucher, VoucherError> {
    if |encoded| != VOUCHER_LENGTH then Err(WrongLength)
    else if encoded[0] != VOUCHER_MAGIC[0] || encoded[1] != VOUCHER_MAGIC[1] then Err(WrongMagic)
    else Ok(Voucher(encoded[2..34], LittleEndian(encoded[34..42], 256), ToSigned(LittleEndian(encoded[42..50], 256))))
  }

  function Pow256(k: nat): int {
    if k == 0 then 1 else 256 * Pow256(k - 1)
  }

  /** Reading `width` bytes of n from position `from` on. */
  lemma {:induction false} ValueOfBytes(n: int, bs: seq<int>)
    requires 0 <= n < Pow256(|bs|)
    requires forall i :: 0 <= i < |bs| ==> bs[i] == Byte(n, i)
    ensures LittleEndian(bs, 256) == n
    decreases |bs|
  {
    if bs == [] {
    } else {
      forall i | 0 <= i < |bs[1..]| ensures bs[1..][i] == Byte(n / 256, i) {
        assert bs[i + 1] == Byte(n, i + 1);
      }
      ValueOfBytes(n / 256, bs[1..]);
      assert bs[0] == Byte(n, 0);
    }
  }

  lemma {:induction false} BytesOfValue(bs: seq<int>)
    requires DigitsBelow(bs, 256)
    ensures 0 <= LittleEndian(bs, 256) < Pow256(|bs|)
    ensures forall i :: 0 <= i < |bs| ==> Byte(LittleEndian(bs, 256), i) == bs[i]
  {
    if bs == [] {
    } else {
      var n, m := LittleEndian(bs, 256), LittleEndian(bs[1..], 256);
      BytesOfValue(bs[1..]);
      assert n / 256 == m;
      forall i | 0 <= i < |bs| ensures Byte(n, i) == bs[i] {
        if i > 0 { assert Byte(n, i) == Byte(m, i - 1) == bs[1..][i - 1]; }
      }
    }
  }

  lemma WordRange(k: nat)
    requires k == WORD_LENGTH
    ensures Pow256(k) == TWO_64
  {
    assert Pow256(8) == 256 * Pow256(7) && Pow256(7) == 256 * Pow256(6) && Pow256(6) == 256 * Pow256(5);
  }

  lemma ReadWord(n: int)
    requires IsU64(n)
    ensures LittleEndian(Word(n), 256) == n
  {
    WordRange(|Word(n)|);
    ValueOfBytes(n, Word(n));
  }

  lemma WriteWord(bs: seq<int>)
    requires |bs| == WORD_LENGTH && DigitsBelow(bs, 256)
    ensures IsU64(LittleEndian(bs, 256)) && Word(LittleEndian(bs, 256)) == bs
  {
    WordRange(|bs|);
    BytesOfValue(bs);
  }

  /** Every voucher in range decodes back to itself, negative expiries included. */
  lemma DecodeEncode(v: Voucher)
    requires Typed(v) && Encode(v).Ok?
    ensures |Encode(v).value| == VOUCHER_LENGTH && DigitsBelow(Encode(v).value, 256)
    ensures Decode(Encode(v).value) == Ok(v)
  {
    ReadWord(v.cumulativeAmount);
    ReadWord(ToUnsigned(v.expiresAt));
    var e := Encode(v).value;
    assert e[2..34] == v.channelId;
    assert e[34..42] == Word(v.cumulativeAmount);
    assert e[42..50] == Word(ToUnsigned(v.expiresAt));
  }

  /** Every buffer that decodes re-encodes to itself: no two buffers mean the same voucher. */
  lemma EncodeDecode(encoded: seq<int>)
    requires DigitsBelow(encoded, 256) && Decode(encoded).Ok?
    ensures Typed(Decode(encoded).value)
    ensures Encode(Decode(encoded).value) == Ok(encoded)
  {
    var amount, expiry := encoded[34..42], encoded[42..50];
    WriteWord(amount);
    WriteWord(expiry);
    assert encoded == encoded[..2] + encoded[2..34] + amount + expiry;
    assert encoded[..2] == VOUCHER_MAGIC;
  }

  /** Where everything stands: magic, channel id, amount and expiry, low bytes first. */
  lemma WireFormat(v: Voucher, i: nat)
    requires Encode(v).Ok?
    ensures var e := Encode(v).value;
      && |e| == VOUCHER_LENGTH && e[0] == 0x56 && e[1] == 0x01
      && (i < 32 ==> e[2 + i] == v.channelId[i])
      && (i < 8 ==> e[34 + i] == Byte(v.cumulativeAmount, i) && e[42 + i] == Byte(ToUnsigned(v.expiresAt), i))
  {
  }

  lemma EncodeIsInjective(v: Voucher, w: Voucher)
    requires Typed(v) && Typed(w) && Encode(v).Ok? && Encode(v) == Encode(w)
    ensures v == w
  {
    DecodeEncode(v);
    DecodeEncode(w);
  }

  /** Exactly the buffers of 50 bytes with the magic decode, and exactly the vouchers in range encode. */
  lemma Accepts(v: Voucher, encoded: seq<int>)
    requires Typed(v) && DigitsBelow(encoded, 256)
    ensures Decode(encoded).Ok? <==> exists w :: Typed(w) && Encode(w) == Ok(encoded)
    ensures Encode(v).Ok? <==> |v.channelId| == 32 && IsU64(v.cumulativeAmount) && IsI64(v.expiresAt)
  {
    if Decode(encoded).Ok? {
      EncodeDecode(encoded);
    }
    if w :| Typed(w) && Encode(w) == Ok(encoded) {
      DecodeEncode(w);
    }
  }

  /** assertMonotonicVoucherAmount; None means accepted. */
  function MonotonicProblem(previous: int, next: int, ceiling: int): Option<VoucherError> {
    if !IsU64(previous) then Some(PreviousOutOfRange)
    else if !IsU64(next) then Some(NextOutOfRange)
    else if !IsU64(ceiling) then Some(CeilingOutOfRange)
    else if next <= previous then Some(NotIncreasing)
    else if next > ceiling then Some(ExceedsCeiling)
    else None
  }

  /** A voucher amount is accepted exactly when it rises within a ceiling below 2^64; else the first fault counts. */
  lemma MonotonicExactly(previous: int, next: int, ceiling: int)
    ensures var problem := MonotonicProblem(previous, next, ceiling);
      && (problem.None? <==> 0 <= previous < next <= ceiling <= 0xFFFF_FFFF_FFFF_FFFF)
      && (problem == Some(PreviousOutOfRange) <==> !(0 <= previous <= 0xFFFF_FFFF_FFFF_FFFF))
      && (problem.Some? && problem.value.NextOutOfRange? ==> !(0 <= next <= 0xFFFF_FFFF_FFFF_FFFF))
      && (problem.Some? && problem.value.CeilingOutOfRange? ==> !(0 <= ceiling <= 0xFFFF_FFFF_FFFF_FFFF))
      && (problem == Some(NotIncreasing) <==>
            0 <= next <= previous <= 0xFFFF_FFFF_FFFF_FFFF && 0 <= ceiling <= 0xFFFF_FFFF_FFFF_FFFF)
      && (problem == Some(ExceedsCeiling) <==>
            0 <= previous < next <= 0xFFFF_FFFF_FFFF_FFFF && 0 <= ceiling < next)
  {
  }

  // ----- the buffer code -----

  /** encoded.set(source, offset). */
  method SetBytes(buffer: array<int>, source: seq<int>, offset: nat)
    requires offset + |source| <= buffer.Length
    modifies buffer
    ensures buffer[..] == old(buffer[..offset]) + source + old(buffer[offset + |source|..])
  {
    var i := 0;
    while i < |source|
      invariant 0 <= i <= |source|
      invariant forall k :: offset <= k < offset + i ==> buffer[k] == source[k - offset]
      invariant forall k :: 0 <= k < buffer.Length && !(offset <= k < offset + i) ==> buffer[k] == old(buffer[k])
    {
      buffer[offset + i] := source[i];
      i := i + 1;
    }
  }

  /** The bytes of a word, taken off the low end one after the other. */
  method LowBytes(n: int) returns (bytes: seq<int>)
    ensures bytes == Word(n)
  {
    bytes := [];
    var rest := n;
    while |bytes| < WORD_LENGTH
      invariant |bytes| <= WORD_LENGTH
      invariant forall i: nat :: i < |bytes| ==> bytes[i] == Byte(n, i)
      invariant rest == Shift(n, |bytes|)
    {
      bytes := bytes + [rest % 256];
      ShiftNext(n, |bytes| - 1);
      rest := rest / 256;
    }
  }

  lemma {:induction false} ShiftNext(n: int, i: nat)
    ensures Shift(n, i + 1) == Shift(n, i) / 256
    decreases i
  {
    if i == 0 {
    } else {
      ShiftNext(n / 256, i - 1);
    }
  }

  /** DataView.setBigUint64(offset, n, true): eight bytes, low byte first. */
  method SetUint64(buffer: array<int>, offset: nat, n: int)
    requires offset + WORD_LENGTH <= buffer.Length
    modifies buffer
    ensures buffer[..] == old(buffer[..offset]) + Word(n) + old(buffer[offset + WORD_LENGTH..])
  {
    var bytes := LowBytes(n);
    SetBytes(buffer, bytes, offset);
  }

  /** Four disjoint writes that cover the buffer leave their concatenation. */
  lemma Layout(empty: seq<int>, magic: seq<int>, id: seq<int>, amount: seq<int>, expiry: seq<int>)
    requires |empty| == 50 && |magic| == 2 && |id| == 32 && |amount| == 8 && |expiry| == 8
    ensures var b1 := empty[..0] + magic + empty[2..];
      var b2 := b1[..2] + id + b1[34..];
      var b3 := b2[..34] + amount + b2[42..];
      b3[..42] + expiry + b3[50..] == magic + id + amount + expiry
  {
  }

  method EncodeVoucher(v: Voucher) returns (result: Result<array<int>, VoucherError>)
    ensures result.Ok? <==> Encode(v).Ok?
    ensures result.Err? ==> Encode(v) == Err(result.error)
    ensures result.Ok? ==> fresh(result.value) && result.value[..] == Encode(v).value
  {
    if |v.channelId| != CHANNEL_ID_LENGTH {
      return Err(WrongChannelIdLength);
    }
    if !IsU64(v.cumulativeAmount) {
      return Err(AmountOutOfRange);
    }
    if !IsI64(v.expiresAt) {
      return Err(ExpiryOutOfRange);
    }
    var encoded := new int[VOUCHER_LENGTH](_ => 0);
    Layout(encoded[..], VOUCHER_MAGIC, v.channelId, Word(v.cumulativeAmount), Word(ToUnsigned(v.expiresAt)));
    SetBytes(encoded, VOUCHER_MAGIC, 0);
    SetBytes(encoded, v.channelId, 2);
    SetUint64(encoded, 34, v.cumulativeAmount);
    SetUint64(encoded, 42, ToUnsigned(v.expiresAt));
    result := Ok(encoded);
  }
}
