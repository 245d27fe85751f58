/** The in-place algorithm. */
module Base58Decoder {
  import opened Basics
  import opened Numerals
  import opened Base58
  import opened Base58Carry

  /** The bytes before `index` are final, and the rest is still to be multiplied with this carry. */
  predicate Absorbed(bytes: seq<int>, next: seq<int>, index: nat, carry: int, digit: int)
    requires DigitsBelow(bytes, 256) && 0 <= digit < 58
  {
    && index <= |bytes| == |next| && 0 <= carry < 58
    && next[index..] == bytes[index..]
    && next[..index] + MulAdd(bytes[index..], carry) == MulAdd(bytes, digit)
  }

  lemma AbsorbedNext(bytes: seq<int>, next: seq<int>, index: nat, carry: int, digit: int)
    requires DigitsBelow(bytes, 256) && 0 <= digit < 58
    requires Absorbed(bytes, next, index, carry, digit) && index < |bytes|
    ensures var x := carry + next[index] * 58;
      Absorbed(bytes, next[index := x % 256], index + 1, x / 256, digit)
  {
    var x := carry + next[index] * 58;
    assert next[index] == next[index..][0] == bytes[index..][0];
    MulAddStep(next[..index], bytes[index..], carry);
    assert next[index := x % 256][..index + 1] == next[..index] + [x % 256];
    assert next[index := x % 256][index + 1..] == next[index..][1..];
    assert bytes[index..][1..] == bytes[index + 1..];
  }

  /** One character: multiply every byte in place, then append what is left of the carry. */
  method Absorb(bytes: seq<int>, digit: int) returns (next: seq<int>)
    requires DigitsBelow(bytes, 256) && 0 <= digit < 58
    ensures next == MulAdd(bytes, digit)
    ensures |next| <= |bytes| + 1
  {
    var carry := digit;
    next := bytes;
    var index := 0;
    assert next[..0] + MulAdd(bytes[0..], carry) == MulAdd(bytes, digit) by { assert bytes[0..] == bytes; }
    while index < |bytes|
      invariant Absorbed(bytes, next, index, carry, digit)
    {
      AbsorbedNext(bytes, next, index, carry, digit);
      carry := carry + next[index] * 58;
      next := next[index := carry % 256];
      carry := carry / 256;
      index := index + 1;
    }
    assert next[..index] == next && bytes[index..] == [];
    next := Flush(next, carry);
  }

  /** The carry is below 58, so it is at most one more byte. */
  method Flush(bytes: seq<int>, leftover: int) returns (next: seq<int>)
    requires 0 <= leftover < 58
    ensures next == bytes + (if leftover > 0 then [leftover] else [])
  {
    next := bytes;
    var carry := leftover;
    while carry > 0
      invariant 0 <= carry < 58
      invariant next + (if carry > 0 then [carry] else []) == bytes + (if leftover > 0 then [leftover] else [])
    {
      next := next + [carry % 256];
      carry := carry / 256;
    }
  }

  lemma DigitsSnoc(s: string, i: nat)
    requires i < |s| && Valid58(s[..i + 1])
    ensures Valid58(s[..i]) && Value(DigitsIn(s[..i + 1]), 58) == 58 * Value(DigitsIn(s[..i]), 58) + IndexOf(s[i])
  {
    assert forall k :: 0 <= k < i ==> s[..i][k] == s[..i + 1][k];
    assert DigitsIn(s[..i + 1])[..i] == DigitsIn(s[..i]);
  }

  /** Zero is spelled with '1's only. */
  lemma {:induction false} ZeroIsAllOnes(ds: seq<int>)
    requires DigitsBelow(ds, 58) && Value(ds, 58) == 0
    ensures ds == Zeros(|ds|)
  {
    Normal(ds, 58);
  }

  /** Reversing the shortest little-endian bytes behind the right padding is the standard's answer. */
  lemma AssembledZero(value: string, bytes: seq<int>, padding: nat)
    requires value != "" && Valid58(value) && DigitsBelow(bytes, 256) && Shortest(bytes)
    requires LittleEndian(bytes, 256) == Value(DigitsIn(value), 58) == 0
    requires padding == Min(LeadingZeros(DigitsIn(value)), |value| - 1)
    ensures Ok(Reverse(bytes + Zeros(padding))) == Decode(value)
  {
    ZeroIsAllOnes(DigitsIn(value));
    LeadingZerosPadded(|value|, []);
    assert Zeros(|value|) + [] == Zeros(|value|);
    assert padding == |value| - 1;
    ZeroIsOneByte(bytes);
    assert Reverse([0] + Zeros(padding)) == Zeros(|value|);
  }

  lemma ZeroIsOneByte(bytes: seq<int>)
    requires DigitsBelow(bytes, 256) && Shortest(bytes) && LittleEndian(bytes, 256) == 0
    ensures bytes == [0]
  {
    ReverseValue(bytes, 256);
    ValueNonNegative(Reverse(bytes), 256);
    assert bytes[1..] == [] || |bytes| > 1;
  }

  lemma AssembledPositive(value: string, bytes: seq<int>, padding: nat)
    requires value != "" && Valid58(value) && DigitsBelow(bytes, 256) && Shortest(bytes)
    requires LittleEndian(bytes, 256) == Value(DigitsIn(value), 58) > 0
    requires padding == Min(LeadingZeros(DigitsIn(value)), |value| - 1)
    ensures Ok(Reverse(bytes + Zeros(padding))) == Decode(value)
  {
    assert Reverse(bytes + Zeros(padding)) == Zeros(padding) + Reverse(bytes);
    PositiveBytes(bytes);
    if LeadingZeros(DigitsIn(value)) == |value| { AllZeros(DigitsIn(value)); }
  }

  lemma PositiveBytes(bytes: seq<int>)
    requires DigitsBelow(bytes, 256) && Shortest(bytes) && LittleEndian(bytes, 256) > 0
    ensures Reverse(bytes) == Digits(LittleEndian(bytes, 256), 256)
  {
    ReverseValue(bytes, 256);
    if |bytes| == 1 { assert bytes[1..] == []; }
    DigitsOfValue(Reverse(bytes), 256);
  }

  lemma Assembled(value: string, bytes: seq<int>)
    requires value != "" && Valid58(value) && DigitsBelow(bytes, 256) && Shortest(bytes)
    requires LittleEndian(bytes, 256) == Value(DigitsIn(value), 58)
    ensures Ok(Reverse(bytes + Zeros(Min(LeadingZeros(DigitsIn(value)), |value| - 1)))) == Decode(value)
  {
    ValueNonNegative(DigitsIn(value), 58);
    var padding := Min(LeadingZeros(DigitsIn(value)), |value| - 1);
    if Value(DigitsIn(value), 58) == 0 {
      AssembledZero(value, bytes, padding);
    } else {
      AssembledPositive(value, bytes, padding);
    }
  }

  lemma AllZeros(ds: seq<int>)
    requires LeadingZeros(ds) == |ds|
    ensures Value(ds, 58) == 0
  {
    assert ds == Zeros(|ds|) + [];
    ValuePadded(|ds|, [], 58);
  }

  /** The bytes hold the number spelled so far. */
  predicate Holds(bytes: seq<int>, prefix: string) {
    && Valid58(prefix) && DigitsBelow(bytes, 256) && Shortest(bytes)
    && LittleEndian(bytes, 256) == Value(DigitsIn(prefix), 58)
  }

  lemma AbsorbedOne(value: string, i: nat, bytes: seq<int>)
    requires i < |value| && Holds(bytes, value[..i]) && IndexOf(value[i]) >= 0
    ensures Holds(MulAdd(bytes, IndexOf(value[i])), value[..i + 1])
  {
    MulAddIsShortest(bytes, IndexOf(value[i]));
    assert forall k :: 0 <= k < i ==> value[..i + 1][k] == value[..i][k];
    DigitsSnoc(value, i);
  }

  /** The loop over the characters. */
  method AbsorbAll(value: string) returns (bytes: Option<seq<int>>)
    requires value != ""
    ensures bytes.Some? <==> Valid58(value)
    ensures bytes.Some? ==> Holds(bytes.value, value)
  {
    var acc := [0];
    var i := 0;
    assert LittleEndian([0][1..], 256) == 0;
    while i < |value|
      invariant 0 <= i <= |value| && Holds(acc, value[..i])
    {
      var digit := IndexOf(value[i]);
      if digit < 0 {
        return None;
      }
      AbsorbedOne(value, i, acc);
      acc := Absorb(acc, digit);
      i := i + 1;
    }
    assert value[..i] == value;
    bytes := Some(acc);
  }

  /** The zero bytes for the leading '1's, all but the last character considered. */
  method Pad(value: string, bytes: seq<int>) returns (padded: seq<int>)
    requires value != "" && Valid58(value)
    ensures padded == bytes + Zeros(Min(LeadingZeros(DigitsIn(value)), |value| - 1))
  {
    padded := bytes;
    var index := 0;
    while index < |value| - 1 && value[index] == '1'
      invariant 0 <= index <= |value| - 1
      invariant forall k :: 0 <= k < index ==> value[k] == '1'
      invariant padded == bytes + Zeros(index)
    {
      padded := padded + [0];
      index := index + 1;
    }
    PaddingCounted(value, index);
  }

  lemma PaddingCounted(value: string, index: nat)
    requires value != "" && Valid58(value) && index <= |value| - 1
    requires forall k :: 0 <= k < index ==> value[k] == '1'
    requires index < |value| - 1 ==> value[index] != '1'
    ensures index == Min(LeadingZeros(DigitsIn(value)), |value| - 1)
  {
    var ds := DigitsIn(value);
    assert forall k :: 0 <= k < |value| ==> (ds[k] == 0 <==> value[k] == '1');
    assert forall k :: 0 <= k < index ==> ds[k] == 0;
  }

  lemma DecodeEmpty()
    ensures Decode("") == Ok([])
  {
    assert DigitsIn("") == [];
    assert Zeros(0) + [] == [];
  }

  /** decodeBase58. */
  method DecodeBase58(value: string) returns (result: Result<seq<int>, DecodeError>)
    ensures result == Decode(value)
  {
    if value == "" {
      DecodeEmpty();
      return Ok([]);
    }
    var absorbed := AbsorbAll(value);
    if absorbed.None? {
      return Err(InvalidCharacter);
    }
    var bytes := Pad(value, absorbed.value);
    Assembled(value, absorbed.value);
    result := Ok(Reverse(bytes));
  }
}
