/** decodeBase58 and normalizeWalletAddress of packages/application/src/auth.ts. */
module Base58 {
  import opened Basics
  import opened Numerals
  import Text

  /** The character for a digit: BASE58_ALPHABET is six runs of consecutive characters. */
  function CharOf(d: int): char
    requires 0 <= d < 58
  {
    if d < 9 then '1' + d as char
    else if d < 17 then 'A' + (d - 9) as char
    else if d < 22 then 'J' + (d - 17) as char
    else if d < 33 then 'P' + (d - 22) as char
    else if d < 44 then 'a' + (d - 33) as char
    else 'm' + (d - 44) as char
  }

  datatype DecodeError = InvalidCharacter

  /** BASE58_ALPHABET.indexOf(c): the digit c stands for, or -1. */
  function IndexOf(c: char): (d: int)
    ensures -1 <= d < 58
    ensures d >= 0 ==> CharOf(d) == c
  {
    if '1' <= c <= '9' then (c - '1') as int
    else if 'A' <= c <= 'H' then 9 + (c - 'A') as int
    else if 'J' <= c <= 'N' then 17 + (c - 'J') as int
    else if 'P' <= c <= 'Z' then 22 + (c - 'P') as int
    else if 'a' <= c <= 'k' then 33 + (c - 'a') as int
    else if 'm' <= c <= 'z' then 44 + (c - 'm') as int
    else -1
  }

  /** No character stands for two digits. */
  lemma IndexOfChar(d: int)
    requires 0 <= d < 58
    ensures IndexOf(CharOf(d)) == d
  {
  }

  predicate Valid58(s: string) {
    forall i :: 0 <= i < |s| ==> IndexOf(s[i]) >= 0
  }

  /** The base-58 digits a valid string spells. */
  function DigitsIn(s: string): (ds: seq<int>)
    requires Valid58(s)
    ensures |ds| == |s| && DigitsBelow(ds, 58)
    ensures forall i :: 0 <= i < |s| ==> ds[i] == IndexOf(s[i])
  {
    seq(|s|, i requires 0 <= i < |s| => IndexOf(s[i]))
  }

  function Spell(ds: seq<int>): (s: string)
    requires DigitsBelow(ds, 58)
    ensures |s| == |ds| && forall i :: 0 <= i < |ds| ==> s[i] == CharOf(ds[i])
  {
    seq(|ds|, i requires 0 <= i < |ds| => CharOf(ds[i]))
  }

  /** Base58 as the standard defines it: same number, same number of leading zero digits. */
  function Decode(s: string): Result<seq<int>, DecodeError> {
    if Valid58(s) then Ok(Zeros(LeadingZeros(DigitsIn(s))) + Digits(NumberIn(s), 256))
    else Err(InvalidCharacter)
  }

  function NumberIn(s: string): nat
    requires Valid58(s)
  {
    ValueNonNegative(DigitsIn(s), 58);
    Value(DigitsIn(s), 58)
  }

  function Encode(bytes: seq<int>): string
    requires DigitsBelow(bytes, 256)
  {
    ValueNonNegative(bytes, 256);
    ZerosAreDigits(LeadingZeros(bytes), Digits(Value(bytes, 256), 58));
    Spell(Zeros(LeadingZeros(bytes)) + Digits(Value(bytes, 256), 58))
  }

  lemma ZerosAreDigits(n: nat, ds: seq<int>)
    requires DigitsBelow(ds, 58)
    ensures DigitsBelow(Zeros(n) + ds, 58)
  {
  }

  /** The six runs, in order, are BASE58_ALPHABET. */
  lemma AlphabetSpelled(d: int)
    requires 0 <= d < 58
    ensures CharOf(d) == ("123456789" + "ABCDEFGH" + "JKLMN" + "PQRSTUVWXYZ" + "abcdefghijk" + "mnopqrstuvwxyz")[d]
  {
    AlphabetRuns();
  }

  lemma AlphabetRuns()
    ensures Text.IsRun("123456789", '1') && Text.IsRun("ABCDEFGH", 'A') && Text.IsRun("JKLMN", 'J')
    ensures Text.IsRun("PQRSTUVWXYZ", 'P') && Text.IsRun("abcdefghijk", 'a') && Text.IsRun("mnopqrstuvwxyz", 'm')
  {
  }

  // ----- decoding is a bijection between valid strings and byte sequences -----

  /** The output has the string's number, and a zero byte for every leading '1'. */
  lemma DecodeIsExact(s: string)
    requires Valid58(s)
    ensures var bytes := Decode(s).value;
      && DigitsBelow(bytes, 256)
      && Value(bytes, 256) == Value(DigitsIn(s), 58)
      && LeadingZeros(bytes) == LeadingZeros(DigitsIn(s))
  {
    var n, z := NumberIn(s), LeadingZeros(DigitsIn(s));
    ValuePadded(z, Digits(n, 256), 256);
    ValueOfDigits(n, 256);
    LeadingZerosPadded(z, Digits(n, 256));
  }

  lemma DigitsOfSpell(ds: seq<int>)
    requires DigitsBelow(ds, 58)
    ensures Valid58(Spell(ds)) && DigitsIn(Spell(ds)) == ds
  {
    forall i | 0 <= i < |ds| ensures IndexOf(Spell(ds)[i]) == ds[i] {
      IndexOfChar(ds[i]);
    }
  }

  lemma SpellOfDigits(s: string)
    requires Valid58(s)
    ensures Spell(DigitsIn(s)) == s
  {
  }

  /** Every byte sequence is the decoding of its encoding. */
  lemma DecodeEncode(bytes: seq<int>)
    requires DigitsBelow(bytes, 256)
    ensures Decode(Encode(bytes)) == Ok(bytes)
  {
    ValueNonNegative(bytes, 256);
    var n, z := Value(bytes, 256), LeadingZeros(bytes);
    var ds := Zeros(z) + Digits(n, 58);
    ZerosAreDigits(z, Digits(n, 58));
    DigitsOfSpell(ds);
    LeadingZerosPadded(z, Digits(n, 58));
    ValuePadded(z, Digits(n, 58), 58);
    ValueOfDigits(n, 58);
    Normal(bytes, 256);
  }

  /** Every valid string is the encoding of its decoding. */
  lemma EncodeDecode(s: string)
    requires Valid58(s)
    ensures DigitsBelow(Decode(s).value, 256) && Encode(Decode(s).value) == s
  {
    DecodeIsExact(s);
    Normal(DigitsIn(s), 58);
    SpellOfDigits(s);
  }

  /** Distinct strings decode to distinct bytes. */
  lemma DecodeIsInjective(s: string, t: string)
    requires Valid58(s) && Valid58(t) && Decode(s) == Decode(t)
    ensures s == t
  {
    EncodeDecode(s);
    EncodeDecode(t);
  }

  // ----- wallet addresses -----

  const KEY_BYTES := 32

  /** normalizeWalletAddress on a string: the trimmed text, when it decodes to a public key. */
  function NormalizeWalletAddress(value: string): Option<string> {
    var normalized := Text.Trim(value);
    if Decode(normalized).Ok? && |Decode(normalized).value| == KEY_BYTES then Some(normalized) else None
  }

  /** What it accepts is the encoding of a 32-byte key, so two spellings of one key normalise alike. */
  lemma AcceptedAddressesAreKeys(value: string, key: seq<int>)
    requires DigitsBelow(key, 256) && |key| == KEY_BYTES
    ensures NormalizeWalletAddress(value) == Some(Encode(key)) <==> Decode(Text.Trim(value)) == Ok(key)
    ensures NormalizeWalletAddress(value).Some? ==>
      && DigitsBelow(Decode(NormalizeWalletAddress(value).value).value, 256)
      && Encode(Decode(NormalizeWalletAddress(value).value).value) == NormalizeWalletAddress(value).value
  {
    DecodeEncode(key);
    var t := Text.Trim(value);
    if Valid58(t) {
      EncodeDecode(t);
    }
  }

  /** Text is accepted exactly when, trimmed, it is the encoding of 32 bytes, and it normalises to its trimmed self. */
  lemma AddressesExactly(value: string)
    ensures NormalizeWalletAddress(value).Some?
      <==> exists key :: |key| == 32 && DigitsBelow(key, 256) && Encode(key) == Text.Trim(value)
    ensures NormalizeWalletAddress(value).Some? ==> NormalizeWalletAddress(value).value == Text.Trim(value)
  {
    var t := Text.Trim(value);
    if key :| |key| == 32 && DigitsBelow(key, 256) && Encode(key) == t {
      DecodeEncode(key);
    }
    if Valid58(t) {
      EncodeDecode(t);
    }
  }

  /** Every 32-byte key has an address, accepted with any white space around it. */
  lemma EveryKeyHasAnAddress(key: seq<int>, left: string, right: string)
    requires DigitsBelow(key, 256) && |key| == KEY_BYTES
    requires Text.AllWhitespace(left) && Text.AllWhitespace(right)
    ensures NormalizeWalletAddress(left + Encode(key) + right) == Some(Encode(key))
  {
    var s := Encode(key);
    DecodeEncode(key);
    if s != [] {
      DigitsAreVisible(s[0]);
      DigitsAreVisible(s[|s| - 1]);
    }
    Text.TrimPadded(left, s, right);
  }

  lemma DigitsAreVisible(c: char)
    requires IndexOf(c) >= 0
    ensures !Text.IsWhitespace(c)
  {
  }
}
