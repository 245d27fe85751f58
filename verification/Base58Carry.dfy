/** Multiplying a number in little-endian bytes by 58 and adding a digit. */
module Base58Carry {
  import opened Basics
  import opened Numerals

  /** Little-endian bytes of 58 times a number plus a carry below 58: at most one byte more. */
  function MulAdd(bytes: seq<int>, carry: int): (r: seq<int>)
    requires DigitsBelow(bytes, 256) && 0 <= carry < 58
    ensures DigitsBelow(r, 256) && |bytes| <= |r| <= |bytes| + 1
    ensures LittleEndian(r, 256) == 58 * LittleEndian(bytes, 256) + carry
  {
    if bytes == [] then (if carry > 0 then [carry] else [])
    else
      var x := carry + bytes[0] * 58;
      var rest := MulAdd(bytes[1..], x / 256);
      assert ([x % 256] + rest)[1..] == rest;
      [x % 256] + rest
  }

  /** The top byte of a nonzero number is nonzero; zero is the single byte 0. */
  predicate Shortest(bytes: seq<int>) {
    |bytes| > 0 && (|bytes| > 1 ==> bytes[|bytes| - 1] != 0)
  }

  lemma {:induction false} MulAddIsShortest(bytes: seq<int>, carry: int)
    requires DigitsBelow(bytes, 256) && 0 <= carry < 58 && Shortest(bytes)
    ensures Shortest(MulAdd(bytes, carry))
  {
    if |bytes| <= 1 {
    } else {
      var x := carry + bytes[0] * 58;
      MulAddIsShortest(bytes[1..], x / 256);
      TopNonZero(bytes[1..], x / 256);
    }
  }

  lemma {:induction false} TopNonZero(bytes: seq<int>, carry: int)
    requires DigitsBelow(bytes, 256) && 0 <= carry < 58
    requires |bytes| > 0 && bytes[|bytes| - 1] != 0
    ensures |MulAdd(bytes, carry)| > 0 && MulAdd(bytes, carry)[|MulAdd(bytes, carry)| - 1] != 0
  {
    var x := carry + bytes[0] * 58;
    if |bytes| <= 1 {
    } else {
      TopNonZero(bytes[1..], x / 256);
    }
  }

  lemma MulAddStep(done: seq<int>, rest: seq<int>, carry: int)
    requires DigitsBelow(rest, 256) && 0 <= carry < 58 && rest != []
    ensures var x := carry + rest[0] * 58;
      && 0 <= x / 256 < 58
      && done + MulAdd(rest, carry) == (done + [x % 256]) + MulAdd(rest[1..], x / 256)
  {
  }
}
