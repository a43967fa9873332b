/**
 * The per-field seed of static mode: `hashedString` folds the UTF-16 code units
 * of `typeName + fieldName` into a 32-bit signed integer with the classic
 * `hash * 31 + char` polynomial, wrapping at every step.
 */
module Hashing {

  const TwoTo32: int := 0x1_0000_0000
  const TwoTo31: int := 0x8000_0000

  /** A 32-bit signed integer, the range of JavaScript's bitwise operators. */
  predicate IsInt32(x: int) {
    -TwoTo31 <= x < TwoTo31
  }

  /** ECMAScript ToInt32: the 32-bit signed integer congruent to `x` modulo 2^32. */
  function ToInt32(x: int): (r: int)
    ensures IsInt32(r)
    ensures (x - r) % TwoTo32 == 0
    ensures IsInt32(x) ==> r == x
  {
    var m := x % TwoTo32;
    if m >= TwoTo31 then m - TwoTo32 else m
  }

  /** Adding a multiple of 2^32 does not change ToInt32. */
  lemma ToInt32Periodic(x: int, k: int)
    ensures ToInt32(x + k * TwoTo32) == ToInt32(x)
  {
    assert (x + k * TwoTo32) % TwoTo32 == x % TwoTo32;
  }

  /** Two integers congruent modulo 2^32 have the same ToInt32. */
  lemma ToInt32Congruent(x: int, y: int)
    requires (x - y) % TwoTo32 == 0
    ensures ToInt32(x) == ToInt32(y)
  {
    var k := (x - y) / TwoTo32;
    assert x == y + k * TwoTo32;
    ToInt32Periodic(y, k);
  }

  /** A UTF-16 code unit, the value `charCodeAt` returns. */
  newtype CodeUnit = x: int | 0 <= x < 0x1_0000

  /** The UTF-16 encoding of one Unicode scalar value: one unit in the basic
      plane, a surrogate pair above it. */
  function Utf16Char(c: char): (units: seq<CodeUnit>)
    ensures 1 <= |units| <= 2
    ensures (c as int) < 0x1_0000 ==> units == [c as int as CodeUnit]
  {
    var v := c as int;
    if v < 0x1_0000 then [v as CodeUnit]
    else
      var w := v - 0x1_0000;
      [(0xD800 + w / 0x400) as CodeUnit, (0xDC00 + w % 0x400) as CodeUnit]
  }

  /** The UTF-16 code units of a string, the sequence `value.charCodeAt(i)` walks. */
  function Utf16(s: string): (units: seq<CodeUnit>)
    ensures |units| >= |s|
    ensures |s| == 0 <==> |units| == 0
  {
    if |s| == 0 then [] else Utf16(s[..|s| - 1]) + Utf16Char(s[|s| - 1])
  }

  /** One step of the fold: `ToInt32(31 * hash + char)`. */
  function Step(hash: int, unit: CodeUnit): int {
    ToInt32(31 * hash + unit as int)
  }

  /** The hash of a sequence of code units, folded from the left starting at 0. */
  function HashUnits(units: seq<CodeUnit>): (h: int)
    ensures IsInt32(h)
  {
    if |units| == 0 then 0 else Step(HashUnits(units[..|units| - 1]), units[|units| - 1])
  }

  /** The value `hashedString(value)` returns. */
  function Hash(value: string): (h: int)
    ensures IsInt32(h)
    ensures value == [] ==> h == 0
  {
    HashUnits(Utf16(value))
  }

  /** The loop body as written, `(hash << 5) - hash + char` followed by `hash & hash`,
      is the wrapped `31 * hash + char`. */
  lemma ShiftSubtractIsTimes31(hash: int, unit: CodeUnit)
    requires IsInt32(hash)
    ensures ToInt32(ToInt32(hash * 32) - hash + unit as int) == Step(hash, unit)
  {
    var shifted := ToInt32(hash * 32);
    var k := (hash * 32 - shifted) / TwoTo32;
    assert shifted == hash * 32 - k * TwoTo32;
    var x := shifted - hash + unit as int;
    assert x == 31 * hash + unit as int - k * TwoTo32;
    ToInt32Periodic(31 * hash + unit as int, -k);
  }

  /** `hashedString`: the early return for the empty string, then the loop over
      code units with a shift, a subtraction and a truncation to 32 bits. */
  method HashedString(value: string) returns (hash: int)
    ensures hash == Hash(value)
    ensures IsInt32(hash)
  {
    hash := 0;
    if |value| == 0 {
      return;
    }
    var units := Utf16(value);
    var i := 0;
    while i < |units|
      invariant 0 <= i <= |units|
      invariant hash == HashUnits(units[..i])
    {
      ShiftSubtractIsTimes31(hash, units[i]);
      assert units[..i + 1][..i] == units[..i];
      hash := ToInt32(ToInt32(hash * 32) - hash + units[i] as int);
      i := i + 1;
    }
    assert units[..i] == units;
  }

  /** Appending one basic-plane character to the string performs exactly one fold step. */
  lemma {:induction false} HashAppend(value: string, c: char)
    requires (c as int) < 0x1_0000
    ensures Hash(value + [c]) == Step(Hash(value), c as int as CodeUnit)
  {
    var s := value + [c];
    assert s[..|s| - 1] == value;
    var units := Utf16(s);
    assert units == Utf16(value) + [c as int as CodeUnit];
    assert units[..|units| - 1] == Utf16(value);
  }
}
