/** The two spellings of the 32-bit FNV-1a hash, on the signed 32-bit integers that the language's
    bitwise operators compute with (ToInt32 and ToUint32, sections 7.1.6 and 7.1.7 of ECMA-262). */
module Fnv {

  const TWO_32: int := 0x1_0000_0000
  const TWO_31: int := 0x8000_0000
  const OFFSET_BASIS: int := 0x811c_9dc5
  const PRIME: int := 0x0100_0193

  function ToUint32(x: int): (u: int)
    ensures 0 <= u < TWO_32
  {
    x % TWO_32
  }

  function ToInt32(x: int): (i: int)
    ensures -TWO_31 <= i < TWO_31
    ensures ToUint32(i) == ToUint32(x)
  {
    if ToUint32(x) < TWO_31 then ToUint32(x) else ToUint32(x) - TWO_32
  }

  /** Bitwise exclusive or of natural numbers. */
  function BitXor(a: nat, b: nat): nat
    decreases a + b
  {
    if a == 0 && b == 0 then 0 else 2 * BitXor(a / 2, b / 2) + (a % 2 + b % 2) % 2
  }

  /** `a ^ b`. */
  function Xor(a: int, b: int): int {
    ToInt32(BitXor(ToUint32(a), ToUint32(b)))
  }

  /** `a << k`, with the power of two spelled out. */
  function ShiftLeft(a: int, power: int): int {
    ToInt32(ToInt32(a) * power)
  }

  /** `Math.imul(a, b)`. */
  function Imul(a: int, b: int): int {
    ToInt32(ToUint32(a) * ToUint32(b))
  }

  /** The step of the recorder's hash: shifts and additions of signed values, then `>>> 0`. */
  function ShiftAdd(h: int): int {
    ToUint32(h + (ShiftLeft(h, 2) + ShiftLeft(h, 16) + ShiftLeft(h, 128) + ShiftLeft(h, 256) +
                  ShiftLeft(h, 0x100_0000)))
  }

  /** The step of the general hash: one 32-bit multiplication. */
  function Multiply(h: int): int {
    ToUint32(Imul(h, PRIME))
  }

  /** The hash after a sequence of code units, in either form. */
  function HashByShifts(units: seq<nat>): int {
    if units == [] then OFFSET_BASIS else ShiftAdd(Xor(HashByShifts(units[..|units| - 1]), units[|units| - 1]))
  }

  function HashByProducts(units: seq<nat>): int {
    if units == [] then OFFSET_BASIS else Multiply(Xor(HashByProducts(units[..|units| - 1]), units[|units| - 1]))
  }

  /** fnv1a32 of the screencast recorder. */
  method Fnv1a32(units: seq<nat>) returns (h: int)
    ensures h == HashByShifts(units)
  {
    h := OFFSET_BASIS;
    for i := 0 to |units|
      invariant h == HashByShifts(units[..i])
    {
      assert units[..i + 1][..i] == units[..i];
      h := Xor(h, units[i]);
      h := ShiftAdd(h);
    }
    assert units[..|units|] == units;
  }

  /** fnv1a of the agent tools. */
  method Fnv1a(units: seq<nat>) returns (hash: int)
    ensures hash == HashByProducts(units)
  {
    hash := OFFSET_BASIS;
    for i := 0 to |units|
      invariant hash == HashByProducts(units[..i])
    {
      assert units[..i + 1][..i] == units[..i];
      hash := Xor(hash, units[i]);
      hash := Multiply(hash);
    }
    assert units[..|units|] == units;
  }

  lemma Wraps(x: int, q: int)
    ensures ToUint32(x + TWO_32 * q) == ToUint32(x)
  {
  }

  /** A 32-bit view differs from the number by whole turns. */
  lemma Turns(x: int) returns (q: int)
    ensures ToInt32(x) == x + TWO_32 * q
  {
    q := -(x / TWO_32) - if ToUint32(x) < TWO_31 then 0 else 1;
  }

  /** Dropping the high bits and the sign never changes the low 32 bits of the sum: the shift form
      and the multiplication are the same step on every signed 32-bit value. */
  lemma StepsAgree(h: int)
    requires -TWO_31 <= h < TWO_31
    ensures ShiftAdd(h) == Multiply(h)
  {
    assert ToInt32(h) == h;
    var a := Turns(h * 2);
    var b := Turns(h * 16);
    var c := Turns(h * 128);
    var d := Turns(h * 256);
    var e := Turns(h * 0x100_0000);
    var q := a + b + c + d + e;
    assert h + (ShiftLeft(h, 2) + ShiftLeft(h, 16) + ShiftLeft(h, 128) + ShiftLeft(h, 256) + ShiftLeft(h, 0x100_0000))
        == h * PRIME + TWO_32 * q;
    Wraps(h * PRIME, q);
    var u := ToUint32(h);
    assert u == h || u == h + TWO_32;
    Wraps(h * PRIME, PRIME);
  }

  /** Both hashes agree on every sequence of code units, so on every byte sequence, and the value
      is an unsigned 32-bit number. */
  lemma {:induction false} HashesAgree(units: seq<nat>)
    ensures HashByShifts(units) == HashByProducts(units)
    ensures 0 <= HashByShifts(units) < TWO_32
  {
    if units != [] {
      HashesAgree(units[..|units| - 1]);
      StepsAgree(Xor(HashByShifts(units[..|units| - 1]), units[|units| - 1]));
    }
  }

  function BitAt(n: nat, k: nat): bool {
    if k == 0 then n % 2 == 1 else BitAt(n / 2, k - 1)
  }

  /** Every bit of the exclusive or is set exactly if the operands differ there. */
  lemma {:induction false} XorBits(a: nat, b: nat, k: nat)
    ensures BitAt(BitXor(a, b), k) <==> BitAt(a, k) != BitAt(b, k)
    decreases k
  {
    if k != 0 {
      XorBits(a / 2, b / 2, k - 1);
      assert BitXor(a, b) / 2 == BitXor(a / 2, b / 2);
    }
  }
}
