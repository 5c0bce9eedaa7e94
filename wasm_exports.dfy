/** The two value-level exports of `src/lib.rs`: `reverse` on strings and
    `add` on `u32`. */
module WasmExports {

  const U32Modulus: int := 0x1_0000_0000

  newtype u32 = x: int | 0 <= x < U32Modulus

  /** `reverse`: the characters of `s` in the opposite order. */
  function Reverse(s: string): (r: string)
    ensures |r| == |s|
    ensures forall i :: 0 <= i < |s| ==> r[i] == s[|s| - 1 - i]
  {
    if s == [] then [] else Reverse(s[1..]) + [s[0]]
  }

  /** Reversing twice gives the string back. */
  lemma ReverseInvolution(s: string)
    ensures Reverse(Reverse(s)) == s
  {
    var r := Reverse(s);
    assert forall i :: 0 <= i < |s| ==> Reverse(r)[i] == r[|s| - 1 - i] == s[i];
  }

  /** The empty string is its own reverse. */
  lemma ReverseEmpty()
    ensures Reverse("") == ""
  {
  }

  /** `add`: `x + y` in `u32`, which wraps around in a release build: a
      sum that fits in 32 bits is ordinary addition, and one that does not
      wraps around to its excess over 2^32. */
  function Add(x: u32, y: u32): (r: u32)
    ensures x as int + y as int < U32Modulus ==> r as int == x as int + y as int
    ensures x as int + y as int >= U32Modulus ==> r as int == x as int + y as int - U32Modulus
  {
    ((x as int + y as int) % U32Modulus) as u32
  }

  /** The order of the operands does not matter. */
  lemma AddCommutes(x: u32, y: u32)
    ensures Add(x, y) == Add(y, x)
  {
  }

  /** Wrapping addition is associative, so a chain of `add` calls gives the
      same result however it is grouped. */
  lemma AddAssociates(x: u32, y: u32, z: u32)
    ensures Add(Add(x, y), z) == Add(x, Add(y, z))
  {
  }
}
