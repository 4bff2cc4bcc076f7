/** Arithmetic that several parts share. */
module Numbers {

  const U64_MAX := 0xFFFF_FFFF_FFFF_FFFF

  function Min(a: int, b: int): int {
    if b < a then b else a
  }

  function Max(a: int, b: int): int {
    if b > a then b else a
  }

  /** A sum of unsigned 64-bit numbers that stops at the greatest one. */
  function Saturated(n: nat): nat {
    if n > U64_MAX then U64_MAX else n
  }

  function SaturatingAdd(a: nat, b: nat): nat {
    Saturated(a + b)
  }

  /** A percentage brought into the range from 0 to 100. */
  function ClampPercent(x: real): real {
    if x < 0.0 then 0.0 else if x > 100.0 then 100.0 else x
  }
}
