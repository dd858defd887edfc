/** Small functions on numbers that several components use. */
module Numbers {
  function Max(a: nat, b: nat): nat {
    if a >= b then a else b
  }

  /** A digit of the native components, which write hexadecimal in capitals. */
  function UpperHexDigit(n: int): char
    requires 0 <= n < 16
  {
    "0123456789ABCDEF"[n]
  }

  /** A digit of the agent's JSON texts. */
  function LowerHexDigit(n: int): char
    requires 0 <= n < 16
  {
    "0123456789abcdef"[n]
  }
}
