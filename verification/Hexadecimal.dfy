/** Hexadecimal digits as ASCII bytes: written in lower case, read in either. */
module Hexadecimal {
  import opened Framing
  import opened Options

  function Digit(d: nat): (c: byte)
    requires d < 16
    ensures DigitValue(c) == Some(d)
  {
    if d < 10 then 48 + d as byte else 87 + d as byte
  }

  function DigitValue(c: byte): Option<nat> {
    if 48 <= c <= 57 then Some(c as nat - 48)
    else if 97 <= c <= 102 then Some(c as nat - 87)
    else if 65 <= c <= 70 then Some(c as nat - 55)
    else None
  }
}
