/** Text as bytes: the encoding of characters of section 3 of RFC 3629. */
module Encoding {
  import opened Common

  function CharBytes(c: char): (r: seq<byte>)
    ensures 1 <= |r| <= 4
  {
    var n := c as int;
    if n < 0x80 then [n]
    else if n < 0x800 then [0xC0 + n / 64, 0x80 + n % 64]
    else if n < 0x10000 then [0xE0 + n / 64 / 64, 0x80 + n / 64 % 64, 0x80 + n % 64]
    else [0xF0 + n / 64 / 64 / 64, 0x80 + n / 64 / 64 % 64, 0x80 + n / 64 % 64, 0x80 + n % 64]
  }

  function TextBytes(s: string): seq<byte> {
    if s == [] then [] else CharBytes(s[0]) + TextBytes(s[1..])
  }
}
