/** Characters as their UTF-16 units. */
module Utf16 {

  type Unit = x: int | 0 <= x < 0x10000

  function Units(c: char): (units: seq<Unit>) {
    var n := c as int;
    if n < 0x10000 then [n] else [0xD800 + (n - 0x10000) / 0x400, 0xDC00 + (n - 0x10000) % 0x400]
  }

  function Encode(text: string): seq<Unit> {
    if text == [] then [] else Units(text[0]) + Encode(text[1..])
  }
}
