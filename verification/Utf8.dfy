/** UTF-8 text encoding (RFC 3629, section 3), strict in both directions. */
module Utf8 {
  import opened Common

  type Byte = b: int | 0 <= b < 256

  function EncodeChar(c: char): seq<Byte>
  {
    var n := c as int;
    if n < 0x80 then [n]
    else if n < 0x800 then [0xC0 + n / 0x40, 0x80 + n % 0x40]
    else if n < 0x10000 then [0xE0 + n / 0x1000, 0x80 + n / 0x40 % 0x40, 0x80 + n % 0x40]
    else [0xF0 + n / 0x40000, 0x80 + n / 0x1000 % 0x40, 0x80 + n / 0x40 % 0x40, 0x80 + n % 0x40]
  }

  function Encode(s: string): seq<Byte>
  {
    if s == "" then [] else EncodeChar(s[0]) + Encode(s[1..])
  }

  predicate Tail(b: Byte) { 0x80 <= b < 0xC0 }

  /** Bytes the leading byte announces; 0 for a byte that cannot lead. */
  function Width(b: Byte): nat
  {
    if b < 0x80 then 1 else if b < 0xC0 then 0 else if b < 0xE0 then 2 else if b < 0xF0 then 3 else if b < 0xF8 then 4
      else 0
  }

  predicate Scalar(n: int)
  {
    0 <= n < 0xD800 || 0xE000 <= n < 0x110000
  }

  function Join2(b: Byte, c: Byte): int { (b as int - 0xC0) * 0x40 + (c as int - 0x80) }

  function Join3(b: Byte, c: Byte,
                 d: Byte): int { (b as int - 0xE0) * 0x1000 + (c as int - 0x80) * 0x40 + (d as int - 0x80) }

  function Join4(b: Byte, c: Byte, d: Byte, e: Byte): int
  {
    (b as int - 0xF0) * 0x40000 + (c as int - 0x80) * 0x1000 + (d as int - 0x80) * 0x40 + (e as int - 0x80)
  }

  /** The first character of `bs`; None for a stray, truncated, overlong or surrogate sequence. */
  function DecodeChar(bs: seq<Byte>): Option<char>
    requires bs != []
  {
    var w := Width(bs[0]);
    if w == 0 || |bs| < w then None
    else if w == 1 then Some(bs[0] as char)
    else if w == 2 then
      if Tail(bs[1]) then Checked(Join2(bs[0], bs[1]), 0x80) else None
    else if w == 3 then
      if Tail(bs[1]) && Tail(bs[2]) then Checked(Join3(bs[0], bs[1], bs[2]), 0x800) else None
    else
      if Tail(bs[1]) && Tail(bs[2]) && Tail(bs[3]) then Checked(Join4(bs[0], bs[1], bs[2], bs[3]), 0x10000) else None
  }

  function Checked(n: int, least: int): Option<char>
  {
    if n >= least && Scalar(n) then Some(n as char) else None
  }

  function Decode(bs: seq<Byte>): Option<string>
  {
    if bs == [] then Some("")
    else
      var c := DecodeChar(bs);
      if c.None? then None
      else
        var rest := Decode(bs[Width(bs[0])..]);
        if rest.None? then None else Some([c.value] + rest.value)
  }

  lemma SplitDigits(n: nat)
    ensures n == n / 0x40 * 0x40 + n % 0x40
    ensures n / 0x40 == n / 0x1000 * 0x40 + n / 0x40 % 0x40
    ensures n / 0x1000 == n / 0x40000 * 0x40 + n / 0x1000 % 0x40
  {
    assert n / 0x40 / 0x40 == n / 0x1000;
    assert n / 0x1000 / 0x40 == n / 0x40000;
  }

  lemma CharRoundTrip(c: char, rest: seq<Byte>)
    ensures var e := EncodeChar(c);
            e != [] && Width(e[0]) == |e| && DecodeChar(e + rest) == Some(c)
  {
    var n := c as int;
    SplitDigits(n);
    var e := EncodeChar(c);
    var bs := e + rest;
    assert forall i :: 0 <= i < |e| ==> bs[i] == e[i];
    if n < 0x80 {
    } else if n < 0x800 {
      assert Join2(bs[0], bs[1]) == n;
    } else if n < 0x10000 {
      assert Join3(bs[0], bs[1], bs[2]) == n;
    } else {
      assert n / 0x40000 <= 4;
      assert Join4(bs[0], bs[1], bs[2], bs[3]) == n;
    }
  }

  lemma {:induction false} RoundTrip(s: string)
    ensures Decode(Encode(s)) == Some(s)
  {
    if s != "" {
      var e, rest := EncodeChar(s[0]), Encode(s[1..]);
      CharRoundTrip(s[0], rest);
      RoundTrip(s[1..]);
      assert (e + rest)[|e|..] == rest;
      assert s == [s[0]] + s[1..];
    }
  }
}
