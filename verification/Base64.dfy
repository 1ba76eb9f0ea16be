/** URL-safe base64 (RFC 4648, section 5): padded printing, and the lenient streaming scanner
    that the standard library runs on cursors. */
module Base64 {
  import opened Common
  import opened Utf8

  type Sextet = v: int | 0 <= v < 64

  function Digit(v: Sextet): char
  {
    if v < 26 then (v + 65) as char
    else if v < 52 then (v + 71) as char
    else if v < 62 then (v - 4) as char
    else if v == 62 then '-' else '_'
  }

  /** The value of a digit in either alphabet: the URL-safe digits are first mapped to '+' and '/'. */
  function Value(c: char): Option<Sextet>
  {
    if 'A' <= c <= 'Z' then Some(c as int - 65)
    else if 'a' <= c <= 'z' then Some(c as int - 71)
    else if '0' <= c <= '9' then Some(c as int + 4)
    else if c == '-' || c == '+' then Some(62)
    else if c == '_' || c == '/' then Some(63)
    else None
  }

  lemma DigitValue(v: Sextet)
    ensures Value(Digit(v)) == Some(v) && Digit(v) != '=' && Digit(v) < '\U{80}'
  {
  }

  // Three bytes cut into four sextets, and joined again.

  function Cut1(x: Byte): Sextet { x / 4 }
  function Cut2(x: Byte, y: Byte): Sextet { x % 4 * 16 + y / 16 }
  function Cut3(y: Byte, z: Byte): Sextet { y % 16 * 4 + z / 64 }
  function Cut4(z: Byte): Sextet { z % 64 }

  function Join1(a: Sextet, b: Sextet): Byte { a * 4 + b / 16 }
  function Join2(b: Sextet, c: Sextet): Byte { b % 16 * 16 + c / 4 }
  function Join3(c: Sextet, d: Sextet): Byte { c % 4 * 64 + d }

  lemma JoinCut(x: Byte, y: Byte, z: Byte)
    ensures Join1(Cut1(x), Cut2(x, y)) == x
    ensures Join2(Cut2(x, y), Cut3(y, z)) == y
    ensures Join3(Cut3(y, z), Cut4(z)) == z
  {
    assert (x % 4 * 16 + y / 16) / 16 == x % 4;
    assert (y % 16 * 4 + z / 64) / 4 == y % 16;
  }

  function Encode(bs: seq<Byte>): string
  {
    if |bs| == 0 then ""
    else if |bs| == 1 then [Digit(Cut1(bs[0])), Digit(Cut2(bs[0], 0)), '=', '=']
    else if |bs| == 2 then [Digit(Cut1(bs[0])), Digit(Cut2(bs[0], bs[1])), Digit(Cut3(bs[1], 0)), '=']
    else
      [Digit(Cut1(bs[0])), Digit(Cut2(bs[0], bs[1])), Digit(Cut3(bs[1], bs[2])), Digit(Cut4(bs[2]))] + Encode(bs[3..])
  }

  /** The scanner: characters outside the alphabet are skipped, a complete padding ends the input,
      and ending inside a group is an error. `quad` counts digits of the open group, `last` is its
      latest digit, whose low bits are still to be used, `pads` the padding seen since then. */
  function Scan(s: string, quad: nat, last: Sextet, pads: nat): Option<seq<Byte>>
    requires quad < 4
  {
    if s == "" then (if quad == 0 then Some([]) else None)
    else if s[0] == '=' then
      if quad >= 2 && quad + pads + 1 >= 4 then Some([])
      else Scan(s[1..], quad, last, if quad >= 2 then pads + 1 else pads)
    else
      match Value(s[0])
      case None => Scan(s[1..], quad, last, pads)
      case Some(v) =>
        if quad == 0 then Scan(s[1..], 1, v, 0)
        else if quad == 1 then Emit(Join1(last, v), Scan(s[1..], 2, v, 0))
        else if quad == 2 then Emit(Join2(last, v), Scan(s[1..], 3, v, 0))
        else Emit(Join3(last, v), Scan(s[1..], 0, v, 0))
  }

  function Emit(b: Byte, rest: Option<seq<Byte>>): Option<seq<Byte>>
  {
    if rest.None? then None else Some([b] + rest.value)
  }

  function Decode(s: string): Option<seq<Byte>>
  {
    Scan(s, 0, 0, 0)
  }

  lemma ScanDigit(v: Sextet, rest: string, quad: nat, last: Sextet, pads: nat)
    requires quad < 4
    ensures Scan([Digit(v)] + rest, quad, last, pads) ==
            if quad == 0 then Scan(rest, 1, v, 0)
            else if quad == 1 then Emit(Join1(last, v), Scan(rest, 2, v, 0))
            else if quad == 2 then Emit(Join2(last, v), Scan(rest, 3, v, 0))
            else Emit(Join3(last, v), Scan(rest, 0, v, 0))
  {
    DigitValue(v);
    assert ([Digit(v)] + rest)[1..] == rest;
  }

  lemma ScanGroup(a: Sextet, b: Sextet, c: Sextet, d: Sextet, rest: string, last: Sextet)
    ensures Scan([Digit(a), Digit(b), Digit(c), Digit(d)] + rest, 0, last, 0) ==
            Emit(Join1(a, b), Emit(Join2(b, c), Emit(Join3(c, d), Scan(rest, 0, d, 0))))
  {
    var r3 := [Digit(d)] + rest;
    var r2 := [Digit(c)] + r3;
    var r1 := [Digit(b)] + r2;
    assert [Digit(a), Digit(b), Digit(c), Digit(d)] + rest == [Digit(a)] + r1;
    ScanDigit(a, r1, 0, last, 0);
    ScanDigit(b, r2, 1, a, 0);
    ScanDigit(c, r3, 2, b, 0);
    ScanDigit(d, rest, 3, c, 0);
  }

  lemma ScanPairTail(a: Sextet, b: Sextet, last: Sextet)
    ensures Scan([Digit(a), Digit(b), '=', '='], 0, last, 0) == Emit(Join1(a, b), Some([]))
  {
    var r1 := [Digit(b)] + ['=', '='];
    assert [Digit(a), Digit(b), '=', '='] == [Digit(a)] + r1;
    ScanDigit(a, r1, 0, last, 0);
    ScanDigit(b, ['=', '='], 1, a, 0);
    assert ['=', '='][1..] == ['='];
    assert Scan(['='], 2, b, 1) == Some([]);
  }

  lemma ScanTripleTail(a: Sextet, b: Sextet, c: Sextet, last: Sextet)
    ensures Scan([Digit(a), Digit(b), Digit(c), '='], 0, last, 0) == Emit(Join1(a, b), Emit(Join2(b, c), Some([])))
  {
    var r2 := [Digit(c)] + ['='];
    var r1 := [Digit(b)] + r2;
    assert [Digit(a), Digit(b), Digit(c), '='] == [Digit(a)] + r1;
    ScanDigit(a, r1, 0, last, 0);
    ScanDigit(b, r2, 1, a, 0);
    ScanDigit(c, ['='], 2, b, 0);
  }

  lemma ScanOne(x: Byte, last: Sextet)
    ensures Scan(Encode([x]), 0, last, 0) == Some([x])
  {
    var a, b := Cut1(x), Cut2(x, 0);
    assert Join1(a, b) == x by { JoinCut(x, 0, 0); }
    assert Encode([x]) == [Digit(a), Digit(b), '=', '='];
    ScanPairTail(a, b, last);
    assert [x] + [] == [x];
  }

  lemma ScanTwo(x: Byte, y: Byte, last: Sextet)
    ensures Scan(Encode([x, y]), 0, last, 0) == Some([x, y])
  {
    JoinCut(x, y, 0);
    ScanTripleTail(Cut1(x), Cut2(x, y), Cut3(y, 0), last);
    assert [x, y] == [x] + ([y] + []);
  }

  lemma ScanThree(x: Byte, y: Byte, z: Byte, rest: seq<Byte>, last: Sextet)
    requires Scan(Encode(rest), 0, Cut4(z), 0) == Some(rest)
    ensures Scan(Encode([x, y, z] + rest), 0, last, 0) == Some([x, y, z] + rest)
  {
    JoinCut(x, y, z);
    ScanGroup(Cut1(x), Cut2(x, y), Cut3(y, z), Cut4(z), Encode(rest), last);
    assert ([x, y, z] + rest)[3..] == rest;
    assert [x, y, z] + rest == [x] + ([y] + ([z] + rest));
  }

  lemma {:induction false} ScanEncoded(bs: seq<Byte>, last: Sextet)
    ensures Scan(Encode(bs), 0, last, 0) == Some(bs)
    decreases |bs|
  {
    if |bs| == 0 {
      assert Encode(bs) == "";
    } else if |bs| == 1 {
      assert bs == [bs[0]];
      ScanOne(bs[0], last);
    } else if |bs| == 2 {
      assert bs == [bs[0], bs[1]];
      ScanTwo(bs[0], bs[1], last);
    } else {
      ScanEncoded(bs[3..], Cut4(bs[2]));
      assert bs == [bs[0], bs[1], bs[2]] + bs[3..];
      ScanThree(bs[0], bs[1], bs[2], bs[3..], last);
    }
  }

  /** Decoding what was encoded gives back the same bytes. */
  lemma RoundTrip(bs: seq<Byte>)
    ensures Decode(Encode(bs)) == Some(bs)
  {
    ScanEncoded(bs, 0);
  }

  // ---------------------------------------------------------------------------------------
  // Padding dropped and restored
  // ---------------------------------------------------------------------------------------

  /** str.rstrip("="). */
  function StripPads(s: string): string
  {
    if s != "" && s[|s| - 1] == '=' then StripPads(s[..|s| - 1]) else s
  }

  function Pads(n: nat): string
  {
    if n == 0 then "" else Pads(n - 1) + "="
  }

  /** The padding a decoder restores: as many as take the length to a multiple of four. */
  function Restored(s: string): string
  {
    s + Pads(-|s| % 4)
  }

  lemma {:induction false} StripOverPrefix(prefix: string, s: string)
    requires s != "" && StripPads(s) != ""
    ensures StripPads(prefix + s) == prefix + StripPads(s)
    decreases |s|
  {
    var m := |s| - 1;
    if s[m] == '=' {
      assert (prefix + s)[..|prefix + s| - 1] == prefix + s[..m];
      StripOverPrefix(prefix, s[..m]);
    }
  }

  lemma StripPairTail(a: Sextet, b: Sextet)
    ensures var e := [Digit(a), Digit(b), '=', '='];
            StripPads(e) == e[..2] && Restored(e[..2]) == e
  {
    var e := [Digit(a), Digit(b), '=', '='];
    DigitValue(b);
    assert e[..3][..2] == e[..2];
    assert StripPads(e[..2]) == e[..2];
    assert StripPads(e[..3]) == e[..2];
    assert Pads(1) == "=";
    assert Pads(2) == "==";
  }

  lemma StripTripleTail(a: Sextet, b: Sextet, c: Sextet)
    ensures var e := [Digit(a), Digit(b), Digit(c), '='];
            StripPads(e) == e[..3] && Restored(e[..3]) == e
  {
    var e := [Digit(a), Digit(b), Digit(c), '='];
    DigitValue(c);
    assert StripPads(e[..3]) == e[..3];
    assert Pads(1) == "=";
  }

  lemma StripFullTail(a: Sextet, b: Sextet, c: Sextet, d: Sextet)
    ensures var e := [Digit(a), Digit(b), Digit(c), Digit(d)];
            StripPads(e) == e && Restored(e) == e
  {
    DigitValue(d);
  }

  lemma RestoredOverGroup(group: string, s: string)
    requires |group| == 4
    ensures Restored(group + s) == group + Restored(s)
  {
    assert -|group + s| % 4 == -|s| % 4;
  }

  /** For every byte length the padding rule restores exactly what was stripped. */
  lemma {:induction false} PaddingRestored(bs: seq<Byte>)
    ensures Restored(StripPads(Encode(bs))) == Encode(bs)
    ensures bs != [] ==> StripPads(Encode(bs)) != ""
  {
    if |bs| == 0 {
      assert Pads(0) == "";
    } else if |bs| == 1 {
      StripPairTail(Cut1(bs[0]), Cut2(bs[0], 0));
    } else if |bs| == 2 {
      StripTripleTail(Cut1(bs[0]), Cut2(bs[0], bs[1]), Cut3(bs[1], 0));
    } else {
      var a, b, c, d := Cut1(bs[0]), Cut2(bs[0], bs[1]), Cut3(bs[1], bs[2]), Cut4(bs[2]);
      var group := [Digit(a), Digit(b), Digit(c), Digit(d)];
      var rest := Encode(bs[3..]);
      assert Encode(bs) == group + rest;
      PaddingRestored(bs[3..]);
      if |bs| == 3 {
        assert group + rest == group;
        StripFullTail(a, b, c, d);
      } else {
        StripOverPrefix(group, rest);
        RestoredOverGroup(group, StripPads(rest));
      }
    }
  }
}
