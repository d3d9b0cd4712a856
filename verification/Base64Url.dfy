/** `_b64` and `_b64d`: base64url without padding (RFC 4648, section 5), decoded the way Python's
    lenient decoder reads it. */
module Base64Url {
  import opened Options

  type Byte = b: int | 0 <= b < 256
  type Sextet = v: int | 0 <= v < 64

  function CharOf(v: Sextet): (c: char)
    ensures Plain(c) && c != '='
  {
    if v < 26 then ('A' as int + v) as char
    else if v < 52 then ('a' as int + v - 26) as char
    else if v < 62 then ('0' as int + v - 52) as char
    else if v == 62 then '-' else '_'
  }

  /** ASCII, and not the separator of the stored format. */
  predicate Plain(c: char) { c as int < 128 && c != '$' }

  /** The decoder's table, after `-` and `_` are mapped to `+` and `/`; a character in neither
      alphabet is skipped. */
  function ValueOf(c: char): Option<Sextet> {
    if 'A' <= c <= 'Z' then Some(c as int - 'A' as int)
    else if 'a' <= c <= 'z' then Some(c as int - 'a' as int + 26)
    else if '0' <= c <= '9' then Some(c as int - '0' as int + 52)
    else if c == '-' || c == '+' then Some(62)
    else if c == '_' || c == '/' then Some(63)
    else None
  }

  lemma ValueOfCharOf(v: Sextet)
    ensures ValueOf(CharOf(v)) == Some(v)
  {
  }

  // ------------------------------------------------------------------
  // Encoding
  // ------------------------------------------------------------------

  /** Whole groups of three bytes first, then the last one or two, with the padding stripped. */
  function Encode(bytes: seq<Byte>): string {
    if |bytes| == 0 then ""
    else if |bytes| == 1 then
      [CharOf(bytes[0] / 4), CharOf(bytes[0] % 4 * 16)]
    else if |bytes| == 2 then
      [CharOf(bytes[0] / 4), CharOf(bytes[0] % 4 * 16 + bytes[1] / 16), CharOf(bytes[1] % 16 * 4)]
    else Group(bytes[0], bytes[1], bytes[2]) + Encode(bytes[3..])
  }

  function Group(x: Byte, y: Byte, z: Byte): (chars: string)
    ensures |chars| == 4
  {
    [CharOf(x / 4), CharOf(x % 4 * 16 + y / 16), CharOf(y % 16 * 4 + z / 64), CharOf(z % 64)]
  }

  // ------------------------------------------------------------------
  // Decoding
  // ------------------------------------------------------------------

  /** The decoder between characters: how many of a group of four it has read, the bits it holds
      over, the padding read in a row, the bytes written, and whether it has stopped early. */
  datatype Decoder = Decoder(quad: nat, left: int, pads: nat, out: seq<Byte>, done: bool)

  predicate Consistent(d: Decoder) {
    && d.quad < 4
    && 0 <= d.left < (if d.quad == 0 then 1 else if d.quad == 1 then 64 else if d.quad == 2 then 16 else 4)
  }

  function Read(d: Decoder, c: char): (d': Decoder)
    requires Consistent(d)
    ensures Consistent(d')
  {
    if d.done then d
    else if c == '=' then
      if d.quad < 2 then d
      else if d.quad + d.pads + 1 >= 4 then d.(done := true)
      else d.(pads := d.pads + 1)
    else
      match ValueOf(c)
      case None => d
      case Some(v) =>
        if d.quad == 0 then Decoder(1, v, 0, d.out, false)
        else if d.quad == 1 then Decoder(2, v % 16, 0, d.out + [d.left * 4 + v / 16], false)
        else if d.quad == 2 then Decoder(3, v % 4, 0, d.out + [d.left * 16 + v / 4], false)
        else Decoder(0, 0, 0, d.out + [d.left * 64 + v], false)
  }

  function ReadAll(d: Decoder, s: string): (d': Decoder)
    requires Consistent(d)
    ensures Consistent(d')
    decreases |s|
  {
    if s == "" then d else ReadAll(Read(d, s[0]), s[1..])
  }

  function Padded(s: string): string {
    s + seq((4 - |s| % 4) % 4, _ => '=')
  }

  predicate Ascii(s: string) {
    forall i :: 0 <= i < |s| ==> s[i] as int < 128
  }

  /** None where the source raises: a character outside ASCII, or a group left incomplete. */
  function Decode(s: string): Option<seq<Byte>> {
    if !Ascii(s) then None
    else
      var d := ReadAll(Decoder(0, 0, 0, [], false), Padded(s));
      if d.done || d.quad == 0 then Some(d.out) else None
  }

  const FOO: seq<Byte> := [0x66, 0x6f, 0x6f]
  const BAR: seq<Byte> := [0x62, 0x61, 0x72]

  /** Test vectors of section 10 of RFC 4648, with the padding off, and one that needs both characters
      in which the URL-safe alphabet differs. */
  lemma EncodingVectors()
    ensures Encode([]) == "" && Encode([0x66]) == "Zg" && Encode([0x66, 0x6f]) == "Zm8"
    ensures Encode(FOO) == "Zm9v" && Encode(FOO + BAR) == "Zm9vYmFy"
    ensures Encode([0xfb, 0xff]) == "-_8"
  {
    assert Encode(FOO) == Group(0x66, 0x6f, 0x6f) + Encode(FOO[3..]);
    assert (FOO + BAR)[3..] == BAR && FOO[3..] == [] && BAR[3..] == [];
    assert Encode(BAR) == Group(0x62, 0x61, 0x72) + Encode(BAR[3..]) == "YmFy";
    assert Encode(FOO + BAR) == Group(0x66, 0x6f, 0x6f) + Encode(BAR);
  }

  function Quad(v: Sextet): string
    requires v <= 60
  {
    [CharOf(v), CharOf(v + 1), CharOf(v + 2), CharOf(v + 3)]
  }

  /** The alphabet, written out four at a time: section 5 of RFC 4648. */
  lemma Alphabet()
    ensures Quad(0) == "ABCD" && Quad(4) == "EFGH" && Quad(8) == "IJKL" && Quad(12) == "MNOP"
    ensures Quad(16) == "QRST" && Quad(20) == "UVWX" && Quad(24) == "YZab" && Quad(28) == "cdef"
    ensures Quad(32) == "ghij" && Quad(36) == "klmn" && Quad(40) == "opqr" && Quad(44) == "stuv"
    ensures Quad(48) == "wxyz" && Quad(52) == "0123" && Quad(56) == "4567" && Quad(60) == "89-_"
  {
  }

  /** The other alphabet's two characters read as these do; a character of neither is skipped. */
  lemma LenientCharacters(d: Decoder, c: char)
    requires Consistent(d)
    ensures Read(d, '+') == Read(d, '-') && Read(d, '/') == Read(d, '_')
    ensures c !in "=+/" && (forall v: Sextet :: CharOf(v) != c) ==> Read(d, c) == d
  {
    match ValueOf(c)
    case None =>
    case Some(v) => assert c !in "+/" ==> CharOf(v) == c;
  }

  // ------------------------------------------------------------------
  // Round trip
  // ------------------------------------------------------------------

  lemma {:induction false} ReadAllAppend(d: Decoder, a: string, b: string)
    requires Consistent(d)
    ensures ReadAll(d, a + b) == ReadAll(ReadAll(d, a), b)
    decreases |a|
  {
    if a == "" {
      assert a + b == b;
    } else {
      ReadAllAppend(Read(d, a[0]), a[1..], b);
      assert (a + b)[1..] == a[1..] + b;
    }
  }

  /** A group's four sextets hold its three bytes. */
  lemma GroupBits(x: Byte, y: Byte, z: Byte)
    ensures var b, c := x % 4 * 16 + y / 16, y % 16 * 4 + z / 64;
      && x / 4 * 4 + b / 16 == x && b % 16 * 16 + c / 4 == y && c % 4 * 64 + z % 64 == z
  {}

  lemma ReadSextet(d: Decoder, v: Sextet)
    requires Consistent(d) && !d.done && d.pads == 0
    ensures Read(d, CharOf(v)) ==
      if d.quad == 0 then Decoder(1, v, 0, d.out, false)
      else if d.quad == 1 then Decoder(2, v % 16, 0, d.out + [d.left * 4 + v / 16], false)
      else if d.quad == 2 then Decoder(3, v % 4, 0, d.out + [d.left * 16 + v / 4], false)
      else Decoder(0, 0, 0, d.out + [d.left * 64 + v], false)
  {
    hide ValueOf, CharOf;
    ValueOfCharOf(v);
  }

  lemma ReadGroup(out: seq<Byte>, x: Byte, y: Byte, z: Byte)
    ensures ReadAll(Decoder(0, 0, 0, out, false), Group(x, y, z)) == Decoder(0, 0, 0, out + [x, y, z], false)
  {
    hide Read, CharOf, ReadAll;
    var b, c := x % 4 * 16 + y / 16, y % 16 * 4 + z / 64;
    GroupBits(x, y, z);
    var d0 := Decoder(0, 0, 0, out, false);
    ReadSextet(d0, x / 4);
    ReadSextet(Decoder(1, x / 4, 0, out, false), b);
    ReadSextet(Decoder(2, b % 16, 0, out + [x], false), c);
    ReadSextet(Decoder(3, c % 4, 0, out + [x] + [y], false), z % 64);
    ReadFour(d0, CharOf(x / 4), CharOf(b), CharOf(c), CharOf(z % 64));
    assert out + [x] + [y] + [z] == out + [x, y, z];
  }

  lemma ReadOne(d: Decoder, c: char, rest: string)
    requires Consistent(d)
    ensures ReadAll(d, [c] + rest) == ReadAll(Read(d, c), rest)
  {
    hide Read;
    assert ([c] + rest)[1..] == rest;
  }

  lemma ReadFour(d: Decoder, a: char, b: char, c: char, e: char)
    requires Consistent(d)
    ensures ReadAll(d, [a, b, c, e]) == Read(Read(Read(Read(d, a), b), c), e)
  {
    hide Read, ReadAll;
    var d2 := Read(Read(d, a), b);
    ReadTwo(d, a, b, [c, e]);
    ReadTwo(d2, c, e, []);
    ReadNothing(Read(Read(d2, c), e));
    assert [a, b] + [c, e] == [a, b, c, e];
    assert [c, e] + [] == [c, e];
  }

  lemma ReadTwo(d: Decoder, a: char, b: char, rest: string)
    requires Consistent(d)
    ensures ReadAll(d, [a, b] + rest) == ReadAll(Read(Read(d, a), b), rest)
  {
    hide Read, ReadAll;
    ReadOne(d, a, [b] + rest);
    ReadOne(Read(d, a), b, rest);
    assert [a] + ([b] + rest) == [a, b] + rest;
  }

  /** The last one or two bytes: a group cut short, closed by the padding put back. */
  lemma ReadTail(out: seq<Byte>, tail: seq<Byte>)
    requires 1 <= |tail| <= 2
    ensures |Encode(tail)| == |tail| + 1
    ensures var d := ReadAll(Decoder(0, 0, 0, out, false), Encode(tail) + if |tail| == 1 then "==" else "=");
      d.done && d.out == out + tail
  {
    hide CharOf, ReadAll, Read;
    if |tail| == 1 {
      var a, b := CharOf(tail[0] / 4), CharOf(tail[0] % 4 * 16);
      ReadLastOne(out, tail[0]);
      assert Encode(tail) + "==" == [a, b, '=', '='];
      assert out + tail == out + [tail[0]];
    } else {
      var a, b, c := CharOf(tail[0] / 4), CharOf(tail[0] % 4 * 16 + tail[1] / 16), CharOf(tail[1] % 16 * 4);
      ReadLastTwo(out, tail[0], tail[1]);
      assert Encode(tail) + "=" == [a, b, c, '='];
      assert out + tail == out + [tail[0]] + [tail[1]];
    }
  }

  lemma ReadLastOne(out: seq<Byte>, x: Byte)
    ensures var d := ReadAll(Decoder(0, 0, 0, out, false), [CharOf(x / 4), CharOf(x % 4 * 16), '=', '=']);
      d.done && d.out == out + [x]
  {
    hide ValueOf, CharOf, ReadAll;
    ValueOfCharOf(x / 4);
    ValueOfCharOf(x % 4 * 16);
    ReadFour(Decoder(0, 0, 0, out, false), CharOf(x / 4), CharOf(x % 4 * 16), '=', '=');
  }

  lemma ReadLastTwo(out: seq<Byte>, x: Byte, y: Byte)
    ensures var d := ReadAll(
        Decoder(0, 0, 0, out, false), [CharOf(x / 4), CharOf(x % 4 * 16 + y / 16), CharOf(y % 16 * 4), '=']);
      d.done && d.out == out + [x] + [y]
  {
    hide ValueOf, CharOf, ReadAll;
    ValueOfCharOf(x / 4);
    ValueOfCharOf(x % 4 * 16 + y / 16);
    ValueOfCharOf(y % 16 * 4);
    ReadFour(Decoder(0, 0, 0, out, false), CharOf(x / 4), CharOf(x % 4 * 16 + y / 16), CharOf(y % 16 * 4), '=');
  }

  /** The padding that many bytes over whole groups call for. */
  function PadFor(over: nat): string {
    if over == 0 then "" else if over == 1 then "==" else "="
  }

  lemma {:induction false} EncodedLength(bytes: seq<Byte>)
    ensures |Encode(bytes)| == |bytes| / 3 * 4 + if |bytes| % 3 == 0 then 0 else |bytes| % 3 + 1
    decreases |bytes|
  {
    hide CharOf;
    if |bytes| >= 3 {
      EncodedLength(bytes[3..]);
    }
  }

  lemma EncodedPadding(bytes: seq<Byte>)
    ensures Padded(Encode(bytes)) == Encode(bytes) + PadFor(|bytes| % 3)
  {
    hide Encode, Padded, PadFor;
    EncodedLength(bytes);
    PaddingByLength(Encode(bytes), |bytes| / 3, |bytes| % 3);
  }

  lemma PaddingByLength(s: string, groups: nat, over: nat)
    requires over < 3 && |s| == groups * 4 + if over == 0 then 0 else over + 1
    ensures Padded(s) == s + PadFor(over)
  {
    assert (4 - |s| % 4) % 4 == if over == 0 then 0 else 3 - over;
  }

  lemma {:induction false} EncodedPlain(bytes: seq<Byte>)
    ensures forall i :: 0 <= i < |Encode(bytes)| ==> Plain(Encode(bytes)[i])
    decreases |bytes|
  {
    hide CharOf;
    if |bytes| >= 3 {
      EncodedPlain(bytes[3..]);
    }
  }

  lemma {:induction false} ReadEncoded(out: seq<Byte>, bytes: seq<Byte>)
    ensures var d := ReadAll(Decoder(0, 0, 0, out, false), Encode(bytes) + PadFor(|bytes| % 3));
      (d.done || d.quad == 0) && d.out == out + bytes
    decreases |bytes|
  {
    hide Read, ReadAll, Group;
    var d0 := Decoder(0, 0, 0, out, false);
    if |bytes| == 0 {
      ReadNothing(d0);
      assert Encode(bytes) + PadFor(0) == "" && out + bytes == out;
    } else if |bytes| < 3 {
      ReadTail(out, bytes);
    } else {
      var x, y, z, rest := bytes[0], bytes[1], bytes[2], bytes[3..];
      ReadGroup(out, x, y, z);
      ReadEncoded(out + [x, y, z], rest);
      var pad := PadFor(|bytes| % 3);
      assert |rest| % 3 == |bytes| % 3;
      ReadAllAppend(d0, Group(x, y, z), Encode(rest) + pad);
      assert Encode(bytes) + pad == Group(x, y, z) + (Encode(rest) + pad);
      assert out + bytes == out + [x, y, z] + rest;
    }
  }

  lemma ReadNothing(d: Decoder)
    requires Consistent(d)
    ensures ReadAll(d, "") == d
  {
  }

  /** Every byte string is decoded from its encoding. */
  lemma DecodeEncode(bytes: seq<Byte>)
    ensures Decode(Encode(bytes)) == Some(bytes)
  {
    hide Read, ReadAll, Encode, Padded;
    EncodedPlain(bytes);
    assert Ascii(Encode(bytes));
    EncodedPadding(bytes);
    ReadEncoded([], bytes);
    assert [] + bytes == bytes;
  }
}
