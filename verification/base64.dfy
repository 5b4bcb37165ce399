/** The padded standard base64 encoding (section 4 of RFC 4648) the client applies to
    the 32-byte MAC, with a decoder as its inverse. */
module Base64 {
  import opened Types

  /** The value of one alphabet character: `A`-`Z`, `a`-`z`, `0`-`9`, `+`, `/`. */
  function CharOf(v: nat): (c: char)
    requires v < 64
    ensures IsBase64Char(c)
  {
    if v < 26 then ('A' as int + v) as char
    else if v < 52 then ('a' as int + (v - 26)) as char
    else if v < 62 then ('0' as int + (v - 52)) as char
    else if v == 62 then '+'
    else '/'
  }

  predicate IsBase64Char(c: char) {
    || 'A' <= c <= 'Z'
    || 'a' <= c <= 'z'
    || '0' <= c <= '9'
    || c == '+'
    || c == '/'
  }

  /** The inverse of `CharOf`; `None` off the alphabet (including the pad `=`). */
  function ValueOf(c: char): (r: Option<nat>)
    ensures r.Some? <==> IsBase64Char(c)
    ensures r.Some? ==> r.value < 64 && CharOf(r.value) == c
  {
    if 'A' <= c <= 'Z' then Some(c as int - 'A' as int)
    else if 'a' <= c <= 'z' then Some(c as int - 'a' as int + 26)
    else if '0' <= c <= '9' then Some(c as int - '0' as int + 52)
    else if c == '+' then Some(62)
    else if c == '/' then Some(63)
    else None
  }

  lemma ValueOfCharOf(v: nat)
    requires v < 64
    ensures ValueOf(CharOf(v)) == Some(v)
  {
  }

  /** The four six-bit values of a group of three bytes, most significant first. */
  function Sextet0(b0: byte): (v: nat) ensures v < 64 { b0 as nat / 4 }
  function Sextet1(b0: byte, b1: byte): (v: nat) ensures v < 64 { (b0 as nat % 4) * 16 + b1 as nat / 16 }
  function Sextet2(b1: byte, b2: byte): (v: nat) ensures v < 64 { (b1 as nat % 16) * 4 + b2 as nat / 64 }
  function Sextet3(b2: byte): (v: nat) ensures v < 64 { b2 as nat % 64 }

  /** Three bytes as four characters. */
  function EncodeBlock(b0: byte, b1: byte, b2: byte): (s: string)
    ensures |s| == 4 && forall k :: 0 <= k < 4 ==> IsBase64Char(s[k])
  {
    [CharOf(Sextet0(b0)), CharOf(Sextet1(b0, b1)), CharOf(Sextet2(b1, b2)), CharOf(Sextet3(b2))]
  }

  /** Output characters only from the alphabet and the pad. */
  predicate IsBase64Text(s: string) {
    forall k :: 0 <= k < |s| ==> IsBase64Char(s[k]) || s[k] == '='
  }

  /** Padded encoding: each group of three bytes becomes four characters; a final group
      of one or two bytes is zero-filled and padded with `==` or `=`. */
  function Encode(b: seq<byte>): (s: string)
    ensures IsBase64Text(s)
    decreases |b|
  {
    if |b| == 0 then ""
    else if |b| == 1 then EncodeBlock(b[0], 0, 0)[..2] + "=="
    else if |b| == 2 then EncodeBlock(b[0], b[1], 0)[..3] + "="
    else EncodeBlock(b[0], b[1], b[2]) + Encode(b[3..])
  }

  /** Four character values as three bytes. */
  function DecodeBlock(c0: nat, c1: nat, c2: nat, c3: nat): seq<byte>
    requires c0 < 64 && c1 < 64 && c2 < 64 && c3 < 64
  {
    [ (c0 * 4 + c1 / 16) as byte,
      ((c1 % 16) * 16 + c2 / 4) as byte,
      ((c2 % 4) * 64 + c3) as byte ]
  }

  /** Strict padded decoding: the length is a multiple of four, padding appears only at
      the end, and the bits a pad leaves unused are zero. */
  function Decode(s: string): (r: Option<seq<byte>>)
    decreases |s|
  {
    if |s| == 0 then Some([])
    else if |s| < 4 then None
    else
      var v0, v1, v2, v3 := ValueOf(s[0]), ValueOf(s[1]), ValueOf(s[2]), ValueOf(s[3]);
      if v0.None? || v1.None? then None
      else if |s| == 4 && s[2] == '=' && s[3] == '=' then
        if v1.value % 16 == 0 then Some(DecodeBlock(v0.value, v1.value, 0, 0)[..1]) else None
      else if v2.None? then None
      else if |s| == 4 && s[3] == '=' then
        if v2.value % 4 == 0 then Some(DecodeBlock(v0.value, v1.value, v2.value, 0)[..2]) else None
      else if v3.None? then None
      else
        match Decode(s[4..])
        case None => None
        case Some(rest) => Some(DecodeBlock(v0.value, v1.value, v2.value, v3.value) + rest)
  }

  /** The arithmetic of one block: the four six-bit values re-assemble the three bytes. */
  lemma BlockRoundTrip(b0: byte, b1: byte, b2: byte)
    ensures DecodeBlock(Sextet0(b0), Sextet1(b0, b1), Sextet2(b1, b2), Sextet3(b2)) == [b0, b1, b2]
  {
    var x0, x1, x2 := b0 as nat, b1 as nat, b2 as nat;
    var c1 := Sextet1(b0, b1);
    var c2 := Sextet2(b1, b2);
    assert c1 / 16 == x0 % 4 && c1 % 16 == x1 / 16;
    assert c2 / 4 == x1 % 16 && c2 % 4 == x2 / 64;
    assert (x0 / 4) * 4 + x0 % 4 == x0;
    assert (x1 / 16) * 16 + x1 % 16 == x1;
    assert (x2 / 64) * 64 + x2 % 64 == x2;
  }

  /** The low bits a one- or two-byte final group leaves unused are zero. */
  lemma PadBitsZero(b0: byte, b1: byte)
    ensures Sextet1(b0, 0) % 16 == 0
    ensures Sextet2(b1, 0) % 4 == 0
  {
  }

  /** A final single byte: two characters and `==`. */
  lemma DecodeEncodeOne(b0: byte)
    ensures Decode(Encode([b0])) == Some([b0])
  {
    var s := Encode([b0]);
    var c0, c1 := Sextet0(b0), Sextet1(b0, 0);
    BlockRoundTrip(b0, 0, 0);
    PadBitsZero(b0, 0);
    ValueOfCharOf(c0);
    ValueOfCharOf(c1);
    assert s == [CharOf(c0), CharOf(c1), '=', '='];
    assert DecodeBlock(c0, c1, 0, 0)[..1] == [b0];
  }

  /** A final pair of bytes: three characters and `=`. */
  lemma DecodeEncodeTwo(b0: byte, b1: byte)
    ensures Decode(Encode([b0, b1])) == Some([b0, b1])
  {
    var s := Encode([b0, b1]);
    var c0, c1, c2 := Sextet0(b0), Sextet1(b0, b1), Sextet2(b1, 0);
    BlockRoundTrip(b0, b1, 0);
    PadBitsZero(b0, b1);
    ValueOfCharOf(c0);
    ValueOfCharOf(c1);
    ValueOfCharOf(c2);
    assert s == [CharOf(c0), CharOf(c1), CharOf(c2), '='];
    assert DecodeBlock(c0, c1, c2, 0)[..2] == [b0, b1];
  }

  /** Decoding a full group of four alphabet characters followed by more text. */
  lemma DecodeGroup(s: string, c0: nat, c1: nat, c2: nat, c3: nat)
    requires |s| >= 4 && c0 < 64 && c1 < 64 && c2 < 64 && c3 < 64
    requires s[..4] == [CharOf(c0), CharOf(c1), CharOf(c2), CharOf(c3)]
    ensures Decode(s) == match Decode(s[4..])
                         case None => None
                         case Some(rest) => Some(DecodeBlock(c0, c1, c2, c3) + rest)
  {
    assert s[0] == CharOf(c0) && s[1] == CharOf(c1) && s[2] == CharOf(c2) && s[3] == CharOf(c3);
    ValueOfCharOf(c0);
    ValueOfCharOf(c1);
    ValueOfCharOf(c2);
    ValueOfCharOf(c3);
  }

  /** A full group of three bytes in front of the rest. */
  lemma DecodeEncodeStep(b0: byte, b1: byte, b2: byte, rest: seq<byte>)
    requires Decode(Encode(rest)) == Some(rest)
    ensures Decode(Encode([b0, b1, b2] + rest)) == Some([b0, b1, b2] + rest)
  {
    var b := [b0, b1, b2] + rest;
    var s := Encode(b);
    var c0, c1, c2, c3 := Sextet0(b0), Sextet1(b0, b1), Sextet2(b1, b2), Sextet3(b2);
    BlockRoundTrip(b0, b1, b2);
    assert b[3..] == rest;
    assert s == EncodeBlock(b0, b1, b2) + Encode(rest);
    assert s[..4] == [CharOf(c0), CharOf(c1), CharOf(c2), CharOf(c3)];
    assert s[4..] == Encode(rest);
    DecodeGroup(s, c0, c1, c2, c3);
  }

  /** Decoding an encoding gives back the bytes. */
  lemma {:induction false} DecodeEncode(b: seq<byte>)
    ensures Decode(Encode(b)) == Some(b)
    decreases |b|
  {
    if |b| == 1 {
      DecodeEncodeOne(b[0]);
      assert b == [b[0]];
    } else if |b| == 2 {
      DecodeEncodeTwo(b[0], b[1]);
      assert b == [b[0], b[1]];
    } else if |b| >= 3 {
      var rest := b[3..];
      assert b == [b[0], b[1], b[2]] + rest;
      DecodeEncode(rest);
      DecodeEncodeStep(b[0], b[1], b[2], rest);
    }
  }

  /** The other direction of `BlockRoundTrip`: the three bytes of four six-bit values
      split back into those values. */
  lemma BlockInverse(c0: nat, c1: nat, c2: nat, c3: nat)
    requires c0 < 64 && c1 < 64 && c2 < 64 && c3 < 64
    ensures var d := DecodeBlock(c0, c1, c2, c3);
            Sextet0(d[0]) == c0 && Sextet1(d[0], d[1]) == c1 && Sextet2(d[1], d[2]) == c2 && Sextet3(d[2]) == c3
  {
    var d := DecodeBlock(c0, c1, c2, c3);
    var x0, x1, x2 := d[0] as nat, d[1] as nat, d[2] as nat;
    assert x0 == c0 * 4 + c1 / 16 && c1 / 16 < 4;
    assert x1 == (c1 % 16) * 16 + c2 / 4 && c2 / 4 < 16;
    assert x2 == (c2 % 4) * 64 + c3;
    assert x0 / 4 == c0 && x0 % 4 == c1 / 16;
    assert x1 / 16 == c1 % 16 && x1 % 16 == c2 / 4;
    assert x2 / 64 == c2 % 4 && x2 % 64 == c3;
    assert (c1 / 16) * 16 + c1 % 16 == c1;
    assert (c2 / 4) * 4 + c2 % 4 == c2;
  }

  /** The decoder is strict: the only text it accepts for some bytes is the encoding of
      those bytes, so no two texts decode to the same bytes. */
  lemma {:induction false} DecodeCanonical(s: string)
    ensures Decode(s).Some? ==> s == Encode(Decode(s).value)
    decreases |s|
  {
    if |s| >= 4 && Decode(s).Some? {
      if |s| == 4 && s[2] == '=' && s[3] == '=' {
        CanonicalOne(s);
      } else if |s| == 4 && s[3] == '=' {
        CanonicalTwo(s);
      } else {
        var v0, v1, v2, v3 := ValueOf(s[0]).value, ValueOf(s[1]).value, ValueOf(s[2]).value, ValueOf(s[3]).value;
        var rest := Decode(s[4..]).value;
        DecodeCanonical(s[4..]);
        CanonicalStep(s, v0, v1, v2, v3, rest);
        DecodeGroup(s, v0, v1, v2, v3);
      }
    }
  }

  /** Two characters and `==` that decode are the encoding of their one byte. */
  lemma CanonicalOne(s: string)
    requires |s| == 4 && s[2] == '=' && s[3] == '=' && Decode(s).Some?
    ensures s == Encode(Decode(s).value)
  {
    var v0, v1 := ValueOf(s[0]).value, ValueOf(s[1]).value;
    var b0 := DecodeBlock(v0, v1, 0, 0)[0];
    assert Decode(s) == Some([b0]) && v1 % 16 == 0 by {
      assert DecodeBlock(v0, v1, 0, 0)[..1] == [b0];
    }
    assert Sextet0(b0) == v0 && Sextet1(b0, 0) == v1 by {
      BlockInverse(v0, v1, 0, 0);
    }
    EncodeOneChars(b0);
    assert s == [CharOf(v0), CharOf(v1), '=', '='];
  }

  /** The characters of the encoding of one byte. */
  lemma EncodeOneChars(b0: byte)
    ensures Encode([b0]) == [CharOf(Sextet0(b0)), CharOf(Sextet1(b0, 0)), '=', '=']
  {
  }

  /** Three characters and `=` that decode are the encoding of their two bytes. */
  lemma CanonicalTwo(s: string)
    requires |s| == 4 && s[2] != '=' && s[3] == '=' && Decode(s).Some?
    ensures s == Encode(Decode(s).value)
  {
    var v0, v1, v2 := ValueOf(s[0]).value, ValueOf(s[1]).value, ValueOf(s[2]).value;
    var d := DecodeBlock(v0, v1, v2, 0);
    assert Decode(s) == Some(d[..2]);
    BlockInverse(v0, v1, v2, 0);
    assert d == [d[0], d[1], 0];
    assert Encode(d[..2]) == EncodeBlock(d[0], d[1], 0)[..3] + "=";
    assert s == [s[0], s[1], s[2], s[3]];
  }

  /** A full group of four alphabet characters in front of the encoding of `rest` is the
      encoding of the group's three bytes followed by `rest`. */
  lemma CanonicalStep(s: string, v0: nat, v1: nat, v2: nat, v3: nat, rest: seq<byte>)
    requires |s| >= 4
    requires ValueOf(s[0]) == Some(v0) && ValueOf(s[1]) == Some(v1)
    requires ValueOf(s[2]) == Some(v2) && ValueOf(s[3]) == Some(v3)
    requires s[4..] == Encode(rest)
    ensures v0 < 64 && v1 < 64 && v2 < 64 && v3 < 64
    ensures s == Encode(DecodeBlock(v0, v1, v2, v3) + rest)
  {
    FourChars(s, v0, v1, v2, v3);
    var d := DecodeBlock(v0, v1, v2, v3);
    assert EncodeBlock(d[0], d[1], d[2]) == [CharOf(v0), CharOf(v1), CharOf(v2), CharOf(v3)] by {
      BlockInverse(v0, v1, v2, v3);
    }
    EncodeGroupChars(d[0], d[1], d[2], rest);
    assert d == [d[0], d[1], d[2]];
    assert s == s[..4] + s[4..];
  }

  /** Four alphabet characters are the characters of their values. */
  lemma FourChars(s: string, v0: nat, v1: nat, v2: nat, v3: nat)
    requires |s| >= 4
    requires ValueOf(s[0]) == Some(v0) && ValueOf(s[1]) == Some(v1)
    requires ValueOf(s[2]) == Some(v2) && ValueOf(s[3]) == Some(v3)
    ensures v0 < 64 && v1 < 64 && v2 < 64 && v3 < 64
    ensures s[..4] == [CharOf(v0), CharOf(v1), CharOf(v2), CharOf(v3)]
  {
  }

  /** A group of three bytes in front of the rest encodes block first. */
  lemma EncodeGroupChars(b0: byte, b1: byte, b2: byte, rest: seq<byte>)
    ensures Encode([b0, b1, b2] + rest) == EncodeBlock(b0, b1, b2) + Encode(rest)
  {
    var b := [b0, b1, b2] + rest;
    assert b[3..] == rest;
  }

  /** Every group of up to three bytes becomes four characters. */
  lemma {:induction false} EncodeLength(b: seq<byte>)
    ensures |Encode(b)| == 4 * ((|b| + 2) / 3)
    decreases |b|
  {
    if |b| == 1 {
      assert Encode(b) == EncodeBlock(b[0], 0, 0)[..2] + "==";
      assert |Encode(b)| == 4;
    } else if |b| == 2 {
      assert Encode(b) == EncodeBlock(b[0], b[1], 0)[..3] + "=";
      assert |Encode(b)| == 4;
    } else if |b| >= 3 {
      var rest := b[3..];
      EncodeLength(rest);
      assert Encode(b) == EncodeBlock(b[0], b[1], b[2]) + Encode(rest);
      var m, q := |rest|, (|rest| + 2) / 3;
      assert |Encode(b)| == 4 + 4 * q;
      assert (m + 5) / 3 == q + 1 && |b| + 2 == m + 5;
    }
  }
}
