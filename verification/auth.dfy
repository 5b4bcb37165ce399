/** `generate_auth_headers` (src/client.rs): the three headers every request carries.

    The MAC is HMAC-SHA256 keyed with the client secret over
    `Trimlight|<client id>|<timestamp>`; it is a parameter here (`hmac`), as is the
    clock reading in milliseconds since the Unix epoch (`nowMillis`). A header value
    that `HeaderValue::from_str` refuses makes the source's `unwrap` panic; the model
    returns `None` for that panic. */
module Auth {
  import opened Types
  import opened Decimal
  import Base64

  // ---- UTF-8 ----

  /** The length of a UTF-8 sequence, read off its lead byte. */
  function LeadLength(b: byte): nat {
    if b < 0x80 then 1 else if b < 0xE0 then 2 else if b < 0xF0 then 3 else 4
  }

  /** The code point a well-formed one- to four-byte sequence carries: the payload bits
      of the lead byte, then six bits from each continuation byte. */
  function CodePoint(r: seq<byte>): int
    requires 1 <= |r| <= 4
  {
    if |r| == 1 then r[0] as int
    else if |r| == 2 then (r[0] as int - 0xC0) * 0x40 + (r[1] as int - 0x80)
    else if |r| == 3 then
      (r[0] as int - 0xE0) * 0x1000 + (r[1] as int - 0x80) * 0x40 + (r[2] as int - 0x80)
    else
      (r[0] as int - 0xF0) * 0x4_0000 + (r[1] as int - 0x80) * 0x1000
        + (r[2] as int - 0x80) * 0x40 + (r[3] as int - 0x80)
  }

  /** The UTF-8 encoding of one Unicode scalar value. */
  function Utf8Char(c: char): (r: seq<byte>)
    ensures 1 <= |r| <= 4
    ensures |r| == 1 <==> c as int < 0x80
    ensures c as int >= 0x80 ==> forall k :: 0 <= k < |r| ==> r[k] >= 0x80
  {
    var n := c as int;
    if n < 0x80 then [n as byte]
    else if n < 0x800 then [(0xC0 + n / 0x40) as byte, (0x80 + n % 0x40) as byte]
    else if n < 0x1_0000 then
      [(0xE0 + n / 0x1000) as byte, (0x80 + n / 0x40 % 0x40) as byte, (0x80 + n % 0x40) as byte]
    else
      [(0xF0 + n / 0x4_0000) as byte, (0x80 + n / 0x1000 % 0x40) as byte,
       (0x80 + n / 0x40 % 0x40) as byte, (0x80 + n % 0x40) as byte]
  }

  /** The encoding of a character is self-delimiting and decodes back to it: its lead
      byte gives its length, and its payload bits give the code point. */
  lemma Utf8CharDecodes(c: char)
    ensures |Utf8Char(c)| == LeadLength(Utf8Char(c)[0])
    ensures CodePoint(Utf8Char(c)) == c as int
  {
    var n := c as int;
    var r := Utf8Char(c);
    if n < 0x80 {
      assert r == [n as byte];
    } else if n < 0x800 {
      assert r == [(0xC0 + n / 0x40) as byte, (0x80 + n % 0x40) as byte];
      SplitSixBits(n);
    } else if n < 0x1_0000 {
      assert r == [(0xE0 + n / 0x1000) as byte, (0x80 + n / 0x40 % 0x40) as byte, (0x80 + n % 0x40) as byte];
      SplitSixBits(n);
      SplitSixBits(n / 0x40);
    } else {
      assert r == [(0xF0 + n / 0x4_0000) as byte, (0x80 + n / 0x1000 % 0x40) as byte,
                   (0x80 + n / 0x40 % 0x40) as byte, (0x80 + n % 0x40) as byte];
      SplitSixBits(n);
      SplitSixBits(n / 0x40);
      SplitSixBits(n / 0x1000);
    }
  }

  /** Six bits at a time: the quotient and remainder by 64, and by 64 again. */
  lemma SplitSixBits(n: nat)
    ensures n == n / 0x40 * 0x40 + n % 0x40
    ensures n / 0x40 / 0x40 == n / 0x1000 && n / 0x1000 / 0x40 == n / 0x4_0000
  {
  }

  /** `s.as_bytes()`: the UTF-8 encoding of a string; one byte per character exactly
      when the string is ASCII. */
  function Utf8(s: string): (r: seq<byte>)
    ensures |r| >= |s|
    ensures |r| == |s| <==> IsAscii(s)
    decreases |s|
  {
    if |s| == 0 then []
    else
      assert IsAscii(s) <==> s[0] as int < 0x80 && IsAscii(s[1..]) by {
        assert forall k :: 1 <= k < |s| ==> s[k] == s[1..][k - 1];
      }
      Utf8Char(s[0]) + Utf8(s[1..])
  }

  /** Different strings have different encodings: the lead byte of each character fixes
      how many bytes it takes, and those bytes fix the character. */
  lemma {:induction false} Utf8Injective(s: string, t: string)
    requires Utf8(s) == Utf8(t)
    ensures s == t
    decreases |s|
  {
    if |s| > 0 && |t| > 0 {
      var a, b := Utf8Char(s[0]), Utf8Char(t[0]);
      Utf8CharDecodes(s[0]);
      Utf8CharDecodes(t[0]);
      var u := Utf8(s);
      assert u == a + Utf8(s[1..]) && u == b + Utf8(t[1..]);
      assert a[0] == u[0] == b[0];
      assert a == u[..|a|] == b;
      assert s[0] as int == CodePoint(a) == t[0] as int;
      assert Utf8(s[1..]) == u[|a|..] == Utf8(t[1..]);
      Utf8Injective(s[1..], t[1..]);
      assert s == [s[0]] + s[1..] && t == [t[0]] + t[1..];
    }
  }

  lemma {:induction false} Utf8Append(s: string, t: string)
    ensures Utf8(s + t) == Utf8(s) + Utf8(t)
    decreases |s|
  {
    if |s| > 0 {
      assert (s + t)[1..] == s[1..] + t;
      Utf8Append(s[1..], t);
    } else {
      assert s + t == t;
    }
  }

  predicate IsAscii(s: string) {
    forall k :: 0 <= k < |s| ==> s[k] as int < 0x80
  }

  /** The characters of a byte string, one per byte. */
  function Chars(b: seq<byte>): (s: string)
    ensures |s| == |b| && forall k :: 0 <= k < |b| ==> s[k] as int == b[k] as int
  {
    seq(|b|, k requires 0 <= k < |b| => b[k] as int as char)
  }

  /** An ASCII string is encoded one byte per character, byte = code point. */
  lemma {:induction false} AsciiUtf8(s: string)
    requires IsAscii(s)
    ensures |Utf8(s)| == |s| && Chars(Utf8(s)) == s
    decreases |s|
  {
    if |s| > 0 {
      AsciiUtf8(s[1..]);
      var r := Utf8(s);
      assert r == [s[0] as int as byte] + Utf8(s[1..]);
      assert Chars(r) == [s[0]] + Chars(Utf8(s[1..]));
      assert s == [s[0]] + s[1..];
    }
  }

  // ---- header values ----

  /** The bytes `HeaderValue::from_str` admits: horizontal tab, or visible ASCII and
      space, or any byte of 0x80 and above; never another control byte or DEL. */
  predicate IsHeaderByte(b: byte) {
    b == 9 || (b >= 32 && b != 127)
  }

  predicate IsHeaderBytes(b: seq<byte>) {
    forall k :: 0 <= k < |b| ==> IsHeaderByte(b[k])
  }

  /** The same rule stated on characters: every non-ASCII character is admitted. */
  predicate IsHeaderChar(c: char) {
    c == '\t' || (c >= ' ' && c != '\U{7F}')
  }

  predicate IsHeaderText(s: string) {
    forall k :: 0 <= k < |s| ==> IsHeaderChar(s[k])
  }

  /** `HeaderValue::from_str(s)`: the bytes of `s`, or `None` when one is refused. */
  function HeaderValueFromStr(s: string): (r: Option<seq<byte>>)
    ensures r.Some? <==> IsHeaderText(s)
    ensures r.Some? ==> r.value == Utf8(s)
  {
    HeaderTextBytes(s);
    if IsHeaderBytes(Utf8(s)) then Some(Utf8(s)) else None
  }

  /** The byte rule on the encoding agrees with the character rule on the text. */
  lemma {:induction false} HeaderTextBytes(s: string)
    ensures IsHeaderBytes(Utf8(s)) <==> IsHeaderText(s)
    decreases |s|
  {
    if |s| > 0 {
      HeaderTextBytes(s[1..]);
      var head, tail := Utf8Char(s[0]), Utf8(s[1..]);
      assert Utf8(s) == head + tail;
      assert IsHeaderBytes(head + tail) <==> IsHeaderBytes(head) && IsHeaderBytes(tail) by {
        assert forall k :: 0 <= k < |head| ==> (head + tail)[k] == head[k];
        assert forall k :: 0 <= k < |tail| ==> (head + tail)[|head| + k] == tail[k];
      }
      assert IsHeaderText(s) <==> IsHeaderChar(s[0]) && IsHeaderText(s[1..]) by {
        assert forall k :: 1 <= k < |s| ==> s[1..][k - 1] == s[k];
      }
      assert IsHeaderBytes(head) <==> IsHeaderChar(s[0]) by {
        if s[0] as int < 0x80 {
          assert head == [s[0] as int as byte];
          assert IsHeaderBytes(head) <==> IsHeaderByte(head[0]);
          assert head[0] as int == s[0] as int;
          assert IsHeaderChar(s[0]) <==> s[0] as int == 9 || (s[0] as int >= 32 && s[0] as int != 127);
        } else {
          assert IsHeaderChar(s[0]);
          assert forall k :: 0 <= k < |head| ==> head[k] >= 0x80;
        }
      }
    }
  }

  // ---- the headers ----

  /** A 32-byte HMAC-SHA256 tag. */
  type Digest = d: seq<byte> | |d| == 32 witness seq(32, _ => 0)

  /** The values of the `authorization`, `S-ClientId` and `S-Timestamp` headers, in
      the order they are inserted. */
  datatype AuthHeaders = AuthHeaders(authorization: seq<byte>, clientId: seq<byte>, timestamp: seq<byte>)

  /** The text that is signed. */
  function SignedMessage(clientId: string, timestamp: string): string {
    "Trimlight|" + clientId + "|" + timestamp
  }

  /** The signed text determines the client id and the timestamp: the timestamp is all
      digits, so the last `|` separates the two even when the id itself holds a `|`. */
  lemma SignedMessageInjective(id1: string, ts1: string, id2: string, ts2: string)
    requires AllDigits(ts1) && AllDigits(ts2)
    requires SignedMessage(id1, ts1) == SignedMessage(id2, ts2)
    ensures id1 == id2 && ts1 == ts2
  {
    var m := SignedMessage(id1, ts1);
    assert |ts1| == |ts2| by {
      if |ts1| < |ts2| {
        BarBeforeDigits(id1, ts1, id2, ts2);
      } else if |ts2| < |ts1| {
        BarBeforeDigits(id2, ts2, id1, ts1);
      }
    }
    assert ts1 == m[|m| - |ts1|..] == ts2;
    assert id1 == m[10..|m| - |ts1| - 1] == id2;
  }

  /** The bytes that are MACed determine the client id and the timestamp. */
  lemma SignedBytesInjective(id1: string, ts1: string, id2: string, ts2: string)
    requires AllDigits(ts1) && AllDigits(ts2)
    requires Utf8(SignedMessage(id1, ts1)) == Utf8(SignedMessage(id2, ts2))
    ensures id1 == id2 && ts1 == ts2
  {
    Utf8Injective(SignedMessage(id1, ts1), SignedMessage(id2, ts2));
    SignedMessageInjective(id1, ts1, id2, ts2);
  }

  /** With a shorter timestamp, the `|` before it would face a digit of the longer one. */
  lemma BarBeforeDigits(id1: string, ts1: string, id2: string, ts2: string)
    requires AllDigits(ts2) && |ts1| < |ts2|
    ensures SignedMessage(id1, ts1) != SignedMessage(id2, ts2)
  {
    var m1, m2 := SignedMessage(id1, ts1), SignedMessage(id2, ts2);
    if |m1| == |m2| {
      var p := |m1| - |ts1| - 1;
      assert m1[p] == '|';
      assert m2[p] == ts2[p - (|m2| - |ts2|)];
    }
  }

  /** The three headers for one request, or `None` where an `unwrap` panics. */
  function GenerateAuthHeaders(
    hmac: (seq<byte>, seq<byte>) -> Digest,
    clientId: string,
    clientSecret: string,
    nowMillis: nat): (r: Option<AuthHeaders>)
    ensures r.Some? <==> IsHeaderText(clientId)
    ensures r.Some? ==> r.value.clientId == Utf8(clientId)
    ensures r.Some? ==>
              var ts := Chars(r.value.timestamp);
              && |ts| >= 1 && AllDigits(ts) && DigitsValue(ts) == nowMillis
              && (ts[0] == '0' ==> nowMillis == 0)
    ensures r.Some? ==>
              var mac := hmac(Utf8(clientSecret), Utf8(SignedMessage(clientId, Chars(r.value.timestamp))));
              && |r.value.authorization| == 44
              && Chars(r.value.authorization) == Base64.Encode(mac)
              && Base64.IsBase64Text(Chars(r.value.authorization))
              && Base64.Decode(Chars(r.value.authorization)) == Some(mac)
  {
    var timestamp := NatToString(nowMillis);
    var authString := SignedMessage(clientId, timestamp);
    var mac := hmac(Utf8(clientSecret), Utf8(authString));
    var accessToken := Base64.Encode(mac);
    TokenIsHeaderText(mac);
    DigitsAreHeaderText(timestamp);
    match HeaderValueFromStr(accessToken)
    case None => None
    case Some(authorization) =>
      match HeaderValueFromStr(clientId)
      case None => None
      case Some(id) =>
        match HeaderValueFromStr(timestamp)
        case None => None
        case Some(ts) => Some(AuthHeaders(authorization, id, ts))
  }

  /** The base64 text of a MAC: 44 ASCII characters that are valid header text and
      encode themselves byte for byte, and that decode back to the MAC. */
  lemma TokenIsHeaderText(mac: Digest)
    ensures IsHeaderText(Base64.Encode(mac)) && IsAscii(Base64.Encode(mac))
    ensures |Utf8(Base64.Encode(mac))| == 44 && Chars(Utf8(Base64.Encode(mac))) == Base64.Encode(mac)
    ensures Base64.Decode(Chars(Utf8(Base64.Encode(mac)))) == Some(mac)
  {
    var token := Base64.Encode(mac);
    TokenLength(mac);
    Base64TextIsAscii(token);
    AsciiUtf8(token);
    var u := Utf8(token);
    assert Chars(u) == token;
    Base64.DecodeEncode(mac);
  }

  /** The base64 text of 32 bytes is 44 characters long. */
  lemma TokenLength(mac: Digest)
    ensures |Base64.Encode(mac)| == 44
  {
    Base64.EncodeLength(mac);
    var n := |mac|;
    assert n == 32;
    assert (n + 2) / 3 == 11;
  }

  /** Base64 text is ASCII header text. */
  lemma Base64TextIsAscii(s: string)
    requires Base64.IsBase64Text(s)
    ensures IsAscii(s) && IsHeaderText(s)
  {
  }

  /** Decimal digits are ASCII header text that encodes itself byte for byte. */
  lemma DigitsAreHeaderText(s: string)
    requires AllDigits(s)
    ensures IsHeaderText(s) && IsAscii(s) && Chars(Utf8(s)) == s
  {
    AsciiUtf8(s);
  }
}
