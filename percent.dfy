/** Percent-encoding of strings as JavaScript's `encodeURIComponent` does it
    (ECMA-262, section 19.2.6.5, "encodeURIComponent"; the %XX form of RFC 3986,
    section 2.1), and the byte serializer of the WHATWG URL Standard's
    `application/x-www-form-urlencoded` format (section 5.2) that
    `URLSearchParams` uses. Each encoder comes with a decoder that undoes it. */
module PercentEncoding {
  import opened Wrappers
  import Utf8

  type Byte = Utf8.Byte

  /** Upper-case hexadecimal digit, as both encoders emit. */
  function HexDigit(n: int): (c: char)
    requires 0 <= n < 16
    ensures '0' <= c <= '9' || 'A' <= c <= 'F'
  {
    if n < 10 then (48 + n) as char else (55 + n) as char
  }

  /** Value of a hexadecimal digit of either case. */
  function HexValue(c: char): Option<int>
  {
    if '0' <= c <= '9' then Some(c as int - 48)
    else if 'A' <= c <= 'F' then Some(c as int - 55)
    else if 'a' <= c <= 'f' then Some(c as int - 87)
    else None
  }

  lemma HexValueOfDigit(n: int)
    requires 0 <= n < 16
    ensures HexValue(HexDigit(n)) == Some(n)
  {
  }

  predicate IsAlphaNumeric(c: char)
  {
    'A' <= c <= 'Z' || 'a' <= c <= 'z' || '0' <= c <= '9'
  }

  /** The characters `encodeURIComponent` leaves alone: letters, digits and
      the marks - _ . ! ~ * ' ( ). */
  predicate IsUriUnreserved(c: char)
  {
    IsAlphaNumeric(c) || c in "-_.!~*'()"
  }

  /** `%XY` for one byte, with upper-case hexadecimal digits. */
  function EscapeByte(b: Byte): (s: string)
    ensures |s| == 3 && s[0] == '%' && IsAlphaNumeric(s[1]) && IsAlphaNumeric(s[2])
    ensures ('0' <= s[1] <= '9' || 'A' <= s[1] <= 'F') && ('0' <= s[2] <= '9' || 'A' <= s[2] <= 'F')
    ensures HexValue(s[1]) == Some(b / 16) && HexValue(s[2]) == Some(b % 16)
  {
    HexValueOfDigit(b / 16);
    HexValueOfDigit(b % 16);
    ['%', HexDigit(b / 16), HexDigit(b % 16)]
  }

  function EscapeBytes(bs: seq<Byte>): (s: string)
    ensures forall i :: 0 <= i < |s| ==> IsAlphaNumeric(s[i]) || s[i] == '%'
  {
    if bs == [] then "" else EscapeByte(bs[0]) + EscapeBytes(bs[1..])
  }

  function EncodeURIComponentChar(c: char): string
  {
    if IsUriUnreserved(c) then [c] else EscapeBytes(Utf8.EncodeChar(c))
  }

  /** `encodeURIComponent(s)`: unreserved characters are kept, every other
      character becomes the %XX escapes of its UTF-8 bytes. The result holds
      only unreserved characters and '%', so in particular no '/', '?' or '#'
      that would change the shape of a URL it is put into. */
  function EncodeURIComponent(s: string): (r: string)
    ensures forall i :: 0 <= i < |r| ==> IsUriUnreserved(r[i]) || r[i] == '%'
  {
    if s == [] then "" else EncodeURIComponentChar(s[0]) + EncodeURIComponent(s[1..])
  }

  /** The bytes the form serializer keeps as they are:
      `*`, `-`, `.`, digits, upper- and lower-case letters and `_`. */
  predicate IsFormSafe(b: Byte)
  {
    b == 0x2A || b == 0x2D || b == 0x2E || 0x30 <= b <= 0x39 || 0x41 <= b <= 0x5A
    || b == 0x5F || 0x61 <= b <= 0x7A
  }

  predicate IsFormChar(c: char)
  {
    IsAlphaNumeric(c) || c in "*-._+%"
  }

  function FormEncodeByte(b: Byte): (s: string)
    ensures forall i :: 0 <= i < |s| ==> IsFormChar(s[i])
  {
    if b == 0x20 then "+" else if IsFormSafe(b) then [b as char] else EscapeByte(b)
  }

  function FormEncodeBytes(bs: seq<Byte>): (s: string)
    ensures forall i :: 0 <= i < |s| ==> IsFormChar(s[i])
  {
    if bs == [] then "" else FormEncodeByte(bs[0]) + FormEncodeBytes(bs[1..])
  }

  /** The `application/x-www-form-urlencoded` byte serialization of the UTF-8
      encoding of `s`. Its characters never include '&' or '=', the
      separators of a query string. */
  function FormEncode(s: string): (r: string)
    ensures forall i :: 0 <= i < |r| ==> IsFormChar(r[i])
    ensures '&' !in r && '=' !in r
  {
    FormEncodeBytes(Utf8.Encode(s))
  }

  function Prepend(bs: seq<Byte>, o: Option<seq<Byte>>): Option<seq<Byte>>
  {
    match o
    case None => None
    case Some(t) => Some(bs + t)
  }

  /** Reads %XX escapes and ASCII characters back into bytes; with
      `plusIsSpace`, '+' stands for a space as in form encoding. */
  function Unescape(s: string, plusIsSpace: bool): Option<seq<Byte>>
    decreases |s|
  {
    if s == [] then Some([])
    else if s[0] == '%' then
      if |s| >= 3 && HexValue(s[1]).Some? && HexValue(s[2]).Some? then
        Prepend([16 * HexValue(s[1]).value + HexValue(s[2]).value], Unescape(s[3..], plusIsSpace))
      else None
    else if plusIsSpace && s[0] == '+' then Prepend([0x20], Unescape(s[1..], plusIsSpace))
    else if s[0] as int < 0x80 then Prepend([s[0] as int], Unescape(s[1..], plusIsSpace))
    else None
  }

  /** Partial inverse of `EncodeURIComponent`, used to state its round trip;
      it is not a model of JavaScript's `decodeURIComponent`, which the
      source never calls. */
  function DecodeURIComponent(s: string): Option<string>
  {
    match Unescape(s, false)
    case None => None
    case Some(bs) => Utf8.Decode(bs)
  }

  /** Partial inverse of `FormEncode`, used to state its round trip; it is
      not a model of the WHATWG form parser, which the source never calls. */
  function FormDecode(s: string): Option<string>
  {
    match Unescape(s, true)
    case None => None
    case Some(bs) => Utf8.Decode(bs)
  }

  lemma UnescapeEscapeByte(b: Byte, rest: string, plusIsSpace: bool)
    ensures Unescape(EscapeByte(b) + rest, plusIsSpace) == Prepend([b], Unescape(rest, plusIsSpace))
  {
    var s := EscapeByte(b) + rest;
    assert s[3..] == rest;
  }

  lemma {:induction false} UnescapeEscapeBytes(bs: seq<Byte>, rest: string, plusIsSpace: bool)
    ensures Unescape(EscapeBytes(bs) + rest, plusIsSpace) == Prepend(bs, Unescape(rest, plusIsSpace))
  {
    if bs != [] {
      assert EscapeBytes(bs) + rest == EscapeByte(bs[0]) + (EscapeBytes(bs[1..]) + rest);
      UnescapeEscapeByte(bs[0], EscapeBytes(bs[1..]) + rest, plusIsSpace);
      UnescapeEscapeBytes(bs[1..], rest, plusIsSpace);
      assert [bs[0]] + bs[1..] == bs;
      match Unescape(rest, plusIsSpace)
      case None =>
      case Some(t) => assert [bs[0]] + (bs[1..] + t) == bs + t;
    } else {
      assert EscapeBytes(bs) + rest == rest;
      match Unescape(rest, plusIsSpace)
      case None =>
      case Some(t) => assert bs + t == t;
    }
  }

  lemma UnescapeURIComponentChar(c: char, rest: string)
    ensures Unescape(EncodeURIComponentChar(c) + rest, false)
         == Prepend(Utf8.EncodeChar(c), Unescape(rest, false))
  {
    if IsUriUnreserved(c) {
      assert (EncodeURIComponentChar(c) + rest)[1..] == rest;
    } else {
      UnescapeEscapeBytes(Utf8.EncodeChar(c), rest, false);
    }
  }

  lemma {:induction false} UnescapeURIComponent(s: string)
    ensures Unescape(EncodeURIComponent(s), false) == Some(Utf8.Encode(s))
  {
    if s != [] {
      UnescapeURIComponentChar(s[0], EncodeURIComponent(s[1..]));
      UnescapeURIComponent(s[1..]);
    }
  }

  /** Round trip: a key percent-encoded for a URL path segment decodes back
      to the same key. */
  lemma DecodeEncodeURIComponent(s: string)
    ensures DecodeURIComponent(EncodeURIComponent(s)) == Some(s)
  {
    UnescapeURIComponent(s);
    Utf8.DecodeEncode(s);
  }

  /** A string made only of unreserved characters is its own encoding. */
  lemma {:induction false} EncodeURIComponentUnreserved(s: string)
    requires forall i :: 0 <= i < |s| ==> IsUriUnreserved(s[i])
    ensures EncodeURIComponent(s) == s
  {
    if s != [] {
      EncodeURIComponentUnreserved(s[1..]);
      assert [s[0]] + s[1..] == s;
    }
  }

  lemma UnescapeFormEncodeByte(b: Byte, rest: string)
    ensures Unescape(FormEncodeByte(b) + rest, true) == Prepend([b], Unescape(rest, true))
  {
    if b == 0x20 || IsFormSafe(b) {
      assert (FormEncodeByte(b) + rest)[1..] == rest;
    } else {
      UnescapeEscapeByte(b, rest, true);
    }
  }

  lemma {:induction false} UnescapeFormEncodeBytes(bs: seq<Byte>)
    ensures Unescape(FormEncodeBytes(bs), true) == Some(bs)
  {
    if bs != [] {
      UnescapeFormEncodeByte(bs[0], FormEncodeBytes(bs[1..]));
      UnescapeFormEncodeBytes(bs[1..]);
      assert [bs[0]] + bs[1..] == bs;
    }
  }

  /** Round trip of the form serializer. */
  lemma FormDecodeEncode(s: string)
    ensures FormDecode(FormEncode(s)) == Some(s)
  {
    UnescapeFormEncodeBytes(Utf8.Encode(s));
    Utf8.DecodeEncode(s);
  }

  lemma {:induction false} EncodeURIComponentAppend(a: string, b: string)
    ensures EncodeURIComponent(a + b) == EncodeURIComponent(a) + EncodeURIComponent(b)
  {
    if a != [] {
      assert (a + b)[1..] == a[1..] + b;
      EncodeURIComponentAppend(a[1..], b);
    } else {
      assert a + b == b;
    }
  }

  lemma {:induction false} FormEncodeBytesAppend(a: seq<Byte>, b: seq<Byte>)
    ensures FormEncodeBytes(a + b) == FormEncodeBytes(a) + FormEncodeBytes(b)
  {
    if a != [] {
      assert (a + b)[1..] == a[1..] + b;
      FormEncodeBytesAppend(a[1..], b);
    } else {
      assert a + b == b;
    }
  }

  /** Every character of `s` is a letter, a digit or one of `*-._`. */
  predicate AllFormSafe(s: string)
  {
    s == [] || (s[0] as int < 0x80 && IsFormSafe(s[0] as int) && AllFormSafe(s[1..]))
  }

  /** A string of letters, digits and `*-._` is its own form encoding. */
  lemma {:induction false} FormEncodeSafe(s: string)
    requires AllFormSafe(s)
    ensures FormEncode(s) == s
  {
    if s != [] {
      FormEncodeBytesAppend(Utf8.EncodeChar(s[0]), Utf8.Encode(s[1..]));
      FormEncodeSafe(s[1..]);
      assert [s[0]] + s[1..] == s;
    }
  }

  /** `encodeURIComponent("key!:")` is `key!%3A`: '!' is kept, ':' is escaped. */
  lemma EncodeURIComponentExample()
    ensures EncodeURIComponent("key!:") == "key!%3A"
  {
    EncodeURIComponentAppend("key!", ":");
    EncodeURIComponentUnreserved("key!");
    assert EncodeURIComponent(":") == "%3A" by {
      assert !IsUriUnreserved(':');
      assert Utf8.EncodeChar(':') == [0x3A];
      assert EscapeBytes([0x3A]) == "%3A";
    }
    assert "key!" + ":" == "key!:";
  }
}
