/** `encodeURIComponent`: every character other than the unreserved marks of section 2.3 of
    RFC 3986 (plus `! ~ * ' ( )`, which JavaScript also leaves alone) becomes the `%XX`
    escapes of its UTF-8 bytes, with upper-case hexadecimal digits. */
module UriEncoding {

  import opened Wrappers

  newtype Byte = b: int | 0 <= b < 256

  /** The characters `encodeURIComponent` leaves as they are. */
  predicate IsUnreserved(c: char) {
    ('A' <= c <= 'Z') || ('a' <= c <= 'z') || ('0' <= c <= '9')
    || c == '-' || c == '_' || c == '.' || c == '!' || c == '~' || c == '*' || c == '\'' || c == '(' || c == ')'
  }

  /** UTF-8 encoding of one Unicode scalar value (RFC 3629, section 3). */
  function Utf8(c: char): (bytes: seq<Byte>)
    ensures 1 <= |bytes| <= 4
    ensures (c as int < 0x80) <==> |bytes| == 1
    ensures c as int < 0x80 ==> bytes[0] as int == c as int
    ensures c as int >= 0x80 ==> forall i :: 0 <= i < |bytes| ==> bytes[i] >= 0x80
  {
    var v := c as int;
    if v < 0x80 then [v as Byte]
    else if v < 0x800 then [(0xC0 + v / 64) as Byte, (0x80 + v % 64) as Byte]
    else if v < 0x10000 then [(0xE0 + v / 4096) as Byte, (0x80 + (v / 64) % 64) as Byte, (0x80 + v % 64) as Byte]
    else [(0xF0 + v / 262144) as Byte, (0x80 + (v / 4096) % 64) as Byte, (0x80 + (v / 64) % 64) as Byte, (0x80 + v % 64) as Byte]
  }

  /** UTF-8 encoding of a string. */
  function Utf8String(s: string): seq<Byte> {
    if s == [] then [] else Utf8(s[0]) + Utf8String(s[1..])
  }

  function HexDigit(d: int): (c: char)
    requires 0 <= d < 16
    ensures IsHexDigit(c) && HexValue(c) == d
  {
    if d < 10 then (48 + d) as char else (55 + d) as char
  }

  predicate IsHexDigit(c: char) {
    ('0' <= c <= '9') || ('A' <= c <= 'F') || ('a' <= c <= 'f')
  }

  function HexValue(c: char): (d: int)
    requires IsHexDigit(c)
    ensures 0 <= d < 16
  {
    if '0' <= c <= '9' then c as int - 48
    else if 'A' <= c <= 'F' then c as int - 55
    else c as int - 87
  }

  /** `%XX` for one byte. */
  function Escape(b: Byte): string {
    ['%', HexDigit(b as int / 16), HexDigit(b as int % 16)]
  }

  function EncodeChar(c: char): string {
    if IsUnreserved(c) then [c]
    else EscapeAll(Utf8(c))
  }

  function EscapeAll(bytes: seq<Byte>): (s: string)
    ensures |s| == 3 * |bytes|
  {
    if bytes == [] then "" else Escape(bytes[0]) + EscapeAll(bytes[1..])
  }

  /** `encodeURIComponent(s)`. */
  function EncodeURIComponent(s: string): (r: string)
    ensures forall i :: 0 <= i < |r| ==> IsUnreserved(r[i]) || r[i] == '%'
                                         || IsHexDigit(r[i])
  {
    if s == [] then ""
    else
      var head := EncodeChar(s[0]);
      assert forall i :: 0 <= i < |head| ==> IsUnreserved(head[i]) || head[i] == '%' || IsHexDigit(head[i]) by {
        if !IsUnreserved(s[0]) {
          EscapeAllChars(Utf8(s[0]));
        }
      }
      head + EncodeURIComponent(s[1..])
  }

  lemma {:induction false} EscapeAllChars(bytes: seq<Byte>)
    ensures forall i :: 0 <= i < |EscapeAll(bytes)| ==> EscapeAll(bytes)[i] == '%' || IsHexDigit(EscapeAll(bytes)[i])
  {
    if bytes != [] {
      EscapeAllChars(bytes[1..]);
      var e := Escape(bytes[0]);
      assert EscapeAll(bytes) == e + EscapeAll(bytes[1..]);
    }
  }

  /** Undo the percent layer: `%XX` gives the byte `XX`, any other ASCII character its code.
      `None` for a malformed escape or a non-ASCII character. */
  function PercentDecode(s: string): Option<seq<Byte>>
  {
    if s == [] then Some([])
    else if s[0] == '%' then
      if |s| >= 3 && IsHexDigit(s[1]) && IsHexDigit(s[2]) then
        match PercentDecode(s[3..])
        case Some(rest) => Some([(HexValue(s[1]) * 16 + HexValue(s[2])) as Byte] + rest)
        case None => None
      else None
    else if s[0] as int < 0x80 then
      match PercentDecode(s[1..])
      case Some(rest) => Some([s[0] as int as Byte] + rest)
      case None => None
    else None
  }

  lemma {:induction false} DecodeEscapes(bytes: seq<Byte>, rest: string)
    requires PercentDecode(rest).Some?
    ensures PercentDecode(EscapeAll(bytes) + rest) == Some(bytes + PercentDecode(rest).value)
  {
    if bytes != [] {
      DecodeEscapes(bytes[1..], rest);
      var b := bytes[0];
      var s := EscapeAll(bytes) + rest;
      assert s == Escape(b) + (EscapeAll(bytes[1..]) + rest);
      assert s[3..] == EscapeAll(bytes[1..]) + rest;
      assert s[0] == '%' && s[1] == HexDigit(b as int / 16) && s[2] == HexDigit(b as int % 16);
      assert (HexValue(s[1]) * 16 + HexValue(s[2])) as Byte == b;
      assert PercentDecode(s) == Some([b] + PercentDecode(s[3..]).value);
      assert bytes + PercentDecode(rest).value == [b] + (bytes[1..] + PercentDecode(rest).value);
    } else {
      assert EscapeAll(bytes) + rest == rest;
      assert bytes + PercentDecode(rest).value == PercentDecode(rest).value;
    }
  }

  /** Decoding the percent escapes of `encodeURIComponent(s)` gives back the UTF-8 bytes of `s`. */
  lemma {:induction false} DecodeEncode(s: string)
    ensures PercentDecode(EncodeURIComponent(s)) == Some(Utf8String(s))
  {
    if s != [] {
      DecodeEncode(s[1..]);
      var rest := EncodeURIComponent(s[1..]);
      if IsUnreserved(s[0]) {
        assert ([s[0]] + rest)[1..] == rest;
      } else {
        DecodeEscapes(Utf8(s[0]), rest);
      }
    }
  }

  /** A string made only of unreserved characters is its own encoding. */
  lemma {:induction false} EncodeUnreserved(s: string)
    requires forall i :: 0 <= i < |s| ==> IsUnreserved(s[i])
    ensures EncodeURIComponent(s) == s
  {
    if s != [] {
      EncodeUnreserved(s[1..]);
    }
  }
}
