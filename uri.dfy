/** ECMAScript `encodeURIComponent`: characters outside its unescaped set
    (the unreserved characters of section 2.3 of RFC 3986 plus `!*'()`) are
    written as the percent-encoded (section 2.1 of RFC 3986) bytes of their
    UTF-8 form, with upper-case hexadecimal digits. */
module UriEncoding {

  /** The characters `encodeURIComponent` leaves as they are. */
  predicate Unescaped(c: char) {
    || ('A' <= c <= 'Z') || ('a' <= c <= 'z') || ('0' <= c <= '9')
    || c == '-' || c == '_' || c == '.' || c == '!' || c == '~'
    || c == '*' || c == '\'' || c == '(' || c == ')'
  }

  /** Upper-case hexadecimal digit for 0..15. */
  function HexDigit(n: nat): (d: char)
    requires n < 16
    ensures Unescaped(d)
  {
    if n < 10 then (('0' as int) + n) as char else (('A' as int) + n - 10) as char
  }

  /** Every character an encoded string can hold. */
  predicate EncodedChar(c: char) {
    Unescaped(c) || c == '%'
  }

  type Byte = b: nat | b < 256

  /** UTF-8 bytes of one Unicode scalar value. */
  function Utf8(c: char): (bytes: seq<Byte>)
    ensures 1 <= |bytes| <= 4
    ensures |bytes| == 1 <==> (c as int) < 0x80
  {
    var cp := c as int;
    if cp < 0x80 then [cp]
    else if cp < 0x800 then [0xC0 + cp / 0x40, 0x80 + cp % 0x40]
    else if cp < 0x10000 then [0xE0 + cp / 0x1000, 0x80 + (cp / 0x40) % 0x40, 0x80 + cp % 0x40]
    else [0xF0 + cp / 0x40000, 0x80 + (cp / 0x1000) % 0x40, 0x80 + (cp / 0x40) % 0x40, 0x80 + cp % 0x40]
  }

  /** `%XY` for one byte. */
  function PercentByte(b: Byte): (r: string)
    ensures |r| == 3 && r[0] == '%'
  {
    ['%', HexDigit(b / 16), HexDigit(b % 16)]
  }

  function PercentBytes(bytes: seq<Byte>): (r: string)
    ensures |r| == 3 * |bytes|
  {
    if bytes == [] then [] else PercentByte(bytes[0]) + PercentBytes(bytes[1..])
  }

  function EncodeChar(c: char): (r: string)
    ensures Unescaped(c) ==> r == [c]
    ensures !Unescaped(c) ==> |r| == 3 * |Utf8(c)| && r[0] == '%'
  {
    if Unescaped(c) then [c] else PercentBytes(Utf8(c))
  }

  /** `encodeURIComponent(s)`. */
  function Encode(s: string): (r: string)
    ensures |r| >= |s|
  {
    if s == [] then [] else EncodeChar(s[0]) + Encode(s[1..])
  }

  lemma {:induction false} PercentBytesAlphabet(bytes: seq<Byte>)
    ensures forall i :: 0 <= i < |PercentBytes(bytes)| ==> EncodedChar(PercentBytes(bytes)[i])
  {
    if bytes != [] {
      PercentBytesAlphabet(bytes[1..]);
      var head, tail := PercentByte(bytes[0]), PercentBytes(bytes[1..]);
      forall i | 0 <= i < |head + tail| ensures EncodedChar((head + tail)[i]) {
        if i >= |head| {
          assert (head + tail)[i] == tail[i - |head|];
        }
      }
    }
  }

  lemma EncodeCharAlphabet(c: char)
    ensures forall i :: 0 <= i < |EncodeChar(c)| ==> EncodedChar(EncodeChar(c)[i])
  {
    if !Unescaped(c) {
      PercentBytesAlphabet(Utf8(c));
    }
  }

  /** The output holds only unescaped characters and `%`. */
  lemma {:induction false} EncodeAlphabet(s: string)
    ensures forall i :: 0 <= i < |Encode(s)| ==> EncodedChar(Encode(s)[i])
  {
    if s != [] {
      EncodeAlphabet(s[1..]);
      EncodeCharAlphabet(s[0]);
      var head, tail := EncodeChar(s[0]), Encode(s[1..]);
      forall i | 0 <= i < |head + tail| ensures EncodedChar((head + tail)[i]) {
        if i >= |head| {
          assert (head + tail)[i] == tail[i - |head|];
        }
      }
    }
  }

  /** So an encoded value never holds a character that separates the parts
      of a query string or of a comma-joined list. */
  lemma NoSeparators(s: string)
    ensures '&' !in Encode(s) && '=' !in Encode(s) && '?' !in Encode(s) && ',' !in Encode(s)
  {
    EncodeAlphabet(s);
    AlphabetExcludesSeparators(Encode(s));
  }

  lemma AlphabetExcludesSeparators(r: string)
    requires forall i :: 0 <= i < |r| ==> EncodedChar(r[i])
    ensures '&' !in r && '=' !in r && '?' !in r && ',' !in r
  {
  }

  /** A string made only of unescaped characters is its own encoding. */
  lemma {:induction false} EncodeUnescaped(s: string)
    requires forall i :: 0 <= i < |s| ==> Unescaped(s[i])
    ensures Encode(s) == s
  {
    if s != [] {
      EncodeUnescaped(s[1..]);
      assert s == [s[0]] + s[1..];
    }
  }

  /** Encoding distributes over concatenation. */
  lemma {:induction false} EncodeAppend(s: string, t: string)
    ensures Encode(s + t) == Encode(s) + Encode(t)
  {
    if s != [] {
      assert (s + t)[1..] == s[1..] + t;
      EncodeAppend(s[1..], t);
    } else {
      assert s + t == t;
    }
  }
}
