/** ECMAScript `decodeURIComponent`, as the inverse that gives the loader's
    encoded parameter values their meaning: every `%XY` run is read as the
    UTF-8 bytes of one character, and an ill-formed run is a `URIError`. */
module UriDecoding {

  import opened Js
  import opened UriEncoding

  /** Value of a hexadecimal digit of either case, -1 for any other
      character. */
  function HexValue(d: char): (v: int)
    ensures -1 <= v < 16
  {
    if '0' <= d <= '9' then d as int - '0' as int
    else if 'A' <= d <= 'F' then d as int - 'A' as int + 10
    else if 'a' <= d <= 'f' then d as int - 'a' as int + 10
    else -1
  }

  /** The byte written as `%XY` at character 3 * j of `r`, if one is. */
  function ByteAt(r: string, j: nat): Option<Byte> {
    if 3 * j + 3 <= |r| && r[3 * j] == '%' && HexValue(r[3 * j + 1]) >= 0 && HexValue(r[3 * j + 2]) >= 0
    then Some(16 * HexValue(r[3 * j + 1]) + HexValue(r[3 * j + 2]))
    else None
  }

  /** The `n` bytes written as `%XY` runs at the front of `r`. */
  function BytesAt(r: string, n: nat): (b: Option<seq<Byte>>)
    ensures b.Some? ==> |b.value| == n && 3 * n <= |r|
  {
    if n == 0 then Some([])
    else
      match BytesAt(r, n - 1)
      case None => None
      case Some(bs) =>
        match ByteAt(r, n - 1)
        case None => None
        case Some(x) => Some(bs + [x])
  }

  /** How many bytes a UTF-8 sequence with this first byte has; 0 when the
      byte cannot start one. */
  function SequenceLength(lead: Byte): (n: nat)
    ensures n <= 4
  {
    if lead < 0x80 then 1
    else if 0xC0 <= lead < 0xE0 then 2
    else if 0xE0 <= lead < 0xF0 then 3
    else if 0xF0 <= lead < 0xF8 then 4
    else 0
  }

  /** A byte of the form `10xxxxxx`. */
  predicate Continuation(x: Byte) {
    0x80 <= x < 0xC0
  }

  /** The code point the payload bits of a sequence spell. */
  function CodePoint(bytes: seq<Byte>): int
    requires 1 <= |bytes| <= 4
  {
    var b: seq<int> := bytes;
    if |b| == 1 then b[0]
    else if |b| == 2 then (b[0] - 0xC0) * 0x40 + (b[1] - 0x80)
    else if |b| == 3 then (b[0] - 0xE0) * 0x1000 + (b[1] - 0x80) * 0x40 + (b[2] - 0x80)
    else (b[0] - 0xF0) * 0x40000 + (b[1] - 0x80) * 0x1000 + (b[2] - 0x80) * 0x40 + (b[3] - 0x80)
  }

  /** The smallest code point a sequence of `n` bytes may carry; anything
      below is an overlong form. */
  function MinCodePoint(n: nat): int {
    if n <= 1 then 0 else if n == 2 then 0x80 else if n == 3 then 0x800 else 0x10000
  }

  /** The character a sequence encodes, or None when the sequence is not a
      valid UTF-8 encoding: a bad continuation byte, an overlong form, a
      surrogate, or a value above U+10FFFF. */
  function Scalar(bytes: seq<Byte>): Option<char>
    requires 1 <= |bytes| <= 4
  {
    var cp := CodePoint(bytes);
    if exists i :: 1 <= i < |bytes| && !Continuation(bytes[i]) then None
    else if cp < MinCodePoint(|bytes|) || (0xD800 <= cp < 0xE000) || cp > 0x10FFFF then None
    else Some(cp as char)
  }

  /** The character an escape run at the front of `r` stands for, with the
      number of characters the run takes. */
  function DecodeEscape(r: string): (e: Option<(char, nat)>)
    ensures e.Some? ==> 3 <= e.value.1 <= |r|
  {
    match ByteAt(r, 0)
    case None => None
    case Some(lead) =>
      var n := SequenceLength(lead);
      if n == 0 then None
      else
        match BytesAt(r, n)
        case None => None
        case Some(bytes) =>
          match Scalar(bytes)
          case None => None
          case Some(c) => Some((c, 3 * n))
  }

  function Prepend(c: char, rest: Option<string>): Option<string> {
    match rest
    case None => None
    case Some(t) => Some([c] + t)
  }

  /** `decodeURIComponent(r)`: None stands for the `URIError` it throws. */
  function Decode(r: string): Option<string>
    decreases |r|
  {
    if r == [] then Some([])
    else if r[0] != '%' then Prepend(r[0], Decode(r[1..]))
    else
      match DecodeEscape(r)
      case None => None
      case Some((c, used)) => Prepend(c, Decode(r[used..]))
  }

  // ---------------------------------------------------------------------
  // Decoding undoes encoding.

  lemma HexValueOfDigit(n: nat)
    requires n < 16
    ensures HexValue(HexDigit(n)) == n
  {
  }

  /** Where the `j`-th byte's escape sits in `PercentBytes`. */
  lemma {:induction false} PercentBytesAt(bytes: seq<Byte>, j: nat)
    requires j < |bytes|
    ensures var p := PercentBytes(bytes);
      && p[3 * j] == '%'
      && p[3 * j + 1] == HexDigit(bytes[j] / 16)
      && p[3 * j + 2] == HexDigit(bytes[j] % 16)
  {
    if j > 0 {
      PercentBytesAt(bytes[1..], j - 1);
      var head, tail := PercentByte(bytes[0]), PercentBytes(bytes[1..]);
      assert PercentBytes(bytes) == head + tail;
      assert bytes[1..][j - 1] == bytes[j];
    }
  }

  /** An escape whose digits are a byte's reads back as that byte. */
  lemma ByteAtDigits(r: string, j: nat, b: Byte)
    requires 3 * j + 3 <= |r| && r[3 * j] == '%'
    requires r[3 * j + 1] == HexDigit(b / 16) && r[3 * j + 2] == HexDigit(b % 16)
    ensures ByteAt(r, j) == Some(b)
  {
    HexValueOfDigit(b / 16);
    HexValueOfDigit(b % 16);
  }

  lemma ByteAtPercent(bytes: seq<Byte>, rest: string, j: nat)
    requires j < |bytes|
    ensures ByteAt(PercentBytes(bytes) + rest, j) == Some(bytes[j])
  {
    var p := PercentBytes(bytes);
    PercentBytesAt(bytes, j);
    var r := p + rest;
    assert r[3 * j] == p[3 * j] && r[3 * j + 1] == p[3 * j + 1] && r[3 * j + 2] == p[3 * j + 2];
    ByteAtDigits(r, j, bytes[j]);
  }

  lemma {:induction false} BytesAtPercent(bytes: seq<Byte>, rest: string, k: nat)
    requires k <= |bytes|
    ensures BytesAt(PercentBytes(bytes) + rest, k) == Some(bytes[..k])
  {
    if k > 0 {
      BytesAtPercent(bytes, rest, k - 1);
      ByteAtPercent(bytes, rest, k - 1);
      assert bytes[..k - 1] + [bytes[k - 1]] == bytes[..k];
    }
  }

  /** The UTF-8 sequence of a character is valid, says how long it is, and
      spells the character back. */
  lemma Utf8Decodes(c: char)
    ensures SequenceLength(Utf8(c)[0]) == |Utf8(c)|
    ensures Scalar(Utf8(c)) == Some(c)
  {
    var cp := c as int;
    var bytes := Utf8(c);
    if cp < 0x80 {
    } else if cp < 0x800 {
      assert CodePoint(bytes) == cp;
    } else if cp < 0x10000 {
      var q := cp / 0x40;
      assert cp / 0x1000 == q / 0x40;
      assert CodePoint(bytes) == cp;
    } else {
      var q := cp / 0x40;
      var q2 := q / 0x40;
      assert cp / 0x1000 == q2;
      assert cp / 0x40000 == q2 / 0x40;
      assert CodePoint(bytes) == cp;
    }
    assert !exists i :: 1 <= i < |bytes| && !Continuation(bytes[i]);
  }

  lemma EscapeDecodes(c: char, rest: string)
    requires !Unescaped(c)
    ensures DecodeEscape(EncodeChar(c) + rest) == Some((c, 3 * |Utf8(c)|))
  {
    var bytes := Utf8(c);
    var r := PercentBytes(bytes) + rest;
    ByteAtPercent(bytes, rest, 0);
    Utf8Decodes(c);
    BytesAtPercent(bytes, rest, |bytes|);
    assert bytes[..|bytes|] == bytes;
  }

  /** Decoding reads one encoded character off the front. */
  lemma DecodeFront(c: char, rest: string)
    ensures Decode(EncodeChar(c) + rest) == Prepend(c, Decode(rest))
  {
    var r := EncodeChar(c) + rest;
    if Unescaped(c) {
      assert r[1..] == rest;
    } else {
      EscapeDecodes(c, rest);
      assert r[3 * |Utf8(c)|..] == rest;
    }
  }

  /** `decodeURIComponent(encodeURIComponent(s)) == s`: no information is
      lost in a query parameter's value. */
  lemma {:induction false} DecodeEncode(s: string)
    ensures Decode(Encode(s)) == Some(s)
  {
    if s != [] {
      DecodeEncode(s[1..]);
      DecodeFront(s[0], Encode(s[1..]));
      assert [s[0]] + s[1..] == s;
    }
  }
}
