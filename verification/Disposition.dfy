/** The file name of a download header: percent-encoded, and decodable back to the original bytes. */
module Disposition {
  import opened Wrappers

  newtype byte = n: int | 0 <= n < 256

  // RFC 8187, section 3.2.1: attr-char.
  predicate IsAttrChar(c: char) {
    'A' <= c <= 'Z' || 'a' <= c <= 'z' || '0' <= c <= '9' || c in "!#$&+-.^_`|~"
  }

  predicate IsHexDigit(c: char) {
    '0' <= c <= '9' || 'A' <= c <= 'F' || 'a' <= c <= 'f'
  }

  // The bytes that stand for themselves.
  predicate IsKept(b: byte) {
    var n := b as int;
    65 <= n <= 90 || 97 <= n <= 122 || 48 <= n <= 57 || n == 45 || n == 95 || n == 46
  }

  function HexDigit(n: nat): (c: char)
    requires n < 16
    ensures IsHexDigit(c) && HexValue(c) == n
  {
    if n < 10 then (48 + n) as char else (55 + n) as char
  }

  function HexValue(c: char): (n: nat)
    requires IsHexDigit(c)
    ensures n < 16
  {
    if '0' <= c <= '9' then c as int - 48
    else if 'A' <= c <= 'F' then c as int - 55
    else c as int - 87
  }

  function EncodeByte(b: byte): string {
    if IsKept(b) then [b as char] else ['%', HexDigit(b as int / 16), HexDigit(b as int % 16)]
  }

  function Encode(bytes: seq<byte>): string {
    if bytes == [] then [] else EncodeByte(bytes[0]) + Encode(bytes[1..])
  }

  // RFC 8187, section 3.2.1: value-chars is a sequence of attr-char and percent-encoded triplets.
  predicate IsValueChars(s: string) {
    s == [] ||
    (if s[0] == '%' then |s| >= 3 && IsHexDigit(s[1]) && IsHexDigit(s[2]) && IsValueChars(s[3..])
     else IsAttrChar(s[0]) && IsValueChars(s[1..]))
  }

  // RFC 3986, section 2.1: what a recipient reads.
  function Decode(s: string): Option<seq<byte>> {
    if s == [] then Some([])
    else if s[0] == '%' then
      if |s| >= 3 && IsHexDigit(s[1]) && IsHexDigit(s[2]) then
        match Decode(s[3..])
        case Some(rest) => Some([(16 * HexValue(s[1]) + HexValue(s[2])) as byte] + rest)
        case None => None
      else None
    else if s[0] as int < 256 then
      match Decode(s[1..])
      case Some(rest) => Some([s[0] as int as byte] + rest)
      case None => None
    else None
  }

  // The encoded name is made of attr-chars and triplets only, and decodes to the original bytes.
  lemma {:induction false} EncodedNameDecodes(bytes: seq<byte>)
    ensures IsValueChars(Encode(bytes)) && Decode(Encode(bytes)) == Some(bytes)
  {
    if bytes != [] {
      var b, rest := bytes[0], bytes[1..];
      var s := Encode(bytes);
      EncodedNameDecodes(rest);
      if IsKept(b) {
        assert s[1..] == Encode(rest);
      } else {
        assert s[3..] == Encode(rest);
      }
      assert [b] + rest == bytes;
    }
  }

  // The encoding never makes two names one.
  lemma EncodeInjective(a: seq<byte>, b: seq<byte>)
    requires Encode(a) == Encode(b)
    ensures a == b
  {
    EncodedNameDecodes(a);
    EncodedNameDecodes(b);
  }

  const PREFIX := "attachment; filename=\"download\"; filename*=UTF-8''"

  function ContentDisposition(bytes: seq<byte>): string {
    PREFIX + Encode(bytes)
  }

  // What follows the two apostrophes of the header decodes to the name, and nothing in it is a quote, a
  // separator, white space or a control character.
  lemma HeaderCarriesName(bytes: seq<byte>)
    ensures var value := ContentDisposition(bytes)[|PREFIX|..];
            && Decode(value) == Some(bytes)
            && forall i :: 0 <= i < |value| ==> '!' <= value[i] <= '~' && value[i] !in "\"';,"
  {
    EncodedNameDecodes(bytes);
    EncodedIsPrintable(bytes);
    assert ContentDisposition(bytes)[|PREFIX|..] == Encode(bytes);
  }

  lemma {:induction false} EncodedIsPrintable(bytes: seq<byte>)
    ensures forall i :: 0 <= i < |Encode(bytes)| ==> '!' <= Encode(bytes)[i] <= '~' && Encode(bytes)[i] !in "\"';,"
  {
    if bytes != [] {
      EncodedIsPrintable(bytes[1..]);
    }
  }
}
