/** Hexadecimal text as Python's `bytes.hex` and `bytes.fromhex` read and write it. */
module Hex {
  import opened Bytes

  predicate IsSpace(c: char) {
    c == ' ' || '\t' <= c <= '\r'
  }

  function DigitValue(c: char): (r: Option<int>)
    ensures r.Some? ==> 0 <= r.value < 16
  {
    if '0' <= c <= '9' then Some(c as int - '0' as int)
    else if 'a' <= c <= 'f' then Some(c as int - 'a' as int + 10)
    else if 'A' <= c <= 'F' then Some(c as int - 'A' as int + 10)
    else None
  }

  function HexDigit(n: int): (c: char)
    requires 0 <= n < 16
    ensures DigitValue(c) == Some(n) && !IsSpace(c)
  {
    if n < 10 then ('0' as int + n) as char else ('a' as int + n - 10) as char
  }

  function ToHex(bytes: seq<Byte>): (text: string)
    ensures |text| == 2 * |bytes|
  {
    if bytes == [] then ""
    else [HexDigit(bytes[0] / 16), HexDigit(bytes[0] % 16)] + ToHex(bytes[1..])
  }

  /** White space is skipped in front of each pair of digits, either case is accepted. */
  function FromHex(text: string): (r: Option<seq<Byte>>)
    ensures r.Some? ==> 2 * |r.value| <= |text|
  {
    if text == "" then Some([])
    else if IsSpace(text[0]) then FromHex(text[1..])
    else if |text| < 2 then None
    else
      match (DigitValue(text[0]), DigitValue(text[1]), FromHex(text[2..]))
      case (Some(hi), Some(lo), Some(rest)) => Some([16 * hi + lo] + rest)
      case _ => None
  }

  lemma {:induction false} FromToHex(bytes: seq<Byte>)
    ensures FromHex(ToHex(bytes)) == Some(bytes)
  {
    if bytes != [] {
      FromToHex(bytes[1..]);
      var text := ToHex(bytes);
      assert text[2..] == ToHex(bytes[1..]);
      assert bytes == [bytes[0]] + bytes[1..];
    }
  }

  lemma ToHexInjective(a: seq<Byte>, b: seq<Byte>)
    requires ToHex(a) == ToHex(b)
    ensures a == b
  {
    FromToHex(a);
    FromToHex(b);
  }

  predicate IsHexDigit(c: char) {
    DigitValue(c).Some?
  }

  lemma {:induction false} ToHexDigits(bytes: seq<Byte>)
    ensures forall c :: c in ToHex(bytes) ==> IsHexDigit(c)
  {
    if bytes != [] {
      ToHexDigits(bytes[1..]);
    }
  }

  /** The check made on every 32-byte identifier: 64 characters that decode to 32 bytes. */
  predicate IsDigestText(text: string) {
    |text| == 64 && match FromHex(text) case Some(raw) => |raw| == 32 case None => false
  }

  /** 64 characters can only decode to 32 bytes when none of them is white space. */
  lemma {:induction false} TightTextIsDigits(text: string)
    requires FromHex(text).Some? && |text| == 2 * |FromHex(text).value|
    ensures forall c :: c in text ==> IsHexDigit(c)
  {
    if text != "" {
      assert !IsSpace(text[0]);
      TightTextIsDigits(text[2..]);
      assert text == [text[0], text[1]] + text[2..];
    }
  }

  /** The bytes a digest text stands for. */
  function Decode(text: string): (d: Digest)
    requires IsDigestText(text)
  {
    FromHex(text).value
  }
}
