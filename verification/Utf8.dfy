/** UTF-8 (RFC 3629). Dafny's `char` is a Unicode scalar value, so text has no lone surrogates. */
module Utf8 {
  import opened Bytes

  function EncodeChar(c: char): (bytes: seq<Byte>)
    ensures 1 <= |bytes| <= 4
    ensures c as int < 0x80 ==> |bytes| == 1
  {
    var n := c as int;
    if n < 0x80 then [n]
    else if n < 0x800 then [0xC0 + n / 64, 0x80 + n % 64]
    else if n < 0x1_0000 then [0xE0 + n / 4096, 0x80 + n / 64 % 64, 0x80 + n % 64]
    else [0xF0 + n / 262144, 0x80 + n / 4096 % 64, 0x80 + n / 64 % 64, 0x80 + n % 64]
  }

  function Encode(text: string): (bytes: seq<Byte>) {
    if text == "" then [] else EncodeChar(text[0]) + Encode(text[1..])
  }

  /** How many bytes a lead byte announces; 0 when it cannot lead. */
  function Length(b: Byte): int {
    if b < 0x80 then 1 else if b < 0xC0 then 0 else if b < 0xE0 then 2 else if b < 0xF0 then 3 else 4
  }

  function CodePoint(b: seq<Byte>): int
    requires 1 <= |b| <= 4
  {
    if |b| == 1 then b[0]
    else if |b| == 2 then 64 * (b[0] as int - 0xC0) + (b[1] as int - 0x80)
    else if |b| == 3 then 64 * (64 * (b[0] as int - 0xE0) + (b[1] as int - 0x80)) + (b[2] as int - 0x80)
    else 64 * (64 * (64 * (b[0] as int - 0xF0) + (b[1] as int - 0x80)) + (b[2] as int - 0x80)) + (b[3] as int - 0x80)
  }

  function Decode(bytes: seq<Byte>): Option<string> {
    if bytes == [] then Some("")
    else
      var count := Length(bytes[0]);
      if count == 0 || |bytes| < count then None
      else
        var code := CodePoint(bytes[..count]);
        if !(0 <= code < 0xD800 || 0xE000 <= code < 0x11_0000) then None
        else if EncodeChar(code as char) != bytes[..count] then None
        else
          match Decode(bytes[count..])
          case Some(rest) => Some([code as char] + rest)
          case None => None
  }

  lemma SplitCode(n: nat)
    ensures n / 4096 == n / 64 / 64 && n / 262144 == n / 64 / 64 / 64
    ensures n == 64 * (n / 64) + n % 64
  {
  }

  lemma DecodeChar(c: char)
    ensures var bytes := EncodeChar(c); Length(bytes[0]) == |bytes| && CodePoint(bytes) == c as int
  {
    SplitCode(c as int);
    SplitCode(c as int / 64);
    SplitCode(c as int / 4096);
  }

  lemma {:induction false} DecodeEncode(text: string)
    ensures Decode(Encode(text)) == Some(text)
  {
    if text != "" {
      var head, tail := EncodeChar(text[0]), Encode(text[1..]);
      DecodeChar(text[0]);
      DecodeEncode(text[1..]);
      var bytes := head + tail;
      assert bytes[..|head|] == head && bytes[|head|..] == tail;
      assert text == [text[0]] + text[1..];
    }
  }
}
