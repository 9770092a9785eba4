/** The check of a mainnet native-SegWit address (scripts/finalize_public_identity.py:60-140;
    BIP 173, "Segwit address format"; BIP 350). Text is ASCII. */
module Address {
  import opened Bytes
  import opened BitGroups
  import opened Bech32

  // ---- text -----------------------------------------------------------------------

  function LowerChar(c: char): char {
    if 'A' <= c <= 'Z' then (c as int + 32) as char else c
  }

  function UpperChar(c: char): char {
    if 'a' <= c <= 'z' then (c as int - 32) as char else c
  }

  function Lower(text: string): (r: string)
    ensures |r| == |text| && forall i :: 0 <= i < |text| ==> r[i] == LowerChar(text[i])
  {
    seq(|text|, i requires 0 <= i < |text| => LowerChar(text[i]))
  }

  function Upper(text: string): (r: string)
    ensures |r| == |text| && forall i :: 0 <= i < |text| ==> r[i] == UpperChar(text[i])
  {
    seq(|text|, i requires 0 <= i < |text| => UpperChar(text[i]))
  }

  predicate IsBlank(c: char) {
    c == ' ' || '\t' <= c <= '\r' || 28 as char <= c <= 31 as char
  }

  /** `str.strip`. */
  function Strip(text: string): string {
    if text != "" && IsBlank(text[0]) then Strip(text[1..])
    else if text != "" && IsBlank(text[|text| - 1]) then Strip(text[..|text| - 1])
    else text
  }

  function SymbolOf(c: char): Option<Word> {
    if c == 'q' then Some(0) else if c == 'p' then Some(1)
    else if c == 'z' then Some(2) else if c == 'r' then Some(3)
    else if c == 'y' then Some(4) else if c == '9' then Some(5)
    else if c == 'x' then Some(6) else if c == '8' then Some(7)
    else if c == 'g' then Some(8) else if c == 'f' then Some(9)
    else if c == '2' then Some(10) else if c == 't' then Some(11)
    else if c == 'v' then Some(12) else if c == 'd' then Some(13)
    else if c == 'w' then Some(14) else if c == '0' then Some(15)
    else if c == 's' then Some(16) else if c == '3' then Some(17)
    else if c == 'j' then Some(18) else if c == 'n' then Some(19)
    else if c == '5' then Some(20) else if c == '4' then Some(21)
    else if c == 'k' then Some(22) else if c == 'h' then Some(23)
    else if c == 'c' then Some(24) else if c == 'e' then Some(25)
    else if c == '6' then Some(26) else if c == 'm' then Some(27)
    else if c == 'u' then Some(28) else if c == 'a' then Some(29)
    else if c == '7' then Some(30) else if c == 'l' then Some(31)
    else None
  }

  lemma SymbolsDiffer(c: char, d: char)
    requires SymbolOf(c).Some? && SymbolOf(c) == SymbolOf(d)
    ensures c == d && c != '1' && SymbolOf(c).value < 32
  {
  }

  /** The data part; nothing when a character is not in the alphabet. */
  function SymbolsOf(text: string): (r: Option<seq<Word>>)
    ensures r.Some? ==> |r.value| == |text| && forall i :: 0 <= i < |text| ==> SymbolOf(text[i]) == Some(r.value[i])
    ensures r.None? ==> exists i :: 0 <= i < |text| && SymbolOf(text[i]).None?
  {
    if text == "" then Some([])
    else
      match (SymbolsOf(text[..|text| - 1]), SymbolOf(text[|text| - 1]))
      case (Some(rest), Some(last)) => Some(rest + [last])
      case _ => None
  }

  /** `_bech32_hrp_expand`. */
  function HrpExpand(hrp: string): seq<Word> {
    seq(|hrp|, i requires 0 <= i < |hrp| => (hrp[i] as int / 32) as bv32) + [0]
    + seq(|hrp|, i requires 0 <= i < |hrp| => (hrp[i] as int % 32) as bv32)
  }

  function Numbers(symbols: seq<Word>): (r: seq<int>)
    ensures |r| == |symbols|
  {
    seq(|symbols|, i requires 0 <= i < |symbols| => symbols[i] as int)
  }

  // ---- what an address is ---------------------------------------------------------

  const BECH32M: Word := 0x2BC8_30A3

  predicate IsProgramLength(version: Word, n: nat) {
    2 <= n <= 40 && (version == 0 ==> n == 20 || n == 32)
  }

  /** The witness program that the symbols between version and checksum spell. */
  ghost predicate HasProgram(version: Word, symbols: seq<Word>) {
    exists program :: IsConversion(Numbers(symbols), 5, 8, false, Some(program)) && IsProgramLength(version, |program|)
  }

  ghost predicate IsData(data: seq<Word>) {
    && |data| >= 7 && data[0] <= 16
    && Checksum(1, HrpExpand("bc") + data) == (if data[0] == 0 then 1 else BECH32M)
    && HasProgram(data[0], data[1..|data| - 6])
  }

  ghost predicate IsAddress(address: string) {
    && 14 <= |address| <= 90 && address[0] == 'b' && address[1] == 'c' && address[2] == '1'
    && match SymbolsOf(address[3..]) { case Some(data) => IsData(data) case None => false }
  }

  predicate IsUniform(text: string) {
    Lower(text) == text || Upper(text) == text
  }

  // ---- the check ------------------------------------------------------------------

  /** `rfind`. */
  method LastIndex(text: string, c: char) returns (at: int)
    ensures -1 <= at < |text|
    ensures at >= 0 ==> text[at] == c
    ensures forall i :: at < i < |text| ==> text[i] != c
  {
    at := |text| - 1;
    while at >= 0 && text[at] != c
      invariant -1 <= at < |text|
      invariant forall i :: at < i < |text| ==> text[i] != c
    {
      at := at - 1;
    }
  }

  /** The checks after the data part has been read. */
  method CheckData(data: seq<Word>) returns (ok: bool)
    requires |data| >= 6
    ensures ok <==> IsData(data)
  {
    var checksum := Polymod(HrpExpand("bc") + data);
    if checksum != 1 && checksum != BECH32M {
      return false;
    }
    if |data| == 6 {
      return false;
    }
    var version := data[0];
    if version > 16 {
      return false;
    }
    var symbols := data[1..|data| - 6];
    var program := ConvertBits(Numbers(symbols), 5, 8, false);
    ProgramUnique(symbols, program);
    if program.None? || !(2 <= |program.value| <= 40) {
      return false;
    }
    if version == 0 {
      if checksum != 1 || (|program.value| != 20 && |program.value| != 32) {
        return false;
      }
    } else if checksum != BECH32M {
      return false;
    }
    ok := true;
  }

  /** The conversion has one result. */
  lemma ProgramUnique(symbols: seq<Word>, program: Option<seq<int>>)
    requires IsConversion(Numbers(symbols), 5, 8, false, program)
    ensures forall other :: IsConversion(Numbers(symbols), 5, 8, false, Some(other)) ==> program == Some(other)
  {
    forall other | IsConversion(Numbers(symbols), 5, 8, false, Some(other))
      ensures program == Some(other)
    {
      ConversionUnique(Numbers(symbols), 5, 8, program, other);
    }
  }

  /** The checks on the lower-case text, once its characters and its length have been looked at. */
  method CheckNormalised(address: string) returns (ok: bool)
    requires 14 <= |address| <= 90
    ensures ok <==> IsAddress(address)
  {
    AddressShape(address);
    var separator := LastIndex(address, '1');
    SeparatorAt(address, separator);
    ok := false;
    if 1 <= separator <= |address| - 7 && address[..separator] == ['b', 'c'] {
      ShapeAfter(address);
      var data := SymbolsOf(address[separator + 1..]);
      if data.Some? {
        ok := CheckData(data.value);
      }
    }
  }

  lemma LowerControl(text: string, i: nat)
    requires i < |text| && IsControl(text[i])
    ensures !IsAddress(Lower(text))
  {
    AddressShape(Lower(text));
    NotInAddress(Lower(text), i);
  }

  /** `validate_bitcoin_address`; nothing when it raises. */
  method ValidateBitcoinAddress(value: string) returns (r: Option<string>)
    ensures r.Some? <==> IsUniform(Strip(value)) && IsAddress(Lower(Strip(value)))
    ensures r.Some? ==> r.value == Lower(Strip(value))
  {
    var address := Strip(value);
    if exists i :: 0 <= i < |address| && IsControl(address[i]) {
      ghost var i :| 0 <= i < |address| && IsControl(address[i]);
      LowerControl(address, i);
      return None;
    }
    if !(14 <= |address| <= 90) {
      return None;
    }
    if !IsUniform(address) {
      return None;
    }
    var normalised := Lower(address);
    var ok := CheckNormalised(normalised);
    r := if ok then Some(normalised) else None;
  }

  /** The part of an address that can be seen character by character. */
  predicate HasShape(address: string) {
    && 14 <= |address| <= 90 && address[0] == 'b' && address[1] == 'c' && address[2] == '1'
    && forall i :: 3 <= i < |address| ==> SymbolOf(address[i]).Some?
  }

  lemma AddressShape(address: string)
    ensures IsAddress(address) ==> HasShape(address)
  {
    if IsAddress(address) {
      forall i | 3 <= i < |address|
        ensures SymbolOf(address[i]).Some?
      {
        assert address[3..][i - 3] == address[i];
      }
    }
  }

  predicate IsControl(c: char) {
    c == '\n' || c == '\r' || c == '\t' || c == ' '
  }

  lemma NoSuchSymbol(c: char)
    requires c == '1' || IsControl(c)
    ensures SymbolOf(c).None?
  {
  }

  lemma NotInAddress(address: string, i: nat)
    requires i < |address| && IsControl(address[i])
    ensures !HasShape(address)
  {
    NoSuchSymbol(address[i]);
  }

  /** No symbol is the separator, so the last separator is the one after "bc". */
  lemma SeparatorAt(address: string, at: int)
    requires -1 <= at < |address| && (at >= 0 ==> address[at] == '1')
    requires forall i :: at < i < |address| ==> address[i] != '1'
    ensures HasShape(address) ==> at == 2 && address[..at] == ['b', 'c']
  {
    NoSuchSymbol('1');
    assert HasShape(address) ==> at == 2;
  }

  lemma ShapeAfter(address: string)
    requires 14 <= |address| <= 90 && address[2] == '1' && address[..2] == ['b', 'c']
    ensures IsAddress(address) <==> SymbolsOf(address[3..]).Some? && IsData(SymbolsOf(address[3..]).value)
  {
    assert address[0] == address[..2][0] && address[1] == address[..2][1];
  }

  // ---- errors ---------------------------------------------------------------------

  lemma SymbolAt(address: string, data: seq<Word>, i: nat)
    requires |address| >= 3 && SymbolsOf(address[3..]) == Some(data) && 3 <= i < |address|
    ensures SymbolOf(address[i]) == Some(data[i - 3]) && data[i - 3] < 32
  {
    assert address[3..][i - 3] == address[i];
    SymbolsDiffer(address[i], address[i]);
  }

  lemma SymbolsAgree(a: string, b: string, x: seq<Word>, y: seq<Word>, i: nat)
    requires |a| == |b| >= 3 && SymbolsOf(a[3..]) == Some(x) && SymbolsOf(b[3..]) == Some(y) && 3 <= i < |a|
    ensures x[i - 3] == y[i - 3] <==> a[i] == b[i]
  {
    SymbolAt(a, x, i);
    SymbolAt(b, y, i);
    if x[i - 3] == y[i - 3] {
      SymbolsDiffer(a[i], b[i]);
    }
  }

  ghost predicate DifferWithin(a: string, b: string, from: nat, to: nat) {
    |a| == |b| && from <= to <= |a| && forall i :: 0 <= i < |a| && !(from <= i < to) ==> a[i] == b[i]
  }

  /** Data symbols that differ within six consecutive places have different checksums. */
  lemma DataDiffers(hrp: seq<Word>, x: seq<Word>, y: seq<Word>, lo: nat, hi: nat)
    requires |x| == |y| && lo <= hi <= |x| && hi <= lo + 6 && x != y
    requires x[..lo] == y[..lo] && x[hi..] == y[hi..] && AreSymbols(x) && AreSymbols(y)
    ensures Checksum(1, hrp + x) != Checksum(1, hrp + y)
  {
    var before, after := hrp + x[..lo], x[hi..];
    assert x == x[..lo] + x[lo..hi] + after && y == x[..lo] + y[lo..hi] + after;
    assert hrp + x == before + x[lo..hi] + after;
    assert hrp + y == before + y[lo..hi] + after;
    BurstDetected(1, before, x[lo..hi], y[lo..hi], after);
  }

  /** Different texts that differ within six consecutive characters of the data part have
      different checksums. */
  lemma ChecksumsDiffer(a: string, b: string, from: nat, to: nat, x: seq<Word>, y: seq<Word>)
    requires a != b && DifferWithin(a, b, from, to) && 3 <= from && to <= from + 6
    requires SymbolsOf(a[3..]) == Some(x) && SymbolsOf(b[3..]) == Some(y)
    ensures Checksum(1, HrpExpand("bc") + x) != Checksum(1, HrpExpand("bc") + y)
  {
    SymbolsDifferWithin(a, b, from, to, x, y);
    DataDiffers(HrpExpand("bc"), x, y, from - 3, to - 3);
  }

  lemma SymbolsDifferWithin(a: string, b: string, from: nat, to: nat, x: seq<Word>, y: seq<Word>)
    requires a != b && DifferWithin(a, b, from, to) && 3 <= from
    requires SymbolsOf(a[3..]) == Some(x) && SymbolsOf(b[3..]) == Some(y)
    ensures |x| == |y| == |a| - 3 && x != y && AreSymbols(x) && AreSymbols(y)
    ensures x[..from - 3] == y[..from - 3] && x[to - 3..] == y[to - 3..]
  {
    forall i | 0 <= i < |x|
      ensures (x[i] == y[i] <==> a[i + 3] == b[i + 3]) && x[i] < 32 && y[i] < 32
    {
      SymbolsAgree(a, b, x, y, i + 3);
      SymbolAt(a, x, i + 3);
      SymbolAt(b, y, i + 3);
    }
    var i :| 0 <= i < |a| && a[i] != b[i];
    assert x[i - 3] != y[i - 3];
  }

  lemma DataOf(address: string) returns (data: seq<Word>)
    requires IsAddress(address)
    ensures |address| > 3 && SymbolsOf(address[3..]) == Some(data) && |data| > 0
    ensures Checksum(1, HrpExpand("bc") + data) == (if data[0] == 0 then 1 else BECH32M)
    ensures SymbolOf(address[3]) == Some(data[0])
  {
    data := SymbolsOf(address[3..]).value;
    SymbolAt(address, data, 3);
  }

  /** An error within six consecutive characters behind the witness version is always found. */
  lemma ErrorDetected(a: string, b: string, from: nat, to: nat)
    requires IsAddress(a) && a != b && DifferWithin(a, b, from, to) && 4 <= from && to <= from + 6
    ensures !IsAddress(b)
  {
    if IsAddress(b) {
      var x := DataOf(a);
      var y := DataOf(b);
      ChecksumsDiffer(a, b, from, to, x, y);
    }
  }

  /** With the witness version in reach, an error can only go unnoticed by turning version zero,
      which uses the one constant, into another version, which uses the other, or back. */
  lemma ErrorChangesVersion(a: string, b: string, from: nat, to: nat)
    requires IsAddress(a) && IsAddress(b) && a != b && DifferWithin(a, b, from, to) && 3 <= from && to <= from + 6
    ensures a[3] == 'q' <==> b[3] != 'q'
  {
    var x := DataOf(a);
    var y := DataOf(b);
    ChecksumsDiffer(a, b, from, to, x, y);
    SymbolsDiffer('q', 'q');
    if SymbolOf(a[3]) == Some(0) {
      SymbolsDiffer('q', a[3]);
    }
    if SymbolOf(b[3]) == Some(0) {
      SymbolsDiffer('q', b[3]);
    }
  }
}
