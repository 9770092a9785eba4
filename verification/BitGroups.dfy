/** Regrouping bits: `_convert_bits` of scripts/finalize_public_identity.py, the step between
    five-bit symbols and bytes in BIP 173. */
module BitGroups {
  import opened Bytes

  // ---- arithmetic -----------------------------------------------------------------

  lemma Distribute(a: int, b: int, c: int)
    ensures (a + b) * c == a * c + b * c
  {
  }

  lemma Reassociate(a: int, b: int, c: int)
    ensures (a * b) * c == a * (b * c)
  {
  }

  lemma Monotone(a: int, b: int, c: int)
    requires a <= b && c >= 0
    ensures a * c <= b * c
  {
  }

  lemma DivisionUnique(m: int, q: int, r: int, p: int, s: int)
    requires 0 <= r < m && 0 <= s < m && q * m + r == p * m + s
    ensures q == p && r == s
  {
    if q < p {
      Monotone(q + 1, p, m);
      Distribute(q, 1, m);
    } else if p < q {
      Monotone(p + 1, q, m);
      Distribute(p, 1, m);
    }
  }

  lemma ModIs(x: int, m: int, q: int, r: int)
    requires m > 0 && 0 <= r < m && x == q * m + r
    ensures x / m == q && x % m == r
  {
    DivisionUnique(m, q, r, x / m, x % m);
  }

  lemma ModOfProduct(x: int, c: int, p: int)
    requires c > 0 && p > 0
    ensures c * p > 0 && (x % (c * p)) % p == x % p
  {
    Monotone(1, c, p);
    var m := c * p;
    var q, r := x / m, x % m;
    Reassociate(q, c, p);
    Distribute(q * c, r / p, p);
    ModIs(x, p, q * c + r / p, r % p);
  }

  /** Reducing twice is reducing by the smaller power. */
  lemma ModMod(x: int, k: nat, m: nat)
    requires k <= m
    ensures (x % Pow2(m)) % Pow2(k) == x % Pow2(k)
  {
    Pow2Add(m - k, k);
    ModOfProduct(x, Pow2(m - k), Pow2(k));
  }

  lemma SplitProduct(x: int, p: int, s: int)
    requires p > 0 && s > 0
    ensures p * s > 0 && x % (p * s) == ((x / p) % s) * p + x % p
  {
    var y := x / p;
    var q, d := y / s, y % s;
    Monotone(1, s, p);
    Distribute(q * s, d, p);
    Reassociate(q, s, p);
    assert s * p == p * s;
    Monotone(d, s - 1, p);
    Distribute(s, -1, p);
    Monotone(0, d, p);
    ModIs(x, p * s, q, d * p + x % p);
  }

  /** The low `a + b` bits are the middle `b` bits over the low `a` bits. */
  lemma SplitLow(x: int, a: nat, b: nat)
    ensures x % Pow2(a + b) == ((x / Pow2(a)) % Pow2(b)) * Pow2(a) + x % Pow2(a)
  {
    Pow2Add(a, b);
    SplitProduct(x, Pow2(a), Pow2(b));
  }

  /** Shifting a value in keeps what was there. */
  lemma ShiftIn(acc: int, v: int, bits: nat, f: nat)
    requires 0 <= v < Pow2(f)
    ensures (acc * Pow2(f) + v) % Pow2(bits + f) == (acc % Pow2(bits)) * Pow2(f) + v
  {
    var x := acc * Pow2(f) + v;
    ModIs(x, Pow2(f), acc, v);
    SplitLow(x, f, bits);
    assert f + bits == bits + f;
  }

  /** Moving a number up. */
  lemma ScaleUp(high: int, low: int, b: int, f: int, v: int)
    ensures (high * b + low) * f + v == high * (b * f) + (low * f + v)
  {
    Distribute(high * b, low, f);
    Reassociate(high, b, f);
  }

  lemma OneMore(width: int, n: int)
    ensures width * (n + 1) == width * n + width
  {
  }

  // ---- the number a list of groups spells -----------------------------------------

  function Number(groups: seq<int>, width: nat): int {
    if groups == [] then 0
    else Number(groups[..|groups| - 1], width) * Pow2(width) + groups[|groups| - 1]
  }

  ghost predicate AreGroups(groups: seq<int>, width: nat) {
    forall i :: 0 <= i < |groups| ==> 0 <= groups[i] < Pow2(width)
  }

  lemma NumberNext(groups: seq<int>, width: nat, v: int)
    ensures Number(groups + [v], width) == Number(groups, width) * Pow2(width) + v
  {
    assert (groups + [v])[..|groups|] == groups;
  }

  /** As many groups of the same width spell different numbers. */
  lemma {:induction false} NumberInjective(a: seq<int>, b: seq<int>, width: nat)
    requires AreGroups(a, width) && AreGroups(b, width) && |a| == |b| && Number(a, width) == Number(b, width)
    ensures a == b
  {
    if a != [] {
      var n := |a| - 1;
      ModIs(Number(a, width), Pow2(width), Number(a[..n], width), a[n]);
      ModIs(Number(b, width), Pow2(width), Number(b[..n], width), b[n]);
      NumberInjective(a[..n], b[..n], width);
      assert a == a[..n] + [a[n]] && b == b[..n] + [b[n]];
    }
  }

  // ---- the conversion -------------------------------------------------------------

  /** How many bits are left over when `n` bits are cut into groups of `width`. */
  function Spare(n: nat, width: nat): nat
    requires width > 0
  {
    n % width
  }

  /** The same bits in groups of the other width: with padding the last group is filled up with
      zeroes, without it the spare bits are dropped. */
  ghost predicate Regrouped(values: seq<int>, from: nat, to: nat, pad: bool, r: seq<int>)
    requires to > 0
  {
    var n := from * |values|;
    && AreGroups(r, to)
    && if pad then
         && n <= to * |r| < n + to
         && Number(r, to) == Number(values, from) * Pow2(to * |r| - n)
       else
         && to * |r| <= n < to * |r| + to
         && Number(values, from) == Number(r, to) * Pow2(n - to * |r|)
  }

  /** The result of `_convert_bits`. Without padding it refuses a whole group of spare bits and
      spare bits that are not zero. */
  ghost predicate IsConversion(values: seq<int>, from: nat, to: nat, pad: bool, result: Option<seq<int>>)
    requires to > 0
  {
    var spare := Spare(from * |values|, to);
    match result
    case Some(r) => AreGroups(values, from) && Regrouped(values, from, to, pad, r) && (pad || spare < from)
    case None =>
      !AreGroups(values, from) || (!pad && (spare >= from || Number(values, from) % Pow2(spare) != 0))
  }

  /** What the loop keeps: `bits` live bits wait in the accumulator. */
  ghost predicate Waiting(values: seq<int>, from: nat, to: nat, result: seq<int>, acc: int, bits: nat) {
    && AreGroups(result, to)
    && from * |values| == to * |result| + bits
    && Number(values, from) == Number(result, to) * Pow2(bits) + acc % Pow2(bits)
  }

  lemma ValueTaken(
    values: seq<int>, from: nat, to: nat, result: seq<int>, acc: int, bits: nat, v: int, next: int)
    requires Waiting(values, from, to, result, acc, bits) && bits < to && 0 <= v < Pow2(from)
    requires next == (acc * Pow2(from) + v) % Pow2(from + to - 1)
    ensures Waiting(values + [v], from, to, result, next, bits + from)
  {
    NumberNext(values, from, v);
    ModMod(acc * Pow2(from) + v, bits + from, from + to - 1);
    ShiftIn(acc, v, bits, from);
    Pow2Add(bits, from);
    ScaleUp(Number(result, to), acc % Pow2(bits), Pow2(bits), Pow2(from), v);
    OneMore(from, |values|);
  }

  lemma GroupEmitted(values: seq<int>, from: nat, to: nat, result: seq<int>, acc: int, bits: nat, digit: int)
    requires Waiting(values, from, to, result, acc, bits) && bits >= to
    requires digit == (acc / Pow2(bits - to)) % Pow2(to)
    ensures Waiting(values, from, to, result + [digit], acc, bits - to)
  {
    var rest := Pow2(bits - to);
    SplitLow(acc, bits - to, to);
    Pow2Add(to, bits - to);
    NumberNext(result, to, digit);
    ScaleUp(Number(result, to), digit, Pow2(to), rest, acc % rest);
    OneMore(to, |result|);
  }

  lemma FilledUp(values: seq<int>, from: nat, to: nat, result: seq<int>, acc: int, bits: nat, last: int)
    requires Waiting(values, from, to, result, acc, bits) && 0 < bits < to
    requires last == (acc * Pow2(to - bits)) % Pow2(to)
    ensures Regrouped(values, from, to, true, result + [last])
  {
    var gap := to - bits;
    ShiftIn(acc, 0, bits, gap);
    NumberNext(result, to, last);
    Pow2Add(bits, gap);
    ScaleUp(Number(result, to), acc % Pow2(bits), Pow2(bits), Pow2(gap), 0);
    OneMore(to, |result|);
  }

  lemma SpareBits(values: seq<int>, from: nat, to: nat, result: seq<int>, acc: int, bits: nat)
    requires Waiting(values, from, to, result, acc, bits) && bits < to
    ensures Spare(from * |values|, to) == bits
    ensures Number(values, from) % Pow2(bits) == acc % Pow2(bits)
  {
    ModIs(from * |values|, to, |result|, bits);
    ModIs(Number(values, from), Pow2(bits), Number(result, to), acc % Pow2(bits));
  }

  lemma SpareIsZero(acc: int, bits: nat, to: nat)
    requires bits < to
    ensures (acc * Pow2(to - bits)) % Pow2(to) == 0 <==> acc % Pow2(bits) == 0
  {
    ShiftIn(acc, 0, bits, to - bits);
    if acc % Pow2(bits) != 0 {
      Monotone(1, acc % Pow2(bits), Pow2(to - bits));
    }
  }

  /** `_convert_bits`. */
  method ConvertBits(values: seq<int>, from: nat, to: nat, pad: bool) returns (result: Option<seq<int>>)
    requires from > 0 && to > 0
    ensures IsConversion(values, from, to, pad, result)
  {
    var acc: int, bits: nat := 0, 0;
    var r: seq<int> := [];
    for i := 0 to |values|
      invariant AreGroups(values[..i], from)
      invariant bits < to && Waiting(values[..i], from, to, r, acc, bits)
    {
      var v := values[i];
      if v < 0 || v / Pow2(from) != 0 {
        OutOfRange(v, from);
        return None;
      }
      InRange(v, from);
      ghost var was := acc;
      acc := (acc * Pow2(from) + v) % Pow2(from + to - 1);
      ValueTaken(values[..i], from, to, r, was, bits, v, acc);
      assert values[..i + 1] == values[..i] + [v];
      bits := bits + from;
      while bits >= to
        invariant Waiting(values[..i + 1], from, to, r, acc, bits)
      {
        bits := bits - to;
        var digit := (acc / Pow2(bits)) % Pow2(to);
        GroupEmitted(values[..i + 1], from, to, r, acc, bits + to, digit);
        r := r + [digit];
      }
    }
    assert values[..|values|] == values;
    SpareBits(values, from, to, r, acc, bits);
    SpareIsZero(acc, bits, to);
    if pad {
      if bits > 0 {
        var last := (acc * Pow2(to - bits)) % Pow2(to);
        FilledUp(values, from, to, r, acc, bits, last);
        r := r + [last];
      }
    } else if bits >= from || (acc * Pow2(to - bits)) % Pow2(to) != 0 {
      return None;
    }
    result := Some(r);
  }

  lemma OutOfRange(v: int, width: nat)
    requires v < 0 || v / Pow2(width) != 0
    ensures !(0 <= v < Pow2(width))
  {
    if 0 <= v < Pow2(width) {
      ModIs(v, Pow2(width), 0, v);
    }
  }

  lemma InRange(v: int, width: nat)
    requires v >= 0 && v / Pow2(width) == 0
    ensures v < Pow2(width)
  {
    assert v == (v / Pow2(width)) * Pow2(width) + v % Pow2(width);
  }

  // ---- the two directions ---------------------------------------------------------

  lemma CancelPow(a: int, b: int, n: nat)
    requires a * Pow2(n) == b * Pow2(n)
    ensures a == b
  {
    ModIs(a * Pow2(n), Pow2(n), a, 0);
    ModIs(b * Pow2(n), Pow2(n), b, 0);
  }

  lemma SameLength(width: nat, a: nat, b: nat, n: nat)
    requires width > 0 && width * a <= n < width * a + width && width * b <= n < width * b + width
    ensures a == b
  {
    assert width * a == a * width && width * b == b * width;
    ModIs(n, width, a, n - width * a);
    ModIs(n, width, b, n - width * b);
  }

  /** Groups that cut off the same bits, and these are zeroes, are the same groups. */
  lemma SameGroups(values: seq<int>, from: nat, to: nat, a: seq<int>, b: seq<int>)
    requires to > 0 && Regrouped(values, from, to, false, a) && Regrouped(values, from, to, false, b)
    ensures a == b
  {
    SameLength(to, |a|, |b|, from * |values|);
    CancelPow(Number(a, to), Number(b, to), from * |values| - to * |b|);
    NumberInjective(a, b, to);
  }

  lemma CutOff(n: nat, to: nat, groups: nat, spare: nat, v: int, kept: int)
    requires to > 0 && n == to * groups + spare && spare < to && v == kept * Pow2(spare)
    ensures Spare(n, to) == spare && v % Pow2(spare) == 0
  {
    assert to * groups == groups * to;
    ModIs(n, to, groups, spare);
    ModIs(v, Pow2(spare), kept, 0);
  }

  lemma ZeroesBehind(values: seq<int>, from: nat, to: nat, r: seq<int>)
    requires to > 0 && Regrouped(values, from, to, false, r)
    ensures Spare(from * |values|, to) == from * |values| - to * |r|
    ensures Number(values, from) % Pow2(from * |values| - to * |r|) == 0
  {
    var n := from * |values|;
    CutOff(n, to, |r|, n - to * |r|, Number(values, from), Number(r, to));
  }

  /** When the groups `r` have zeroes behind them, only they can result. */
  lemma OnlyResult(values: seq<int>, from: nat, to: nat, r: seq<int>, result: Option<seq<int>>)
    requires to > 0 && AreGroups(values, from) && Regrouped(values, from, to, false, r)
    requires Spare(from * |values|, to) < from
    requires IsConversion(values, from, to, false, result)
    ensures result == Some(r)
  {
    ZeroesBehind(values, from, to, r);
    if result.Some? {
      SameGroups(values, from, to, result.value, r);
    }
  }

  /** Padding to narrower groups and converting back without padding gives the bytes back. */
  lemma PadThenUnpad(bytes: seq<int>, narrow: nat, wide: nat, symbols: seq<int>, back: Option<seq<int>>)
    requires 0 < narrow <= wide
    requires IsConversion(bytes, wide, narrow, true, Some(symbols))
    requires IsConversion(symbols, narrow, wide, false, back)
    ensures back == Some(bytes)
  {
    ZeroesBehind(symbols, narrow, wide, bytes);
    OnlyResult(symbols, narrow, wide, bytes, back);
  }

  /** Whatever converts without padding is the padded form of its result. */
  lemma UnpadThenPad(symbols: seq<int>, narrow: nat, wide: nat, bytes: seq<int>, again: Option<seq<int>>)
    requires 0 < narrow <= wide
    requires IsConversion(symbols, narrow, wide, false, Some(bytes))
    requires IsConversion(bytes, wide, narrow, true, again)
    ensures again == Some(symbols)
  {
    var spare := narrow * |symbols| - wide * |bytes|;
    ModIs(narrow * |symbols|, wide, |bytes|, spare);
    var r := again.value;
    SameCeiling(narrow, |r|, |symbols|, wide * |bytes|);
    NumberInjective(r, symbols, narrow);
  }

  /** Without padding there is one result at most. */
  lemma ConversionUnique(values: seq<int>, from: nat, to: nat, result: Option<seq<int>>, other: seq<int>)
    requires to > 0
    requires IsConversion(values, from, to, false, result) && IsConversion(values, from, to, false, Some(other))
    ensures result == Some(other)
  {
    OnlyResult(values, from, to, other, result);
  }

  lemma SameCeiling(width: nat, a: nat, b: nat, n: nat)
    requires width > 0 && n <= width * a < n + width && n <= width * b < n + width
    ensures a == b
  {
    SameLength(width, a, b, n + width - 1);
  }
}
