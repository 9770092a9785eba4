/** The relay's proof of work (hap/policy.py:110-164). Identifiers and nonces are ASCII. */
module RelayPow {
  import opened Bytes
  import opened BitGroups
  import opened Json
  import Utf8

  // ---- leading zero bits ----------------------------------------------------------

  /** `int.bit_length`. */
  function BitLength(n: nat): nat {
    if n == 0 then 0 else 1 + BitLength(n / 2)
  }

  lemma {:induction false} BitLengthBound(n: nat, k: nat)
    ensures BitLength(n) <= k <==> n < Pow2(k)
  {
    if n > 0 && k > 0 {
      BitLengthBound(n / 2, k - 1);
    }
  }

  /** Only one length fits all bounds. */
  lemma BitLengthIs(n: nat, length: nat)
    requires n < Pow2(length) && (length > 0 ==> n >= Pow2(length - 1))
    ensures BitLength(n) == length
  {
    BitLengthBound(n, length);
    if length > 0 {
      BitLengthBound(n, length - 1);
    }
  }

  lemma {:induction false} NumberBound(bytes: seq<Byte>)
    ensures 0 <= Number(bytes, 8) < Pow2(8 * |bytes|)
  {
    if bytes != [] {
      var n := |bytes| - 1;
      NumberBound(bytes[..n]);
      Pow2Add(8 * n, 8);
      Monotone(Number(bytes[..n], 8) + 1, Pow2(8 * n), Pow2(8));
      Distribute(Number(bytes[..n], 8), 1, Pow2(8));
    }
  }

  lemma {:induction false} NumberSplit(a: seq<Byte>, b: seq<Byte>)
    ensures Number(a + b, 8) == Number(a, 8) * Pow2(8 * |b|) + Number(b, 8)
  {
    if b == [] {
      assert a + b == a;
    } else {
      var n := |b| - 1;
      NumberSplit(a, b[..n]);
      assert (a + b)[..|a + b| - 1] == a + b[..n];
      Pow2Add(8 * n, 8);
      ScaleUp(Number(a, 8), Number(b[..n], 8), Pow2(8 * n), Pow2(8), b[n]);
    }
  }

  lemma {:induction false} ZeroesAreZero(zeroes: seq<Byte>)
    requires forall i :: 0 <= i < |zeroes| ==> zeroes[i] == 0
    ensures Number(zeroes, 8) == 0
  {
    if zeroes != [] {
      ZeroesAreZero(zeroes[..|zeroes| - 1]);
    }
  }

  lemma ByteLength(b: Byte)
    ensures BitLength(b) <= 8
  {
    assert Pow2(8) == 256;
    BitLengthBound(b, 8);
  }

  lemma ScaledLength(n: nat, high: nat, low: nat, k: nat)
    requires high > 0 && low < Pow2(k) && n == high * Pow2(k) + low
    ensures BitLength(n) == k + BitLength(high)
  {
    var b, scale := BitLength(high), Pow2(k);
    BitLengthBound(high, b);
    BitLengthBound(high, b - 1);
    Pow2Add(b, k);
    Pow2Add(b - 1, k);
    Monotone(high + 1, Pow2(b), scale);
    Distribute(high, 1, scale);
    Monotone(Pow2(b - 1), high, scale);
    BitLengthIs(n, k + b);
  }

  lemma OneByte(b: Byte)
    ensures Number([b], 8) == b
  {
    assert [b][..0] == [];
  }

  lemma ZeroesInFront(zeroes: seq<Byte>, first: Byte)
    requires forall i :: 0 <= i < |zeroes| ==> zeroes[i] == 0
    ensures Number(zeroes + [first], 8) == first
  {
    NumberSplit(zeroes, [first]);
    ZeroesAreZero(zeroes);
    OneByte(first);
  }

  /** The length of a number is settled by its first byte that is not zero. */
  lemma FirstByteDecides(zeroes: seq<Byte>, first: Byte, rest: seq<Byte>)
    requires first != 0 && forall i :: 0 <= i < |zeroes| ==> zeroes[i] == 0
    ensures Number(zeroes + [first] + rest, 8) >= 0
    ensures BitLength(Number(zeroes + [first] + rest, 8)) == 8 * |rest| + BitLength(first)
  {
    var n := Number(zeroes + [first] + rest, 8);
    NumberSplit(zeroes + [first], rest);
    ZeroesInFront(zeroes, first);
    NumberBound(rest);
    NumberBound(zeroes + [first] + rest);
    ScaledLength(n, first, Number(rest, 8), 8 * |rest|);
  }

  /** The zero bits in front of a digest that is read as a big-endian number. */
  function ZeroBits(digest: seq<Byte>): nat {
    NumberBound(digest);
    BitLengthBound(Number(digest, 8), 8 * |digest|);
    8 * |digest| - BitLength(Number(digest, 8))
  }

  /** `leading_zero_bits`. */
  method LeadingZeroBits(digest: seq<Byte>) returns (count: nat)
    ensures count == ZeroBits(digest)
  {
    NumberBound(digest);
    count := 0;
    for i := 0 to |digest|
      invariant count == 8 * i
      invariant forall j :: 0 <= j < i ==> digest[j] == 0
    {
      if digest[i] == 0 {
        count := count + 8;
        continue;
      }
      FirstByteDecides(digest[..i], digest[i], digest[i + 1..]);
      ByteLength(digest[i]);
      assert digest == digest[..i] + [digest[i]] + digest[i + 1..];
      count := count + (8 - BitLength(digest[i]));
      return;
    }
    ZeroesAreZero(digest);
  }

  /** A digest has `k` leading zero bits exactly when, as a number, it is below 2^(bits - k). */
  lemma ZeroBitsMean(digest: seq<Byte>, k: nat)
    requires k <= 8 * |digest|
    ensures ZeroBits(digest) >= k <==> Number(digest, 8) < Pow2(8 * |digest| - k)
  {
    NumberBound(digest);
    BitLengthBound(Number(digest, 8), 8 * |digest| - k);
  }

  // ---- the proof of work ----------------------------------------------------------

  predicate IsNonce(nonce: string) {
    0 < |nonce| <= 64 && forall i :: 0 <= i < |nonce| ==> '0' <= nonce[i] <= '9'
  }

  /** "HAP-RELAY-POW-V1" and a zero byte. */
  const RELAY_POW_DOMAIN: seq<Byte> :=
    [0x48, 0x41, 0x50, 0x2D, 0x52, 0x45, 0x4C, 0x41, 0x59, 0x2D, 0x50, 0x4F, 0x57, 0x2D, 0x56, 0x31, 0x00]

  function RelayMessage(recordId: string, nonce: string): seq<Byte> {
    RELAY_POW_DOMAIN + Utf8.Encode(recordId) + [0] + Utf8.Encode(nonce)
  }

  /** `relay_pow_digest`; nothing when it raises. */
  function RelayPowDigest(sha: HashFunction, recordId: string, nonce: string): Option<Digest> {
    if IsNonce(nonce) then Some(sha(RelayMessage(recordId, nonce))) else None
  }

  /** The nonce is well formed and its digest has that many leading zero bits. */
  predicate Works(sha: HashFunction, recordId: string, nonce: string, bits: int) {
    match RelayPowDigest(sha, recordId, nonce)
    case Some(digest) => ZeroBits(digest) >= bits
    case None => false
  }

  /** `verify_relay_pow`. */
  method VerifyRelayPow(sha: HashFunction, recordId: string, nonce: Option<string>, requiredBits: int)
    returns (ok: bool)
    ensures ok <==> requiredBits <= 0 || (nonce.Some? && Works(sha, recordId, nonce.value, requiredBits))
  {
    if requiredBits <= 0 {
      return true;
    }
    if nonce.None? {
      return false;
    }
    var digest := RelayPowDigest(sha, recordId, nonce.value);
    if digest.None? {
      return false;
    }
    var count := LeadingZeroBits(digest.value);
    ok := count >= requiredBits;
  }

  ghost predicate IsLimit(limit: nat) {
    forall n: nat :: IsNonce(Digits(n)) <==> n < limit
  }

  lemma NoMoreProofs(sha: HashFunction, recordId: string, bits: int, current: nat, limit: nat)
    requires IsLimit(limit) && !IsNonce(Digits(current))
    ensures forall m: nat :: m >= current ==> !IsProof(sha, recordId, bits, m)
  {
    forall m: nat | m >= current
      ensures !IsProof(sha, recordId, bits, m)
    {
      assert !IsNonce(Digits(m));
    }
  }

  lemma BelowLimit(current: nat, limit: nat)
    requires IsLimit(limit) && IsNonce(Digits(current))
    ensures current < limit
  {
  }

  /** The text of a number is a nonce as long as it has 64 digits at most. */
  lemma NonceLimit() returns (limit: nat)
    ensures IsLimit(limit)
  {
    limit := Pow10(64);
    forall n: nat
      ensures IsNonce(Digits(n)) <==> n < limit
    {
      DigitsFit(n, 64);
    }
  }

  /** This number, written out, is a proof. */
  predicate IsProof(sha: HashFunction, recordId: string, bits: int, n: nat) {
    Works(sha, recordId, Digits(n), bits)
  }

  function FirstNonce(start: int): nat {
    if start < 0 then 0 else start
  }

  /** The nonces that one call may try. */
  predicate MayTry(start: int, maxAttempts: Option<int>, n: nat) {
    n >= FirstNonce(start) && (maxAttempts.Some? ==> n < FirstNonce(start) + maxAttempts.value)
  }

  /** One turn of the search. */
  method TryNonce(sha: HashFunction, recordId: string, n: nat, requiredBits: int, ghost limit: nat)
    returns (text: Option<string>, found: bool)
    requires IsLimit(limit)
    ensures text.None? ==> forall m: nat :: m >= n ==> !IsProof(sha, recordId, requiredBits, m)
    ensures text.Some? ==> text.value == Digits(n) && n < limit && (found <==> IsProof(sha, recordId, requiredBits, n))
  {
    var candidate := Digits(n);
    var digest := RelayPowDigest(sha, recordId, candidate);
    if digest.None? {
      NoMoreProofs(sha, recordId, requiredBits, n, limit);
      return None, false;
    }
    BelowLimit(n, limit);
    var count := LeadingZeroBits(digest.value);
    return Some(candidate), count >= requiredBits;
  }

  /** `mine_relay_pow`; nothing when it raises. */
  method MineRelayPow(sha: HashFunction, recordId: string, requiredBits: int, start: int, maxAttempts: Option<int>)
    returns (r: Option<string>, ghost nonce: nat)
    ensures requiredBits <= 0 ==> r == Some("0")
    ensures requiredBits > 0 && r.Some? ==>
              && r.value == Digits(nonce) && MayTry(start, maxAttempts, nonce)
              && IsProof(sha, recordId, requiredBits, nonce)
              && forall m: nat ::
                   m < nonce && MayTry(start, maxAttempts, m) ==> !IsProof(sha, recordId, requiredBits, m)
    ensures r.None? ==>
              && requiredBits > 0
              && forall m: nat :: MayTry(start, maxAttempts, m) ==> !IsProof(sha, recordId, requiredBits, m)
  {
    nonce := FirstNonce(start);
    if requiredBits <= 0 {
      return Some("0"), nonce;
    }
    ghost var limit := NonceLimit();
    var current, attempts := FirstNonce(start), 0;
    while maxAttempts.None? || attempts < maxAttempts.value
      invariant current == FirstNonce(start) + attempts && attempts >= 0
      invariant forall m: nat :: FirstNonce(start) <= m < current ==> !IsProof(sha, recordId, requiredBits, m)
      decreases limit as int - current
    {
      var text, found := TryNonce(sha, recordId, current, requiredBits, limit);
      if text.None? {
        return None, nonce;
      }
      if found {
        return text, current;
      }
      current := current + 1;
      attempts := attempts + 1;
    }
    r := None;
  }
}
