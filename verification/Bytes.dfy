/** Byte strings, digests and the abstract hash function.

    SHA-256 is never computed: every definition that hashes takes the hash as a
    parameter, so each result holds for every function from byte strings to digests.
    "No collision" is always stated about the finite set of strings that were hashed. */
module Bytes {
  type Byte = b: int | 0 <= b < 256

  type Digest = d: seq<Byte> | |d| == 32 witness seq(32, _ => 0)

  type HashFunction = seq<Byte> -> Digest

  datatype Option<+T> = None | Some(value: T) {
    function GetOr(default: T): T {
      if Some? then value else default
    }
  }

  /** These two strings do not collide. */
  ghost predicate Separates(sha: HashFunction, a: seq<Byte>, b: seq<Byte>) {
    sha(a) == sha(b) ==> a == b
  }

  /** No two of these strings collide. */
  ghost predicate InjectiveOn(sha: HashFunction, inputs: set<seq<Byte>>) {
    forall a, b {:trigger Separates(sha, a, b)} :: a in inputs && b in inputs ==> Separates(sha, a, b)
  }

  lemma MembersSeparate(sha: HashFunction, inputs: set<seq<Byte>>, a: seq<Byte>, b: seq<Byte>)
    requires InjectiveOn(sha, inputs) && a in inputs && b in inputs
    ensures Separates(sha, a, b)
  {
  }

  function Pow2(n: nat): (p: nat)
    ensures p > 0
  {
    if n == 0 then 1 else 2 * Pow2(n - 1)
  }

  lemma {:induction false} Pow2Add(m: nat, n: nat)
    ensures Pow2(m + n) == Pow2(m) * Pow2(n)
  {
    if m > 0 {
      Pow2Add(m - 1, n);
      assert Pow2(m + n) == 2 * (Pow2(m - 1) * Pow2(n));
    }
  }

  ghost predicate Distinct<T(!new)>(s: seq<T>) {
    forall i, j :: 0 <= i < j < |s| ==> s[i] != s[j]
  }
}
