/** What the Merkle root of a validated batch binds (hap/batches.py:114-123 over hap/merkle.py).

    The validator compares identifiers as texts and the tree hashes the digests they stand for;
    the two differ in the case of the hexadecimal letters. */
module Binding {
  import opened Bytes
  import opened Order
  import opened Hex
  import Json
  import opened Merkle
  import opened Batches
  import opened Packages

  /** The digests that the identifiers stand for. */
  ghost function Digests(ids: seq<string>): (r: seq<Digest>)
    requires AllDigests(ids)
    ensures Leaves(ids) == Some(r) && |r| == |ids|
  {
    DigestsAreLeaves(ids);
    Leaves(ids).value
  }

  /** Both trees have the same number of levels, and no two strings hashed for them collide. */
  ghost predicate Comparable(sha: HashFunction, a: seq<string>, b: seq<string>)
    requires AllDigests(a) && AllDigests(b)
  {
    && a != [] && b != [] && Depth(|a|) == Depth(|b|)
    && InjectiveOn(sha, TreeInputs(sha, Digests(a)) + TreeInputs(sha, Digests(b)))
  }

  lemma RootOfBatch(sha: HashFunction, b: Batch)
    requires ValidBatch(sha, b)
    ensures b.merkleRoot == ToHex(Root(sha, Digests(b.recordIds)))
  {
  }

  lemma SameRootText(sha: HashFunction, x: Batch, y: Batch)
    requires ValidBatch(sha, x) && ValidBatch(sha, y)
    ensures x.merkleRoot == y.merkleRoot <==>
            Root(sha, Digests(x.recordIds)) == Root(sha, Digests(y.recordIds))
  {
    RootOfBatch(sha, x);
    RootOfBatch(sha, y);
    if x.merkleRoot == y.merkleRoot {
      ToHexInjective(Root(sha, Digests(x.recordIds)), Root(sha, Digests(y.recordIds)));
    }
  }

  /** Two valid batches have one root exactly when the padded digests agree. */
  lemma BatchRootsAgree(sha: HashFunction, x: Batch, y: Batch)
    requires ValidBatch(sha, x) && ValidBatch(sha, y) && Comparable(sha, x.recordIds, y.recordIds)
    ensures x.merkleRoot == y.merkleRoot <==> Expand(Digests(x.recordIds)) == Expand(Digests(y.recordIds))
  {
    SameRootText(sha, x, y);
    RootsAgree(sha, Digests(x.recordIds), Digests(y.recordIds));
  }

  /** Where no two identifiers of either batch stand for one digest, that is when the digests agree. */
  lemma BatchBinding(sha: HashFunction, x: Batch, y: Batch)
    requires ValidBatch(sha, x) && ValidBatch(sha, y) && Comparable(sha, x.recordIds, y.recordIds)
    requires Distinct(Digests(x.recordIds)) && Distinct(Digests(y.recordIds))
    ensures x.merkleRoot == y.merkleRoot <==> Digests(x.recordIds) == Digests(y.recordIds)
  {
    SameRootText(sha, x, y);
    MerkleBinding(sha, Digests(x.recordIds), Digests(y.recordIds));
  }

  // ---- packages -------------------------------------------------------------------

  lemma DigestAt(ids: seq<string>, i: nat)
    requires AllDigests(ids) && i < |ids|
    ensures Leaf(ids[i]) == Some(Digests(ids)[i])
  {
  }

  /** The identifier of a valid record is printed by the node, in lower case. */
  lemma RecordIdIsPrinted(rules: Rules, p: Package, i: nat)
    requires ValidPackage(rules, p) && i < |p.batch.recordIds|
    ensures p.batch.recordIds[i] == ToHex(Digests(p.batch.recordIds)[i])
  {
    var r := p.records[i];
    assert Ids(p.records)[i] == r.id && ValidRecord(rules, r);
    DigestAt(p.batch.recordIds, i);
    LeafOfHex(rules.sha(Json.CanonicalBytes(Json.Obj(r.envelope)).value));
  }

  /** So no two identifiers of a valid package stand for one digest. */
  lemma PackageDigestsDistinct(rules: Rules, p: Package)
    requires ValidPackage(rules, p)
    ensures Distinct(Digests(p.batch.recordIds))
  {
    var ids := p.batch.recordIds;
    forall i, j | 0 <= i < j < |ids|
      ensures Digests(ids)[i] != Digests(ids)[j]
    {
      RecordIdIsPrinted(rules, p, i);
      RecordIdIsPrinted(rules, p, j);
    }
  }

  lemma SameDigestsSameIds(rules: Rules, p: Package, q: Package)
    requires ValidPackage(rules, p) && ValidPackage(rules, q)
    requires Digests(p.batch.recordIds) == Digests(q.batch.recordIds)
    ensures p.batch.recordIds == q.batch.recordIds
  {
    forall i | 0 <= i < |p.batch.recordIds|
      ensures p.batch.recordIds[i] == q.batch.recordIds[i]
    {
      RecordIdIsPrinted(rules, p, i);
      RecordIdIsPrinted(rules, q, i);
    }
  }

  /** Valid packages whose trees are equally deep have one root exactly when they list the same records. */
  lemma PackageBinding(rules: Rules, p: Package, q: Package)
    requires ValidPackage(rules, p) && ValidPackage(rules, q)
    requires Comparable(rules.sha, p.batch.recordIds, q.batch.recordIds)
    ensures p.batch.merkleRoot == q.batch.merkleRoot <==> p.batch.recordIds == q.batch.recordIds
  {
    PackageDigestsDistinct(rules, p);
    PackageDigestsDistinct(rules, q);
    BatchBinding(rules.sha, p.batch, q.batch);
    if Digests(p.batch.recordIds) == Digests(q.batch.recordIds) {
      SameDigestsSameIds(rules, p, q);
    }
  }

  // ---- batches alone --------------------------------------------------------------

  function Repeated(c: char, n: nat): (r: string)
    ensures |r| == n
  {
    seq(n, _ => c)
  }

  lemma {:induction false} RepeatedDigit(c: char, n: nat)
    requires DigitValue(c).Some? && !IsSpace(c)
    ensures FromHex(Repeated(c, 2 * n)) == Some(seq(n, _ => 17 * DigitValue(c).value))
  {
    var text := Repeated(c, 2 * n);
    if n > 0 {
      RepeatedDigit(c, n - 1);
      assert text[2..] == Repeated(c, 2 * (n - 1));
      var v: Byte := 17 * DigitValue(c).value;
      assert seq(n, _ => v) == [v] + seq(n - 1, _ => v);
    }
  }

  /** The digest 17 * v, written with the digit `c` alone. */
  function Uniform(v: Byte): Digest {
    seq(32, _ => v)
  }

  lemma RepeatedIsDigest(c: char)
    requires DigitValue(c).Some? && !IsSpace(c)
    ensures IsDigestText(Repeated(c, 64)) && Leaf(Repeated(c, 64)) == Some(Uniform(17 * DigitValue(c).value))
  {
    RepeatedDigit(c, 32);
    assert 2 * 32 == 64;
  }

  /** Three identifiers in order, the last in upper case. */
  function ThreeIds(): seq<string> {
    [Repeated('0', 64), Repeated('1', 64), Repeated('F', 64)]
  }

  /** And once more the last, in lower case. */
  function FourIds(): seq<string> {
    ThreeIds() + [Repeated('f', 64)]
  }

  lemma InOrder(c: char, d: char)
    requires c < d
    ensures Less(Repeated(c, 64), Repeated(d, 64))
  {
  }

  lemma IdsInOrder()
    ensures StrictlyAscending(Self, FourIds()) && StrictlyAscending(Self, ThreeIds())
    ensures !HasDuplicate(FourIds()) && !HasDuplicate(ThreeIds())
  {
    InOrder('0', '1');
    InOrder('0', 'F');
    InOrder('0', 'f');
    InOrder('1', 'F');
    InOrder('1', 'f');
    InOrder('F', 'f');
    forall i, j | 0 <= i < j < |FourIds()|
      ensures FourIds()[i] != FourIds()[j]
    {
      LessIrreflexive(FourIds()[i]);
    }
  }

  function FourDigests(): (r: seq<Digest>)
    ensures |r| == 4 && r[3] == r[2]
  {
    [Uniform(0), Uniform(17), Uniform(255), Uniform(255)]
  }

  function DigitOf(i: nat): (c: char)
    ensures DigitValue(c).Some? && !IsSpace(c)
  {
    if i == 0 then '0' else if i == 1 then '1' else if i == 2 then 'F' else 'f'
  }

  lemma IdOf(i: nat)
    requires i < 4
    ensures FourIds()[i] == Repeated(DigitOf(i), 64) && FourDigests()[i] == Uniform(17 * DigitValue(DigitOf(i)).value)
  {
  }

  lemma IdDigest(i: nat)
    requires i < 4
    ensures IsDigestText(FourIds()[i])
    ensures Leaf(FourIds()[i]) == Some(FourDigests()[i])
  {
    IdOf(i);
    RepeatedIsDigest(DigitOf(i));
  }

  lemma AllFourDigests()
    ensures AllDigests(FourIds()) && AllDigests(ThreeIds())
  {
    forall i | 0 <= i < 4
      ensures IsDigestText(FourIds()[i])
    {
      IdDigest(i);
    }
    DigestsOfSubset(ThreeIds(), FourIds());
  }

  lemma IdsBatch(createdAt: int)
    requires 0 <= createdAt <= Json.MAX_SAFE
    ensures Batchable(ThreeIds(), "mainnet", createdAt) && Batchable(FourIds(), "mainnet", createdAt)
    ensures SortBy(Self, ThreeIds()) == ThreeIds() && SortBy(Self, FourIds()) == FourIds()
  {
    IdsInOrder();
    SortOfStrict(Self, ThreeIds());
    SortOfStrict(Self, FourIds());
    AllFourDigests();
  }

  lemma FourLeaves()
    ensures AllDigests(FourIds()) && Digests(FourIds()) == FourDigests()
  {
    AllFourDigests();
    forall i | 0 <= i < 4
      ensures Digests(FourIds())[i] == FourDigests()[i]
    {
      DigestAt(FourIds(), i);
      IdDigest(i);
    }
  }

  lemma ThreeLeaves()
    ensures AllDigests(ThreeIds()) && Digests(ThreeIds()) == FourDigests()[..3]
  {
    AllFourDigests();
    forall i | 0 <= i < 3
      ensures Digests(ThreeIds())[i] == FourDigests()[i]
    {
      DigestAt(ThreeIds(), i);
      IdDigest(i);
    }
  }

  lemma SpellingsHaveOneRoot(sha: HashFunction)
    ensures AllDigests(ThreeIds()) && AllDigests(FourIds())
    ensures Root(sha, Digests(ThreeIds())) == Root(sha, Digests(FourIds()))
    ensures Depth(|ThreeIds()|) == Depth(|FourIds()|)
  {
    ThreeLeaves();
    FourLeaves();
    LastTwice(sha, FourDigests());
  }

  lemma LastTwice(sha: HashFunction, level: seq<Digest>)
    requires |level| == 4 && level[3] == level[2]
    ensures Root(sha, level[..3]) == Root(sha, level) && Depth(3) == Depth(4)
  {
    assert level[..3] + [level[..3][2]] == level;
    RepeatedTailKeepsRoot(sha, level[..3]);
  }

  lemma SomeBatch(sha: HashFunction, ids: seq<string>, createdAt: int) returns (b: Batch)
    requires Batchable(ids, "mainnet", createdAt) && SortBy(Self, ids) == ids
    ensures ValidBatch(sha, b) && b.recordIds == ids && b.merkleRoot == ToHex(Root(sha, Digests(ids)))
  {
    BatchableIsValid(sha, ids, "mainnet", createdAt);
    b := Manifest(sha, ids, "mainnet", createdAt, RootText(sha, ids).value).value;
    RootOfBatch(sha, b);
  }

  /** A batch alone does not bind: whatever the hash, these two lists make valid batches with
      equally deep trees and one root, for the validator takes the two spellings for two records. */
  lemma SpellingsShareARoot(sha: HashFunction, createdAt: int) returns (x: Batch, y: Batch)
    requires 0 <= createdAt <= Json.MAX_SAFE
    ensures ValidBatch(sha, x) && x.recordIds == ThreeIds()
    ensures ValidBatch(sha, y) && y.recordIds == FourIds()
    ensures Depth(|x.recordIds|) == Depth(|y.recordIds|) && x.merkleRoot == y.merkleRoot
  {
    IdsBatch(createdAt);
    x := SomeBatch(sha, ThreeIds(), createdAt);
    y := SomeBatch(sha, FourIds(), createdAt);
    SpellingsHaveOneRoot(sha);
  }
}
