/** Merkle trees that pad an odd level with its last node (hap/merkle.py).

    The functions are the specification on decoded digests; the methods are the loops of
    the program on hexadecimal text. */
module Merkle {
  import opened Bytes
  import opened Hex

  datatype Side = Left | Right

  datatype Step = Step(sibling: Digest, side: Side)

  /** A proof step as it travels: two strings that nobody has checked yet. */
  datatype StepText = StepText(sibling: string, side: string)

  // ---- the tree -------------------------------------------------------------------

  function Pad(level: seq<Digest>): (r: seq<Digest>)
    ensures |r| % 2 == 0 && |level| <= |r| <= |level| + 1
  {
    if |level| % 2 == 1 then level + [level[|level| - 1]] else level
  }

  function Up(sha: HashFunction, level: seq<Digest>): (r: seq<Digest>)
    ensures |r| == (|level| + 1) / 2
  {
    Parents(sha, Pad(level))
  }

  /** `left + right`: two 32-byte halves can be told apart again. */
  function Join(left: Digest, right: Digest): (r: seq<Byte>)
    ensures |r| == 64 && r[..32] == left && r[32..] == right
  {
    var bytes: seq<Byte> := left;
    bytes + right
  }

  function Siblings(level: seq<Digest>, i: nat): seq<Byte>
    requires 2 * i + 1 < |level|
  {
    Join(level[2 * i], level[2 * i + 1])
  }

  function Parents(sha: HashFunction, level: seq<Digest>): (r: seq<Digest>)
    requires |level| % 2 == 0
    ensures 2 * |r| == |level|
  {
    if level == [] then [] else Parents(sha, level[..|level| - 2]) + [sha(Siblings(level, |level| / 2 - 1))]
  }

  function Root(sha: HashFunction, level: seq<Digest>): Digest
    requires level != []
    decreases |level|
  {
    if |level| == 1 then level[0] else Root(sha, Up(sha, level))
  }

  function Depth(n: nat): nat
    requires n > 0
  {
    if n == 1 then 0 else 1 + Depth((n + 1) / 2)
  }

  /** The other node of the pair. */
  function Sibling(position: nat): nat {
    if position % 2 == 1 then position - 1 else position + 1
  }

  /** It stays inside every level of even width. */
  lemma SiblingInside(n: nat, position: nat)
    requires n % 2 == 0 && position < n
    ensures Sibling(position) < n
  {
  }

  /** The proof step of a node of the padded level. */
  function NodeStep(level: seq<Digest>, position: nat): (step: Step)
    requires position < |Pad(level)|
    ensures step.side == if position % 2 == 1 then Left else Right
  {
    Step(Pad(level)[Sibling(position)], if Sibling(position) < position then Left else Right)
  }

  function Proof(sha: HashFunction, level: seq<Digest>, position: nat): seq<Step>
    requires position < |level|
    decreases |level|
  {
    if |level| == 1 then [] else [NodeStep(level, position)] + Proof(sha, Up(sha, level), position / 2)
  }

  function Pair(value: Digest, step: Step): seq<Byte> {
    if step.side == Left then Join(step.sibling, value) else Join(value, step.sibling)
  }

  function Climb(sha: HashFunction, value: Digest, path: seq<Step>): Digest
    decreases |path|
  {
    if path == [] then value else Climb(sha, sha(Pair(value, path[0])), path[1..])
  }

  // ---- the program ----------------------------------------------------------------

  function Leaf(text: string): Option<Digest> {
    match FromHex(text)
    case Some(raw) => if |raw| == 32 then Some(raw) else None
    case None => None
  }

  function Leaves(ids: seq<string>): (r: Option<seq<Digest>>)
    ensures r.Some? ==> |r.value| == |ids|
    ensures r.Some? ==> forall i :: 0 <= i < |ids| ==> Leaf(ids[i]) == Some(r.value[i])
  {
    if ids == [] then Some([])
    else
      match (Leaf(ids[0]), Leaves(ids[1..]))
      case (Some(leaf), Some(rest)) => Some([leaf] + rest)
      case _ => None
  }

  function Zeros(n: nat): (r: seq<Byte>)
    ensures |r| == n
  {
    seq(n, i => 0)
  }

  function RootText(sha: HashFunction, ids: seq<string>): Option<string> {
    if ids == [] then Some(ToHex(Zeros(32)))
    else
      match Leaves(ids)
      case Some(leaves) => Some(ToHex(Root(sha, leaves)))
      case None => None
  }

  method MerkleRoot(sha: HashFunction, recordIds: seq<string>) returns (root: Option<string>)
    ensures root == RootText(sha, recordIds)
  {
    if recordIds == [] {
      return Some(ToHex(Zeros(32)));
    }
    var leaves := Leaves(recordIds);
    if leaves.None? {
      return None;
    }
    var level := leaves.value;
    while |level| > 1
      invariant level != []
      invariant Root(sha, level) == Root(sha, leaves.value)
      decreases |level|
    {
      if |level| % 2 == 1 {
        level := level + [level[|level| - 1]];
      }
      level := Parents(sha, level);
    }
    root := Some(ToHex(level[0]));
  }

  function StepToText(step: Step): StepText {
    StepText(ToHex(step.sibling), if step.side == Left then "left" else "right")
  }

  function PathToText(path: seq<Step>): seq<StepText> {
    seq(|path|, i requires 0 <= i < |path| => StepToText(path[i]))
  }

  lemma ProofUnfolds(sha: HashFunction, level: seq<Digest>, position: nat, prefix: seq<Step>)
    requires |level| > 1 && position < |level|
    ensures prefix + Proof(sha, level, position)
         == prefix + [NodeStep(level, position)] + Proof(sha, Up(sha, level), position / 2)
  {
  }

  method MerkleProof(sha: HashFunction, recordIds: seq<string>, index: int) returns (proof: Option<seq<StepText>>)
    ensures proof.Some? <==> 0 <= index < |recordIds| && Leaves(recordIds).Some?
    ensures proof.Some? ==> proof.value == PathToText(Proof(sha, Leaves(recordIds).value, index))
  {
    if index < 0 || index >= |recordIds| {
      return None;
    }
    var leaves := Leaves(recordIds);
    if leaves.None? {
      return None;
    }
    var level, position := leaves.value, index;
    var path: seq<Step> := [];
    ghost var whole := Proof(sha, level, position);
    assert path + whole == whole;
    while |level| > 1
      invariant 0 <= position < |level|
      invariant path + Proof(sha, level, position) == whole
      decreases |level|
    {
      ProofUnfolds(sha, level, position, path);
      ghost var node, padded := NodeStep(level, position), Pad(level);
      if |level| % 2 == 1 {
        level := level + [level[|level| - 1]];
      }
      assert level == padded;
      var sibling := Sibling(position);
      SiblingInside(|level|, position);
      var step := Step(level[sibling], if sibling < position then Left else Right);
      assert step == node;
      path := path + [step];
      level := Parents(sha, level);
      position := position / 2;
    }
    assert path == whole;
    proof := Some(PathToText(path));
  }

  function StepOf(text: StepText): Option<Step> {
    match Leaf(text.sibling)
    case Some(sibling) =>
      if text.side == "left" then Some(Step(sibling, Left))
      else if text.side == "right" then Some(Step(sibling, Right))
      else None
    case None => None
  }

  function PathOf(proof: seq<StepText>): (r: Option<seq<Step>>) {
    if proof == [] then Some([])
    else
      match (StepOf(proof[0]), PathOf(proof[1..]))
      case (Some(step), Some(rest)) => Some([step] + rest)
      case _ => None
  }

  /** Accepted: everything decodes and the path climbs to the expected root. */
  predicate Accepts(sha: HashFunction, recordId: string, proof: seq<StepText>, expectedRoot: string) {
    && Leaf(recordId).Some?
    && PathOf(proof).Some?
    && ToHex(Climb(sha, Leaf(recordId).value, PathOf(proof).value)) == expectedRoot
  }

  method VerifyMerkleProof(sha: HashFunction, recordId: string, proof: seq<StepText>, expectedRoot: string)
    returns (ok: bool)
    ensures ok == Accepts(sha, recordId, proof, expectedRoot)
  {
    var leaf := Leaf(recordId);
    if leaf.None? {
      return false;
    }
    var value := leaf.value;
    for i := 0 to |proof|
      invariant PathOf(proof[i..]).Some? == PathOf(proof).Some?
      invariant PathOf(proof).Some? ==>
                  Climb(sha, value, PathOf(proof[i..]).value) == Climb(sha, leaf.value, PathOf(proof).value)
    {
      assert proof[i..][0] == proof[i] && proof[i..][1..] == proof[i + 1..];
      var step := StepOf(proof[i]);
      if step.None? {
        return false;
      }
      value := sha(Pair(value, step.value));
      assert PathOf(proof).Some? ==> PathOf(proof[i..]).value[1..] == PathOf(proof[i + 1..]).value;
    }
    ok := ToHex(value) == expectedRoot;
  }

  // ---- text and digests -----------------------------------------------------------

  lemma LeafOfHex(d: Digest)
    ensures Leaf(ToHex(d)) == Some(d)
  {
    FromToHex(d);
  }

  lemma {:induction false} PathTextRoundTrip(path: seq<Step>)
    ensures PathOf(PathToText(path)) == Some(path)
  {
    if path != [] {
      LeafOfHex(path[0].sibling);
      PathTextRoundTrip(path[1..]);
      var text := PathToText(path);
      assert text[1..] == PathToText(path[1..]);
      assert path == [path[0]] + path[1..];
    }
  }

  // ---- completeness ---------------------------------------------------------------

  /** `Depth(n)` is the ceiling of the binary logarithm of `n`. */
  lemma {:induction false} DepthBounds(n: nat)
    requires n > 0
    ensures n <= Pow2(Depth(n))
    ensures n > 1 ==> Pow2(Depth(n) - 1) < n
  {
    if n > 1 {
      DepthBounds((n + 1) / 2);
    }
  }

  lemma {:induction false} ParentAt(sha: HashFunction, level: seq<Digest>, i: nat)
    requires |level| % 2 == 0 && i < |level| / 2
    ensures Parents(sha, level)[i] == sha(Siblings(level, i))
  {
    if i < |level| / 2 - 1 {
      ParentAt(sha, level[..|level| - 2], i);
    }
  }

  /** A node and its step hash to the node's parent. */
  lemma NodeParent(sha: HashFunction, level: seq<Digest>, p: nat)
    requires p < |Pad(level)|
    ensures Up(sha, level)[p / 2] == sha(Pair(Pad(level)[p], NodeStep(level, p)))
  {
    var padded := Pad(level);
    ParentAt(sha, padded, p / 2);
    assert p % 2 == 1 ==> 2 * (p / 2) == Sibling(p) && 2 * (p / 2) + 1 == p;
    assert p % 2 == 0 ==> 2 * (p / 2) == p && 2 * (p / 2) + 1 == Sibling(p);
  }

  lemma ClimbStep(sha: HashFunction, value: Digest, step: Step, rest: seq<Step>)
    ensures Climb(sha, value, [step] + rest) == Climb(sha, sha(Pair(value, step)), rest)
  {
    assert ([step] + rest)[1..] == rest;
  }

  /** Every honest proof has the depth of the tree and climbs to its root. */
  lemma {:induction false} ProofClimbs(sha: HashFunction, level: seq<Digest>, position: nat)
    requires position < |level|
    ensures |Proof(sha, level, position)| == Depth(|level|)
    ensures Climb(sha, level[position], Proof(sha, level, position)) == Root(sha, level)
    decreases |level|
  {
    if |level| > 1 {
      var up := Up(sha, level);
      ProofClimbs(sha, up, position / 2);
      NodeParent(sha, level, position);
      ClimbStep(sha, level[position], NodeStep(level, position), Proof(sha, up, position / 2));
    }
  }

  lemma MerkleCompleteness(sha: HashFunction, ids: seq<string>, index: nat)
    requires index < |ids| && Leaves(ids).Some?
    ensures var path := Proof(sha, Leaves(ids).value, index);
            && |path| == Depth(|ids|)
            && Accepts(sha, ids[index], PathToText(path), RootText(sha, ids).value)
  {
    var leaves := Leaves(ids).value;
    ProofClimbs(sha, leaves, index);
    PathTextRoundTrip(Proof(sha, leaves, index));
  }

  // ---- soundness ------------------------------------------------------------------

  /** The leaf that a position of the padded tree of width 2^Depth(n) repeats. */
  function Resolve(n: nat, position: nat): (r: nat)
    requires n > 0 && position < Pow2(Depth(n))
    ensures r < n
    ensures position < n ==> r == position
    decreases n, 1
  {
    if n == 1 then 0
    else if PadIndex(n, position) < n then PadIndex(n, position)
    else n - 1
  }

  /** Where that leaf stands in the level once it has been padded. */
  function PadIndex(n: nat, position: nat): (p: nat)
    requires n > 1 && position < Pow2(Depth(n))
    ensures p < (n + 1) / 2 * 2 && p % 2 == position % 2
    ensures position < n ==> p == position
    decreases n, 0
  {
    2 * Resolve((n + 1) / 2, position / 2) + position % 2
  }

  /** The only path that can be accepted for a position of the padded tree. */
  function PaddedProof(sha: HashFunction, level: seq<Digest>, position: nat): seq<Step>
    requires level != [] && position < Pow2(Depth(|level|))
    decreases |level|
  {
    if |level| == 1 then []
    else [NodeStep(level, PadIndex(|level|, position))] + PaddedProof(sha, Up(sha, level), position / 2)
  }

  /** The position spelled by the sides of a path, lowest bit first. */
  function PositionOf(path: seq<Step>): (p: nat)
    ensures p < Pow2(|path|)
  {
    if path == [] then 0 else (if path[0].side == Left then 1 else 0) + 2 * PositionOf(path[1..])
  }

  ghost function NodeInput(level: seq<Digest>, p: nat): seq<Byte>
    requires p < |Pad(level)|
  {
    Pair(Pad(level)[p], NodeStep(level, p))
  }

  ghost function LevelInputs(level: seq<Digest>): set<seq<Byte>> {
    set p | 0 <= p < |Pad(level)| :: NodeInput(level, p)
  }

  /** The strings hashed while computing a root. */
  ghost function TreeInputs(sha: HashFunction, level: seq<Digest>): set<seq<Byte>>
    decreases |level|
  {
    if |level| <= 1 then {} else LevelInputs(level) + TreeInputs(sha, Up(sha, level))
  }

  /** The strings hashed while following a path. */
  ghost function PathInputs(sha: HashFunction, value: Digest, path: seq<Step>): set<seq<Byte>>
    decreases |path|
  {
    if path == [] then {} else {Pair(value, path[0])} + PathInputs(sha, sha(Pair(value, path[0])), path[1..])
  }

  lemma PairInjective(a: Digest, s: Step, b: Digest, t: Step)
    requires s.side == t.side && Pair(a, s) == Pair(b, t)
    ensures a == b && s == t
  {
  }

  /** Padding repeats the leaf that `Resolve` names. */
  lemma PadResolves(level: seq<Digest>, position: nat)
    requires |level| > 1 && position < Pow2(Depth(|level|))
    ensures PadIndex(|level|, position) < |Pad(level)|
    ensures Pad(level)[PadIndex(|level|, position)] == level[Resolve(|level|, position)]
    ensures PadIndex(|level|, position) / 2 == Resolve((|level| + 1) / 2, position / 2)
  {
  }

  lemma ProofCons(step: Step, rest: seq<Step>, path: seq<Step>)
    requires path != []
    ensures path == [step] + rest <==> path[0] == step && path[1..] == rest
  {
    assert path == [path[0]] + path[1..];
    assert ([step] + rest)[1..] == rest;
  }

  /** A value and path of full length reach the root exactly when the value is the padded
      leaf at the position the sides spell and the siblings are that position's own,
      unless two of the strings hashed on the way collide. */
  lemma {:induction false} MerkleSoundness(sha: HashFunction, level: seq<Digest>, value: Digest, path: seq<Step>)
    requires level != [] && |path| == Depth(|level|)
    requires InjectiveOn(sha, TreeInputs(sha, level) + PathInputs(sha, value, path))
    ensures Climb(sha, value, path) == Root(sha, level) <==>
              value == level[Resolve(|level|, PositionOf(path))] &&
              path == PaddedProof(sha, level, PositionOf(path))
    decreases |level|
  {
    if |level| > 1 {
      var up, position := Up(sha, level), PositionOf(path);
      var p := PadIndex(|level|, position);
      assert position / 2 == PositionOf(path[1..]);
      MerkleSoundness(sha, up, sha(Pair(value, path[0])), path[1..]);
      PadResolves(level, position);
      NodeParent(sha, level, p);
      assert NodeInput(level, p) in LevelInputs(level);
      ProofCons(NodeStep(level, p), PaddedProof(sha, up, position / 2), path);
      assert Separates(sha, Pair(value, path[0]), NodeInput(level, p));
      if sha(Pair(value, path[0])) == sha(NodeInput(level, p)) {
        PairInjective(value, path[0], Pad(level)[p], NodeStep(level, p));
      }
    }
  }

  /** For a real position the accepted path is the honest proof, and nothing else. */
  lemma {:induction false} PaddedProofOfLeaf(sha: HashFunction, level: seq<Digest>, position: nat)
    requires position < |level|
    ensures position < Pow2(Depth(|level|))
    ensures PaddedProof(sha, level, position) == Proof(sha, level, position)
    decreases |level|
  {
    DepthBounds(|level|);
    if |level| > 1 {
      PaddedProofOfLeaf(sha, Up(sha, level), position / 2);
    }
  }

  /** What a verifier learns: the record is one of the committed records. */
  lemma AcceptedRecordIsCommitted(sha: HashFunction, ids: seq<string>, recordId: string, proof: seq<StepText>)
    requires ids != [] && Leaves(ids).Some?
    requires Accepts(sha, recordId, proof, RootText(sha, ids).value)
    requires |PathOf(proof).value| == Depth(|ids|)
    requires InjectiveOn(sha, TreeInputs(sha, Leaves(ids).value)
                              + PathInputs(sha, Leaf(recordId).value, PathOf(proof).value))
    ensures exists i :: 0 <= i < |ids| && Leaf(ids[i]) == Leaf(recordId)
  {
    var leaves := Leaves(ids).value;
    var path := PathOf(proof).value;
    ToHexInjective(Climb(sha, Leaf(recordId).value, path), Root(sha, leaves));
    MerkleSoundness(sha, leaves, Leaf(recordId).value, path);
    var i := Resolve(|leaves|, PositionOf(path));
    assert Leaf(ids[i]) == Some(leaves[i]);
  }

  // ---- paths of any length --------------------------------------------------------

  /** The level `j` steps above the leaves, the root at most. */
  function UpBy(sha: HashFunction, level: seq<Digest>, j: nat): (r: seq<Digest>)
    requires level != []
    ensures r != []
    decreases j
  {
    if j == 0 || |level| == 1 then level else UpBy(sha, Up(sha, level), j - 1)
  }

  lemma {:induction false} UpByDepth(sha: HashFunction, level: seq<Digest>, j: nat)
    requires level != [] && j <= Depth(|level|)
    ensures Depth(|UpBy(sha, level, j)|) == Depth(|level|) - j
    decreases j
  {
    if j > 0 {
      UpByDepth(sha, Up(sha, level), j - 1);
    }
  }

  /** What holds of a level and of every level above one of which it holds. */
  lemma {:induction false} UpByKeeps(sha: HashFunction, level: seq<Digest>, j: nat, holds: seq<Digest> -> bool)
    requires level != [] && holds(level)
    requires forall below :: |below| > 1 && holds(below) ==> holds(Up(sha, below))
    ensures holds(UpBy(sha, level, j))
    decreases j
  {
    if j > 0 && |level| > 1 {
      UpByKeeps(sha, Up(sha, level), j - 1, holds);
    }
  }

  /** The level has this root, and these strings cover what is hashed for it. */
  ghost function HasRootWithin(sha: HashFunction, root: Digest, inputs: set<seq<Byte>>): seq<Digest> -> bool {
    (level: seq<Digest>) => level != [] && Root(sha, level) == root && TreeInputs(sha, level) <= inputs
  }

  lemma RootWithinAbove(sha: HashFunction, root: Digest, inputs: set<seq<Byte>>, level: seq<Digest>)
    requires |level| > 1 && HasRootWithin(sha, root, inputs)(level)
    ensures HasRootWithin(sha, root, inputs)(Up(sha, level))
  {
  }

  /** All levels of a tree have its root, and no more is hashed for them. */
  lemma UpByKeepsRoot(sha: HashFunction, level: seq<Digest>, j: nat, inputs: set<seq<Byte>>)
    requires level != [] && TreeInputs(sha, level) <= inputs
    ensures Root(sha, UpBy(sha, level, j)) == Root(sha, level) && TreeInputs(sha, UpBy(sha, level, j)) <= inputs
  {
    var holds := HasRootWithin(sha, Root(sha, level), inputs);
    forall below | |below| > 1 && holds(below)
      ensures holds(Up(sha, below))
    {
      RootWithinAbove(sha, Root(sha, level), inputs, below);
    }
    UpByKeeps(sha, level, j, holds);
  }

  lemma InjectiveOnFewer(sha: HashFunction, inputs: set<seq<Byte>>, fewer: set<seq<Byte>>)
    requires InjectiveOn(sha, inputs) && fewer <= inputs
    ensures InjectiveOn(sha, fewer)
  {
  }

  /** The path is its own padded proof, for the node that the value is. */
  ghost predicate OwnPath(sha: HashFunction, nodes: seq<Digest>, value: Digest, path: seq<Step>)
    requires nodes != [] && |path| == Depth(|nodes|)
  {
    value == nodes[Resolve(|nodes|, PositionOf(path))] && path == PaddedProof(sha, nodes, PositionOf(path))
  }

  lemma SoundWithin(sha: HashFunction, inputs: set<seq<Byte>>, level: seq<Digest>, value: Digest, path: seq<Step>)
    requires level != [] && |path| == Depth(|level|)
    requires InjectiveOn(sha, inputs) && TreeInputs(sha, level) + PathInputs(sha, value, path) <= inputs
    ensures Climb(sha, value, path) == Root(sha, level) <==> OwnPath(sha, level, value, path)
  {
    InjectiveOnFewer(sha, inputs, TreeInputs(sha, level) + PathInputs(sha, value, path));
    MerkleSoundness(sha, level, value, path);
  }

  /** The verifier does not count steps: a shorter path reaches the root exactly when the value
      is the padded node of that height at the position the sides spell and the siblings are
      that node's own, unless two of the strings hashed on the way collide. */
  lemma ShortPathSoundness(sha: HashFunction, level: seq<Digest>, value: Digest, path: seq<Step>, j: nat)
    requires level != [] && |path| + j == Depth(|level|)
    requires InjectiveOn(sha, TreeInputs(sha, level) + PathInputs(sha, value, path))
    ensures |path| == Depth(|UpBy(sha, level, j)|)
    ensures Climb(sha, value, path) == Root(sha, level) <==> OwnPath(sha, UpBy(sha, level, j), value, path)
  {
    var inputs := TreeInputs(sha, level) + PathInputs(sha, value, path);
    UpByDepth(sha, level, j);
    UpByKeepsRoot(sha, level, j, inputs);
    SoundWithin(sha, inputs, UpBy(sha, level, j), value, path);
  }

  lemma {:induction false} ClimbParts(sha: HashFunction, value: Digest, path: seq<Step>, k: nat)
    requires k <= |path|
    ensures Climb(sha, value, path) == Climb(sha, Climb(sha, value, path[..k]), path[k..])
    ensures PathInputs(sha, Climb(sha, value, path[..k]), path[k..]) <= PathInputs(sha, value, path)
    decreases k
  {
    if k == 0 {
      assert path[k..] == path;
    } else {
      ClimbParts(sha, sha(Pair(value, path[0])), path[1..], k - 1);
      assert path[..k][1..] == path[1..][..k - 1] && path[k..] == path[1..][k - 1..];
    }
  }

  /** A longer path reaches the root exactly when its first steps lead to a padded leaf and the
      rest is that leaf's own path. */
  lemma LongPathSoundness(sha: HashFunction, level: seq<Digest>, value: Digest, path: seq<Step>)
    requires level != [] && |path| >= Depth(|level|)
    requires InjectiveOn(sha, TreeInputs(sha, level) + PathInputs(sha, value, path))
    ensures var k := |path| - Depth(|level|);
            Climb(sha, value, path) == Root(sha, level) <==>
            OwnPath(sha, level, Climb(sha, value, path[..k]), path[k..])
  {
    var k := |path| - Depth(|level|);
    ClimbParts(sha, value, path, k);
    SoundWithin(sha, TreeInputs(sha, level) + PathInputs(sha, value, path), level, Climb(sha, value, path[..k]),
                path[k..]);
  }

  /** And such shorter paths exist: the verifier accepts every inner node with its own path. */
  lemma InnerNodeAccepted(sha: HashFunction, ids: seq<string>, j: nat, position: nat)
    requires ids != [] && Leaves(ids).Some? && j <= Depth(|ids|)
    requires position < |UpBy(sha, Leaves(ids).value, j)|
    ensures var nodes := UpBy(sha, Leaves(ids).value, j);
            var path := Proof(sha, nodes, position);
            && |path| == Depth(|ids|) - j
            && Accepts(sha, ToHex(nodes[position]), PathToText(path), RootText(sha, ids).value)
  {
    var nodes := UpBy(sha, Leaves(ids).value, j);
    UpByDepth(sha, Leaves(ids).value, j);
    UpByKeepsRoot(sha, Leaves(ids).value, j, TreeInputs(sha, Leaves(ids).value));
    ProofClimbs(sha, nodes, position);
    LeafOfHex(nodes[position]);
    PathTextRoundTrip(Proof(sha, nodes, position));
  }

  // ---- binding --------------------------------------------------------------------

  /** The padded tree's bottom level, 2^Depth(n) leaves. */
  ghost function Expand(level: seq<Digest>): (r: seq<Digest>)
    requires level != []
    ensures |r| == Pow2(Depth(|level|))
  {
    seq(Pow2(Depth(|level|)), i requires 0 <= i < Pow2(Depth(|level|)) => level[Resolve(|level|, i)])
  }

  ghost function ExpandedInput(level: seq<Digest>, i: nat): seq<Byte>
    requires |level| > 1 && i < |Expand(level)|
  {
    Pair(Expand(level)[i], NodeStep(level, PadIndex(|level|, i)))
  }

  lemma ExpandedNode(level: seq<Digest>, i: nat)
    requires |level| > 1 && i < |Expand(level)|
    ensures var p := PadIndex(|level|, i);
            p < |Pad(level)| && ExpandedInput(level, i) == NodeInput(level, p)
  {
    PadResolves(level, i);
  }

  lemma ExpandWidth(sha: HashFunction, level: seq<Digest>)
    requires |level| > 1
    ensures |Expand(level)| == 2 * |Expand(Up(sha, level))|
  {
  }

  lemma ExpandedParent(sha: HashFunction, level: seq<Digest>, i: nat)
    requires |level| > 1 && i < |Expand(level)|
    ensures i / 2 < |Expand(Up(sha, level))|
    ensures Expand(Up(sha, level))[i / 2] == Up(sha, level)[PadIndex(|level|, i) / 2]
  {
    var up := Up(sha, level);
    PadResolves(level, i);
    ExpandWidth(sha, level);
    ExpandAt(up, i / 2);
  }

  lemma ExpandAt(level: seq<Digest>, i: nat)
    requires level != [] && i < |Expand(level)|
    ensures Expand(level)[i] == level[Resolve(|level|, i)]
  {
  }

  /** The parent of two neighbouring padded leaves. */
  lemma ExpandUp(sha: HashFunction, level: seq<Digest>, i: nat)
    requires |level| > 1 && i < |Expand(level)|
    ensures i / 2 < |Expand(Up(sha, level))|
    ensures Expand(Up(sha, level))[i / 2] == sha(ExpandedInput(level, i))
    ensures ExpandedInput(level, i) in TreeInputs(sha, level)
  {
    var p := PadIndex(|level|, i);
    ExpandedNode(level, i);
    ExpandedParent(sha, level, i);
    NodeParent(sha, level, p);
    assert NodeInput(level, p) in LevelInputs(level);
  }

  lemma {:induction false} ExpandSibling(level: seq<Digest>, i: nat)
    requires |level| > 1 && i < |Expand(level)|
    ensures Sibling(i) < |Expand(level)|
    ensures NodeStep(level, PadIndex(|level|, i)).sibling == Expand(level)[Sibling(i)]
  {
    assert |Expand(level)| == 2 * Pow2(Depth(|level|) - 1);
    PadResolves(level, i);
    PadResolves(level, Sibling(i));
    assert Sibling(i) / 2 == i / 2;
    assert PadIndex(|level|, Sibling(i)) == Sibling(PadIndex(|level|, i));
  }

  lemma ExpandDown(sha: HashFunction, a: seq<Digest>, b: seq<Digest>, i: nat)
    requires |a| > 1 && |b| > 1 && i < |Expand(a)| == |Expand(b)|
    requires InjectiveOn(sha, TreeInputs(sha, a) + TreeInputs(sha, b))
    requires Expand(Up(sha, a)) == Expand(Up(sha, b))
    ensures Expand(a)[i] == Expand(b)[i]
  {
    ExpandUp(sha, a, i);
    ExpandUp(sha, b, i);
    assert Separates(sha, ExpandedInput(a, i), ExpandedInput(b, i));
    PairInjective(Expand(a)[i], NodeStep(a, PadIndex(|a|, i)), Expand(b)[i], NodeStep(b, PadIndex(|b|, i)));
  }

  lemma ExpandedInputsAgree(a: seq<Digest>, b: seq<Digest>, i: nat)
    requires |a| > 1 && |b| > 1 && Expand(a) == Expand(b) && i < |Expand(a)|
    ensures ExpandedInput(a, i) == ExpandedInput(b, i)
  {
    ExpandSibling(a, i);
    ExpandSibling(b, i);
  }

  lemma AgreeDown(sha: HashFunction, a: seq<Digest>, b: seq<Digest>)
    requires |a| > 1 && |b| > 1 && |Expand(a)| == |Expand(b)|
    requires InjectiveOn(sha, TreeInputs(sha, a) + TreeInputs(sha, b))
    requires Expand(Up(sha, a)) == Expand(Up(sha, b))
    ensures Expand(a) == Expand(b)
  {
    forall i | 0 <= i < |Expand(a)|
      ensures Expand(a)[i] == Expand(b)[i]
    {
      ExpandDown(sha, a, b, i);
    }
  }

  lemma AgreeUpAt(sha: HashFunction, a: seq<Digest>, b: seq<Digest>, i: nat)
    requires |a| > 1 && |b| > 1 && Expand(a) == Expand(b) && i < |Expand(a)|
    ensures i / 2 < |Expand(Up(sha, a))| && i / 2 < |Expand(Up(sha, b))|
    ensures Expand(Up(sha, a))[i / 2] == Expand(Up(sha, b))[i / 2]
  {
    ExpandUp(sha, a, i);
    ExpandUp(sha, b, i);
    ExpandedInputsAgree(a, b, i);
  }

  ghost predicate SameAt(a: seq<Digest>, b: seq<Digest>, j: nat) {
    j < |a| && j < |b| && a[j] == b[j]
  }

  lemma SameEverywhere(a: seq<Digest>, b: seq<Digest>)
    requires |a| == |b| && forall j: nat :: j < |a| ==> SameAt(a, b, j)
    ensures a == b
  {
    forall j | 0 <= j < |a|
      ensures a[j] == b[j]
    {
      assert SameAt(a, b, j);
    }
  }

  lemma AgreeUp(sha: HashFunction, a: seq<Digest>, b: seq<Digest>)
    requires |a| > 1 && |b| > 1 && Expand(a) == Expand(b)
    ensures Expand(Up(sha, a)) == Expand(Up(sha, b))
  {
    ExpandWidth(sha, a);
    ExpandWidth(sha, b);
    forall j: nat | j < |Expand(Up(sha, a))|
      ensures SameAt(Expand(Up(sha, a)), Expand(Up(sha, b)), j)
    {
      AgreeUpAt(sha, a, b, 2 * j);
      assert 2 * j / 2 == j;
    }
    SameEverywhere(Expand(Up(sha, a)), Expand(Up(sha, b)));
  }

  /** Trees of the same depth have the same root exactly when their padded leaves agree,
      unless two of the strings hashed for them collide. */
  lemma {:induction false} RootsAgree(sha: HashFunction, a: seq<Digest>, b: seq<Digest>)
    requires a != [] && b != [] && Depth(|a|) == Depth(|b|)
    requires InjectiveOn(sha, TreeInputs(sha, a) + TreeInputs(sha, b))
    ensures Root(sha, a) == Root(sha, b) <==> Expand(a) == Expand(b)
    decreases |a|
  {
    if |a| == 1 {
      assert Expand(a) == [a[0]] && Expand(b) == [b[0]];
    } else {
      RootsAgree(sha, Up(sha, a), Up(sha, b));
      if Expand(a) == Expand(b) {
        AgreeUp(sha, a, b);
      } else if Root(sha, a) == Root(sha, b) {
        AgreeDown(sha, a, b);
      }
    }
  }

  /** Without repeated leaves, padding can be undone. */
  lemma ExpandDistinct(a: seq<Digest>, b: seq<Digest>)
    requires a != [] && b != [] && Depth(|a|) == Depth(|b|)
    requires Distinct(a) && Distinct(b) && Expand(a) == Expand(b)
    ensures a == b
  {
    DepthBounds(|a|);
    DepthBounds(|b|);
    if |a| < |b| {
      LongerRepeats(a, b);
    } else if |b| < |a| {
      LongerRepeats(b, a);
    }
    forall i | 0 <= i < |a|
      ensures a[i] == b[i]
    {
      assert Expand(a)[i] == a[i] && Expand(b)[i] == b[i];
    }
  }

  /** A longer list with the same padded leaves as a shorter one repeats a leaf. */
  lemma LongerRepeats(a: seq<Digest>, b: seq<Digest>)
    requires a != [] && b != [] && Depth(|a|) == Depth(|b|)
    requires |a| < |b| && Expand(a) == Expand(b)
    ensures !Distinct(b)
  {
    DepthBounds(|b|);
    var r := Resolve(|a|, |a|);
    assert Expand(a)[r] == a[r] && Expand(a)[|a|] == a[r];
    assert Expand(b)[r] == b[r] && Expand(b)[|a|] == b[|a|];
  }

  /** Lists without repeated leaves whose trees have the same number of levels: one root, one list. */
  lemma MerkleBinding(sha: HashFunction, a: seq<Digest>, b: seq<Digest>)
    requires a != [] && b != [] && Depth(|a|) == Depth(|b|)
    requires Distinct(a) && Distinct(b)
    requires InjectiveOn(sha, TreeInputs(sha, a) + TreeInputs(sha, b))
    ensures Root(sha, a) == Root(sha, b) <==> a == b
  {
    RootsAgree(sha, a, b);
    if Root(sha, a) == Root(sha, b) {
      ExpandDistinct(a, b);
    }
  }

  /** Repeating the odd last leaf never changes the root. */
  lemma RepeatedTailKeepsRoot(sha: HashFunction, level: seq<Digest>)
    requires |level| > 1 && |level| % 2 == 1
    ensures var longer := level + [level[|level| - 1]];
            Root(sha, longer) == Root(sha, level) && Depth(|longer|) == Depth(|level|) && !Distinct(longer)
  {
    var longer := level + [level[|level| - 1]];
    assert Up(sha, longer) == Up(sha, level);
    assert longer[|level| - 1] == longer[|level|];
  }

  /** Why the depth must be fixed: an inner level has the root of its tree, for leaves and
      inner nodes are hashed alike. */
  lemma InnerLevelKeepsRoot(sha: HashFunction, level: seq<Digest>)
    requires |level| > 1
    ensures Root(sha, Up(sha, level)) == Root(sha, level)
    ensures Depth(|Up(sha, level)|) == Depth(|level|) - 1 && Up(sha, level) != level
  {
  }
}
