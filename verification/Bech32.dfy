/** The Bech32 and Bech32m checksum and the check of a mainnet address
    (scripts/finalize_public_identity.py:30-140; BIP 173 and BIP 350). */
module Bech32 {
  type Word = bv32

  // ---- folding --------------------------------------------------------------------

  function Fold<T>(step: (T, T) -> T, state: T, values: seq<T>): T {
    if values == [] then state else step(Fold(step, state, values[..|values| - 1]), values[|values| - 1])
  }

  function Pairwise<T>(op: (T, T) -> T, a: seq<T>, b: seq<T>): (d: seq<T>)
    requires |a| == |b|
    ensures |d| == |a| && forall i :: 0 <= i < |a| ==> d[i] == op(a[i], b[i])
  {
    seq(|a|, i requires 0 <= i < |a| => op(a[i], b[i]))
  }

  /** One symbol: mixed in, together with the feedback of the bits on top. */
  function Stage<T>(mix: (T, T, T) -> T, feedback: T -> T): (T, T) -> T {
    (state: T, value: T) => mix(state, value, feedback(state))
  }

  ghost predicate IsLinear<T(!new)>(step: (T, T) -> T, op: (T, T) -> T) {
    forall a, b, v, w :: step(op(a, b), op(v, w)) == op(step(a, v), step(b, w))
  }

  ghost predicate IsLinearMap<T(!new)>(f: T -> T, op: (T, T) -> T) {
    forall a, b :: f(op(a, b)) == op(f(a), f(b))
  }

  ghost predicate IsLinearMix<T(!new)>(mix: (T, T, T) -> T, op: (T, T) -> T) {
    forall a, b, v, w, f, g :: mix(op(a, b), op(v, w), op(f, g)) == op(mix(a, v, f), mix(b, w, g))
  }

  ghost predicate IsShuffle<T(!new)>(op: (T, T) -> T) {
    forall a, b, v, w :: op(op(a, b), op(v, w)) == op(op(a, v), op(b, w))
  }

  lemma MixLinear<T(!new)>(room: T -> T, mix: (T, T, T) -> T, op: (T, T) -> T)
    requires IsShuffle(op) && IsLinearMap(room, op) && forall c, v, f :: mix(c, v, f) == op(op(room(c), v), f)
    ensures IsLinearMix(mix, op)
  {
    forall a, b, v, w, f, g
      ensures mix(op(a, b), op(v, w), op(f, g)) == op(mix(a, v, f), mix(b, w, g))
    {
      assert room(op(a, b)) == op(room(a), room(b));
      assert op(op(room(a), room(b)), op(v, w)) == op(op(room(a), v), op(room(b), w));
      var x, y := op(room(a), v), op(room(b), w);
      assert op(op(x, y), op(f, g)) == op(op(x, f), op(y, g));
    }
  }

  lemma StageLinear<T(!new)>(mix: (T, T, T) -> T, feedback: T -> T, op: (T, T) -> T)
    requires IsLinearMix(mix, op) && IsLinearMap(feedback, op)
    ensures IsLinear(Stage(mix, feedback), op)
  {
    var step := Stage(mix, feedback);
    forall a, b, v, w
      ensures step(op(a, b), op(v, w)) == op(step(a, v), step(b, w))
    {
      assert feedback(op(a, b)) == op(feedback(a), feedback(b));
    }
  }

  /** The first `n` picks taken together. */
  function Combined<T>(op: (T, T) -> T, zero: T, pick: (T, nat) -> T, from: T, n: nat): T {
    if n == 0 then zero else op(Combined(op, zero, pick, from, n - 1), pick(from, n - 1))
  }

  ghost predicate IsLinearPick<T(!new)>(pick: (T, nat) -> T, op: (T, T) -> T) {
    forall a, b, i: nat :: pick(op(a, b), i) == op(pick(a, i), pick(b, i))
  }

  /** Combining linear picks is linear. */
  lemma {:induction false} CombinedLinear<T(!new)>(
    op: (T, T) -> T, zero: T, pick: (T, nat) -> T, a: T, b: T, n: nat)
    requires IsShuffle(op) && op(zero, zero) == zero && IsLinearPick(pick, op)
    ensures Combined(op, zero, pick, op(a, b), n)
         == op(Combined(op, zero, pick, a, n), Combined(op, zero, pick, b, n))
  {
    if n > 0 {
      CombinedLinear(op, zero, pick, a, b, n - 1);
    }
  }

  /** Folding a linear step is linear. */
  lemma {:induction false} FoldLinear<T(!new)>(step: (T, T) -> T, op: (T, T) -> T, c: T, d: T, a: seq<T>, b: seq<T>)
    requires |a| == |b| && IsLinear(step, op)
    ensures Fold(step, op(c, d), Pairwise(op, a, b)) == op(Fold(step, c, a), Fold(step, d, b))
  {
    if a != [] {
      var n := |a| - 1;
      FoldLinear(step, op, c, d, a[..n], b[..n]);
      assert Pairwise(op, a, b)[..n] == Pairwise(op, a[..n], b[..n]);
    }
  }

  lemma {:induction false} FoldAppend<T>(step: (T, T) -> T, state: T, a: seq<T>, b: seq<T>)
    ensures Fold(step, state, a + b) == Fold(step, Fold(step, state, a), b)
  {
    if b == [] {
      assert a + b == a;
    } else {
      FoldAppend(step, state, a, b[..|b| - 1]);
      assert (a + b)[..|a + b| - 1] == a + b[..|b| - 1];
    }
  }

  // ---- the checksum ---------------------------------------------------------------

  function Xor(a: Word, b: Word): Word {
    a ^ b
  }

  /** Five bits make room for a symbol; the bits that fall out come back through the generators. */
  function Mix(checksum: Word, value: Word, feedback: Word): Word {
    Xor(Xor(Room(checksum), value), feedback)
  }

  function Room(checksum: Word): Word {
    (checksum & 0x1FF_FFFF) << 5
  }

  function Top(checksum: Word): Word {
    checksum >> 25
  }

  function Generator(bit: nat): Word {
    if bit == 0 then 0x3B6A57B2
    else if bit == 1 then 0x26508E6D
    else if bit == 2 then 0x1EA119FA
    else if bit == 3 then 0x3D4233DD
    else 0x2A1462B3
  }

  function HasBit(top: Word, bit: nat): bool {
    if bit == 0 then top & 1 != 0
    else if bit == 1 then (top >> 1) & 1 != 0
    else if bit == 2 then (top >> 2) & 1 != 0
    else if bit == 3 then (top >> 3) & 1 != 0
    else (top >> 4) & 1 != 0
  }

  function Mask(on: bool, g: Word): Word {
    if on then g else 0
  }

  /** The generator of a bit, if that bit is set. */
  function Tap(top: Word, bit: nat): Word {
    Mask(HasBit(top, bit), Generator(bit))
  }

  /** The generators selected by the first `n` bits. */
  function Selected(top: Word, n: nat): Word {
    Combined(Xor, 0, Tap, top, n)
  }

  lemma SelectedNext(top: Word, n: nat)
    ensures Selected(top, n + 1) == Xor(Selected(top, n), Mask(HasBit(top, n), Generator(n)))
  {
  }

  function Feedback(checksum: Word): Word {
    Selected(Top(checksum), 5)
  }

  lemma XorAssociates(a: Word, b: Word, c: Word)
    ensures Xor(Xor(a, b), c) == Xor(a, Xor(b, c))
  {
  }

  lemma XorCommutes(a: Word, b: Word)
    ensures Xor(a, b) == Xor(b, a)
  {
  }

  lemma Swaps<T(!new)>(op: (T, T) -> T, a: T, b: T, v: T, w: T)
    requires op(b, v) == op(v, b)
    requires op(op(a, b), op(v, w)) == op(a, op(b, op(v, w))) && op(b, op(v, w)) == op(op(b, v), w)
    requires op(op(v, b), w) == op(v, op(b, w)) && op(a, op(v, op(b, w))) == op(op(a, v), op(b, w))
    ensures op(op(a, b), op(v, w)) == op(op(a, v), op(b, w))
  {
  }

  lemma XorSwaps(a: Word, b: Word, v: Word, w: Word)
    ensures Xor(Xor(a, b), Xor(v, w)) == Xor(Xor(a, v), Xor(b, w))
  {
    XorCommutes(b, v);
    XorAssociates(a, b, Xor(v, w));
    XorAssociates(b, v, w);
    XorAssociates(v, b, w);
    XorAssociates(a, v, Xor(b, w));
    Swaps(Xor, a, b, v, w);
  }

  lemma XorShuffles()
    ensures IsShuffle(Xor)
  {
    forall a: Word, b: Word, v: Word, w: Word
      ensures Xor(Xor(a, b), Xor(v, w)) == Xor(Xor(a, v), Xor(b, w))
    {
      XorSwaps(a, b, v, w);
    }
  }

  lemma RoomIsLinear()
    ensures IsLinearMap(Room, Xor)
  {
  }

  lemma TopXor(a: Word, b: Word)
    ensures Top(Xor(a, b)) == Xor(Top(a), Top(b))
  {
  }

  lemma HasBitXor(a: Word, b: Word, bit: nat)
    ensures HasBit(Xor(a, b), bit) == (HasBit(a, bit) != HasBit(b, bit))
  {
  }

  lemma XorZero(a: Word)
    ensures Xor(a, 0) == a && Xor(0, a) == a && Xor(a, a) == 0
  {
  }

  lemma MaskXor(x: bool, y: bool, g: Word)
    ensures Mask(x != y, g) == Xor(Mask(x, g), Mask(y, g))
  {
    XorZero(g);
    XorZero(0);
  }

  lemma TapXor(a: Word, b: Word, bit: nat)
    ensures Tap(Xor(a, b), bit) == Xor(Tap(a, bit), Tap(b, bit))
  {
    HasBitXor(a, b, bit);
    MaskXor(HasBit(a, bit), HasBit(b, bit), Generator(bit));
  }

  lemma TapIsLinear()
    ensures IsLinearPick(Tap, Xor)
  {
    forall a: Word, b: Word, bit: nat
      ensures Tap(Xor(a, b), bit) == Xor(Tap(a, bit), Tap(b, bit))
    {
      TapXor(a, b, bit);
    }
  }

  /** Each generator comes in when its bit is set, and the bits of a sum are the sums of the bits. */
  lemma SelectedXor(a: Word, b: Word, n: nat)
    ensures Selected(Xor(a, b), n) == Xor(Selected(a, n), Selected(b, n))
  {
    XorShuffles();
    XorZero(0);
    TapIsLinear();
    CombinedLinear(Xor, 0, Tap, a, b, n);
  }

  /** The selected generators as one expression. */
  function Taps(top: Word): Word {
    Xor(LowTaps(top), HighTaps(top))
  }

  function LowTaps(top: Word): Word {
    Mask(top & 1 != 0, 0x3B6A57B2) ^ Mask((top >> 1) & 1 != 0, 0x26508E6D) ^ Mask((top >> 2) & 1 != 0, 0x1EA119FA)
  }

  function HighTaps(top: Word): Word {
    Mask((top >> 3) & 1 != 0, 0x3D4233DD) ^ Mask((top >> 4) & 1 != 0, 0x2A1462B3)
  }

  lemma SelectedIsTaps(top: Word)
    ensures Selected(top, 5) == Taps(top)
  {
    SelectedNext(top, 0);
    SelectedNext(top, 1);
    SelectedNext(top, 2);
    SelectedNext(top, 3);
    SelectedNext(top, 4);
  }

  lemma FeedbackIsTaps(c: Word)
    ensures Feedback(c) == Taps(Top(c))
  {
    SelectedIsTaps(Top(c));
  }

  lemma FeedbackIsLinear()
    ensures IsLinearMap(Feedback, Xor)
  {
    forall a: Word, b: Word
      ensures Feedback(Xor(a, b)) == Xor(Feedback(a), Feedback(b))
    {
      TopXor(a, b);
      SelectedXor(Top(a), Top(b), 5);
    }
  }

  /** The step of the checksum is linear over exclusive or. */
  lemma ChecksumIsLinear()
    ensures IsLinear(Stage(Mix, Feedback), Xor)
  {
    RoomIsLinear();
    XorShuffles();
    MixLinear(Room, Mix, Xor);
    FeedbackIsLinear();
    StageLinear(Mix, Feedback, Xor);
  }

  // ---- a step loses nothing -------------------------------------------------------

  function Checksum(state: Word, values: seq<Word>): Word {
    Fold(Stage(Mix, Feedback), state, values)
  }

  function StepBits(c: Word, v: Word): Word {
    Mix(c, v, Taps(Top(c)))
  }

  lemma StageIs(c: Word, v: Word)
    ensures Stage(Mix, Feedback)(c, v) == Mix(c, v, Feedback(c))
  {
  }

  lemma StepIs(c: Word, v: Word)
    ensures Stage(Mix, Feedback)(c, v) == StepBits(c, v)
  {
    StageIs(c, v);
    FeedbackIsTaps(c);
  }

  const STATES: Word := 0x4000_0000

  /** A difference that is there stays there: the low bits of the feedback give it away. */
  lemma StepVisible(c: Word)
    requires 0 < c < 0x4000_0000
    ensures 0 < StepBits(c, 0) < 0x4000_0000
  {
  }

  function Cap(n: nat): Word {
    if n == 0 then 1
    else if n == 1 then 0x20
    else if n == 2 then 0x400
    else if n == 3 then 0x8000
    else if n == 4 then 0x10_0000
    else if n == 5 then 0x200_0000
    else 0x4000_0000
  }

  /** The first six symbols are only packed together, without feedback. */
  lemma StepPacks(c: Word, v: Word, n: nat)
    requires n < 6 && c < Cap(n) && v < 32
    ensures StepBits(c, v) < Cap(n + 1)
    ensures c != 0 || v != 0 ==> StepBits(c, v) != 0
  {
  }

  ghost predicate AreSymbols(values: seq<Word>) {
    forall i :: 0 <= i < |values| ==> values[i] < 32
  }

  lemma {:induction false} BurstPacks(values: seq<Word>)
    requires |values| <= 6 && AreSymbols(values)
    ensures Checksum(0, values) < Cap(|values|)
    ensures (exists i :: 0 <= i < |values| && values[i] != 0) ==> Checksum(0, values) != 0
  {
    if values != [] {
      var n := |values| - 1;
      BurstPacks(values[..n]);
      StepIs(Checksum(0, values[..n]), values[n]);
      StepPacks(Checksum(0, values[..n]), values[n], n);
      if i :| 0 <= i < |values| && values[i] != 0 {
        assert i < n ==> values[..n][i] != 0;
      }
    }
  }

  lemma {:induction false} ZeroesKeep(c: Word, zeroes: seq<Word>)
    requires 0 < c < STATES && forall i :: 0 <= i < |zeroes| ==> zeroes[i] == 0
    ensures 0 < Checksum(c, zeroes) < STATES
  {
    if zeroes != [] {
      var n := |zeroes| - 1;
      ZeroesKeep(c, zeroes[..n]);
      StepIs(Checksum(c, zeroes[..n]), 0);
      StepVisible(Checksum(c, zeroes[..n]));
    }
  }

  lemma XorFacts(a: Word, b: Word)
    ensures a ^ a == 0
    ensures a ^ b == 0 <==> a == b
    ensures a < 32 && b < 32 ==> a ^ b < 32
  {
  }

  lemma DifferenceOf(x: seq<Word>, y: seq<Word>)
    requires |x| == |y| && AreSymbols(x) && AreSymbols(y)
    ensures AreSymbols(Pairwise(Xor, x, y))
    ensures x != y ==> exists i :: 0 <= i < |x| && Pairwise(Xor, x, y)[i] != 0
  {
    forall i | 0 <= i < |x|
      ensures Pairwise(Xor, x, y)[i] < 32 && (Pairwise(Xor, x, y)[i] == 0 <==> x[i] == y[i])
    {
      XorFacts(x[i], y[i]);
    }
  }

  lemma NoDifference(s: seq<Word>)
    ensures forall i :: 0 <= i < |s| ==> Pairwise(Xor, s, s)[i] == 0
  {
    forall i | 0 <= i < |s|
      ensures Pairwise(Xor, s, s)[i] == 0
    {
      XorFacts(s[i], s[i]);
    }
  }

  lemma ChecksumDifference(c: Word, d: Word, a: seq<Word>, b: seq<Word>)
    requires |a| == |b|
    ensures Checksum(c ^ d, Pairwise(Xor, a, b)) == Checksum(c, a) ^ Checksum(d, b)
  {
    ChecksumIsLinear();
    FoldLinear(Stage(Mix, Feedback), Xor, c, d, a, b);
  }

  /** From one state, different bursts of up to six symbols lead to different states. */
  lemma BurstsDiffer(c: Word, x: seq<Word>, y: seq<Word>)
    requires |x| == |y| <= 6 && AreSymbols(x) && AreSymbols(y) && x != y
    ensures 0 < Checksum(c, x) ^ Checksum(c, y) < STATES
  {
    var d := Pairwise(Xor, x, y);
    ChecksumDifference(c, c, x, y);
    XorFacts(c, c);
    DifferenceOf(x, y);
    BurstPacks(d);
    CapBounds(|x|);
    Below(Checksum(0, d), Cap(|x|));
  }

  lemma CapBounds(n: nat)
    requires n <= 6
    ensures Cap(n) <= STATES
  {
  }

  lemma Below(a: Word, b: Word)
    requires a < b <= STATES
    ensures a < STATES
  {
  }

  lemma DifferenceStays(c: Word, d: Word, s: seq<Word>)
    requires 0 < c ^ d < STATES
    ensures Checksum(c, s) != Checksum(d, s)
  {
    ChecksumDifference(c, d, s, s);
    NoDifference(s);
    ZeroesKeep(c ^ d, Pairwise(Xor, s, s));
    XorFacts(Checksum(c, s), Checksum(d, s));
  }

  /** Two sequences that differ only within six consecutive symbols never have the same checksum. */
  lemma BurstDetected(state: Word, before: seq<Word>, x: seq<Word>, y: seq<Word>, after: seq<Word>)
    requires |x| == |y| <= 6 && AreSymbols(x) && AreSymbols(y) && x != y
    ensures Checksum(state, before + x + after) != Checksum(state, before + y + after)
  {
    var c := Checksum(state, before);
    var step := Stage(Mix, Feedback);
    BurstsDiffer(c, x, y);
    DifferenceStays(Checksum(c, x), Checksum(c, y), after);
    FoldAppend(step, state, before, x);
    FoldAppend(step, state, before, y);
    FoldAppend(step, state, before + x, after);
    FoldAppend(step, state, before + y, after);
  }

  // ---- the loops ------------------------------------------------------------------

  lemma XorRegroups(a: Word, b: Word, c: Word, d: Word)
    requires d == Xor(b, c)
    ensures Xor(Xor(a, b), c) == Xor(a, d)
  {
    XorAssociates(a, b, c);
  }

  lemma SelectNext(mixed: Word, top: Word, bit: nat)
    ensures Xor(Xor(mixed, Selected(top, bit)), Mask(HasBit(top, bit), Generator(bit)))
         == Xor(mixed, Selected(top, bit + 1))
  {
    XorRegroups(mixed, Selected(top, bit), Mask(HasBit(top, bit), Generator(bit)), Selected(top, bit + 1));
  }

  /** The inner loop of `_bech32_polymod`. */
  method AddFeedback(mixed: Word, top: Word) returns (checksum: Word)
    ensures checksum == Xor(mixed, Selected(top, 5))
  {
    checksum := mixed;
    XorZero(mixed);
    for bit := 0 to 5
      invariant checksum == Xor(mixed, Selected(top, bit))
    {
      SelectNext(mixed, top, bit);
      XorZero(checksum);
      if HasBit(top, bit) {
        checksum := Xor(checksum, Generator(bit));
      }
    }
  }

  lemma OneMoreSymbol(state: Word, values: seq<Word>, i: nat)
    requires i < |values|
    ensures Checksum(state, values[..i + 1])
         == Mix(Checksum(state, values[..i]), values[i], Selected(Top(Checksum(state, values[..i])), 5))
  {
    assert values[..i + 1][..i] == values[..i];
    var c := Checksum(state, values[..i]);
    assert Checksum(state, values[..i + 1]) == Stage(Mix, Feedback)(c, values[i]);
    StageIs(c, values[i]);
  }

  /** `_bech32_polymod`. */
  method Polymod(values: seq<Word>) returns (checksum: Word)
    ensures checksum == Checksum(1, values)
  {
    checksum := 1;
    for i := 0 to |values|
      invariant checksum == Checksum(1, values[..i])
    {
      OneMoreSymbol(1, values, i);
      var top := Top(checksum);
      checksum := AddFeedback(Xor(Room(checksum), values[i]), top);
    }
    assert values[..|values|] == values;
  }
}
