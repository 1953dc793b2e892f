/**
 * The window classifier (`Cascade::runCascade`) and its offset look-up table
 * (`Cascade::createLut`), src/Cascade.php.
 *
 * Tree `i` occupies treeCodes[Root(i) .. Root(i) + 4 * 2^d); node `idx` (heap numbering from
 * 1, children 2 idx and 2 idx + 1) has its four offsets dy0, dx0, dy1, dx1 at NodePos(i, idx).
 * Pixel addresses use 256x fixed point: a coordinate is shifted left by 8 and an offset added,
 * and the sum is shifted right by 8, which rounds toward negative infinity.
 */
module Classifier {
  import opened MathUtil
  import opened Forests

  /**
   * The look-up table, a PHP array indexed as lut[pos][s][k]. The source only writes single
   * slots and reads single slots, so the nested arrays are flattened into one map keyed by
   * (pos, s, k). A slot that was never written reads as null, which is 0 in PHP arithmetic.
   */
  type Lut = map<(int, int, int), int>

  function LutAt(lut: Lut, pos: int, s: int, k: int): int {
    if (pos, s, k) in lut then lut[(pos, s, k)] else 0
  }

  /** PHP's `$lut[$pos][$s][$k] = $v`. */
  function Put(lut: Lut, pos: int, s: int, k: int, v: int): (r: Lut)
    ensures LutAt(r, pos, s, k) == v
  {
    lut[(pos, s, k) := v]
  }

  /** Code slots per tree. */
  function BlockSize(d: nat): nat {
    4 * Pow2(d)
  }

  /** Where tree `i`'s block starts in treeCodes (the source's `root`). */
  function Root(d: nat, i: nat): nat {
    Times(i, BlockSize(d))
  }

  /** Where node `idx` of tree `i` starts in treeCodes (the source's `pos`). */
  function NodePos(d: nat, i: nat, idx: nat): nat {
    Root(d, i) + 4 * idx
  }

  lemma RootStep(d: nat, i: nat)
    ensures Root(d, i + 1) == Root(d, i) + BlockSize(d)
  {
  }

  /** Every internal node of tree `i` lies inside the tree's block, after its four padding slots. */
  lemma {:induction false} NodeInBlock(f: Forest, i: nat, idx: nat)
    requires f.Valid() && i < f.numberOfTrees && 1 <= idx < Pow2(f.treeDepth)
    ensures Root(f.treeDepth, i) + 4 <= NodePos(f.treeDepth, i, idx)
    ensures NodePos(f.treeDepth, i, idx) + 4 <= Root(f.treeDepth, i + 1) <= |f.treeCodes|
  {
    TimesMono(i + 1, f.numberOfTrees, BlockSize(f.treeDepth));
  }

  /**
   * The node tests runCascade reads are the file's bytes: code k of node idx of tree i is byte
   * 4 (idx - 1) + k of that tree's node tests, and the unused node 0 reads the padding zeros.
   */
  lemma NodeCodeInFile(bytes: seq<SignedByte>, f32: int -> real, i: nat, idx: nat, k: nat)
    requires Complete(bytes) && i < HeaderTrees(bytes) && idx < Pow2(HeaderDepth(bytes)) && k < 4
    ensures idx >= 1 ==> TreeStart(HeaderDepth(bytes), i) + 4 * (idx - 1) + k < |bytes|
    ensures Code(Decoded(bytes, f32), NodePos(HeaderDepth(bytes), i, idx) + k) ==
      if idx == 0 then 0 else bytes[TreeStart(HeaderDepth(bytes), i) + 4 * (idx - 1) + k]
  {
    var d, n := HeaderDepth(bytes), HeaderTrees(bytes);
    assert Decoded(bytes, f32).treeCodes == CodesOf(bytes, d, n);
    var q := 4 * idx + k;
    assert NodePos(d, i, idx) + k == Times(i, 4 * Pow2(d)) + q;
    CodesOfAt(bytes, d, n, i, q);
  }

  /** Distinct internal nodes, in the same tree or not, have distinct positions. */
  lemma {:induction false} NodePosInjective(d: nat, i: nat, idx: nat, i': nat, idx': nat)
    requires 1 <= idx < Pow2(d) && 1 <= idx' < Pow2(d)
    requires NodePos(d, i, idx) == NodePos(d, i', idx')
    ensures i == i' && idx == idx'
  {
    if i < i' {
      TimesMono(i + 1, i', BlockSize(d));
      assert false;
    } else if i' < i {
      TimesMono(i' + 1, i, BlockSize(d));
      assert false;
    }
  }

  // ---------------------------------------------------------------- the look-up table

  /** `$this->treeCodes[$p]`: a key past the end reads as null, which is 0 in arithmetic. */
  function Code(f: Forest, p: int): int {
    if 0 <= p < |f.treeCodes| then f.treeCodes[p] else 0
  }

  /** The four writes of createLut's inner loop for node position `pos`. */
  function WriteNode(lut: Lut, f: Forest, pos: int, s: int): Lut {
    var l0 := Put(lut, pos, s, 0, Code(f, pos) * s);
    var l1 := Put(l0, pos, s, 1, Code(f, pos + 1) * s);
    var l2 := Put(l1, pos, s, 2, Code(f, pos + 2) * s);
    Put(l2, pos, s, 3, Code(f, pos + 3) * s)
  }

  /** A write changes the one slot it names and no other. */
  lemma PutAt(lut: Lut, pos: int, s: int, k: int, v: int, q: int, t: int, m: int)
    ensures LutAt(Put(lut, pos, s, k, v), q, t, m) == if q == pos && t == s && m == k then v else LutAt(lut, q, t, m)
  {
  }

  lemma WriteNodeAt(lut: Lut, f: Forest, pos: int, s: int, q: int, t: int, k: int)
    ensures LutAt(WriteNode(lut, f, pos, s), q, t, k) ==
      if q == pos && t == s && 0 <= k < 4 then Code(f, pos + k) * s else LutAt(lut, q, t, k)
  {
    var l0 := Put(lut, pos, s, 0, Code(f, pos) * s);
    var l1 := Put(l0, pos, s, 1, Code(f, pos + 1) * s);
    var l2 := Put(l1, pos, s, 2, Code(f, pos + 2) * s);
    PutAt(lut, pos, s, 0, Code(f, pos) * s, q, t, k);
    PutAt(l0, pos, s, 1, Code(f, pos + 1) * s, q, t, k);
    PutAt(l1, pos, s, 2, Code(f, pos + 2) * s, q, t, k);
    PutAt(l2, pos, s, 3, Code(f, pos + 3) * s, q, t, k);
  }

  /** Repeating the writes of one node changes nothing: the inner loop's repetitions are harmless. */
  lemma WriteNodeTwice(lut: Lut, f: Forest, pos: int, s: int)
    ensures WriteNode(WriteNode(lut, f, pos, s), f, pos, s) == WriteNode(lut, f, pos, s)
  {
  }

  /**
   * The table after createLut has handled `m` trees. The inner loop never advances `idx`,
   * so for every tree only node 1, at Root + 4, receives an entry (and none when d = 0).
   */
  function LutOf(f: Forest, s: int, m: nat): Lut {
    if m == 0 then map[]
    else if f.treeDepth == 0 then LutOf(f, s, m - 1)
    else WriteNode(LutOf(f, s, m - 1), f, NodePos(f.treeDepth, m - 1, 1), s)
  }

  /** The four writes of one pass of createLut's inner loop are WriteNode, when the codes exist. */
  lemma WriteNodeDirect(lut: Lut, f: Forest, pos: int, s: int)
    requires 0 <= pos && pos + 4 <= |f.treeCodes|
    ensures Put(Put(Put(Put(lut, pos, s, 0, f.treeCodes[pos + 0] * s), pos, s, 1, f.treeCodes[pos + 1] * s),
                    pos, s, 2, f.treeCodes[pos + 2] * s), pos, s, 3, f.treeCodes[pos + 3] * s)
         == WriteNode(lut, f, pos, s)
  {
    assert Code(f, pos) == f.treeCodes[pos + 0] && Code(f, pos + 1) == f.treeCodes[pos + 1];
    assert Code(f, pos + 2) == f.treeCodes[pos + 2] && Code(f, pos + 3) == f.treeCodes[pos + 3];
  }

  /**
   * One pass of createLut's inner loop for tree `i`: the writes at the root node turn the
   * table of trees 0 .. i-1 (first pass) or 0 .. i (later passes) into that of trees 0 .. i.
   */
  lemma NodeWritten(f: Forest, s: int, i: nat, pos: int, first: bool, before: Lut)
    requires f.Valid() && i < f.numberOfTrees && f.treeDepth > 0 && pos == NodePos(f.treeDepth, i, 1)
    requires before == if first then LutOf(f, s, i) else LutOf(f, s, i + 1)
    ensures WriteNode(before, f, pos, s) == LutOf(f, s, i + 1)
  {
    if !first {
      WriteNodeTwice(LutOf(f, s, i), f, pos, s);
    }
  }

  /**
   * The inner loop of createLut for tree `i`: d passes, each writing the four offsets of the
   * node at `root + 4 * idx`. `idx` stays 1 throughout, so every pass writes the root node.
   */
  method FillTree(lut: Lut, f: Forest, root: int, s: int, ghost i: nat) returns (lut': Lut)
    requires f.Valid() && i < f.numberOfTrees && root == Root(f.treeDepth, i)
    requires lut == LutOf(f, s, i)
    ensures lut' == LutOf(f, s, i + 1)
  {
    lut' := lut;
    var idx := 1;
    var j := 0;
    while j < f.treeDepth
      invariant 0 <= j <= f.treeDepth
      invariant lut' == if j == 0 then LutOf(f, s, i) else LutOf(f, s, i + 1)
    {
      var pos := root + 4 * idx;
      NodeInBlock(f, i, 1);
      ghost var before := lut';
      lut' := Put(lut', pos, s, 0, f.treeCodes[pos + 0] * s);
      lut' := Put(lut', pos, s, 1, f.treeCodes[pos + 1] * s);
      lut' := Put(lut', pos, s, 2, f.treeCodes[pos + 2] * s);
      lut' := Put(lut', pos, s, 3, f.treeCodes[pos + 3] * s);
      WriteNodeDirect(before, f, pos, s);
      NodeWritten(f, s, i, pos, j == 0, before);
      j := j + 1;
    }
  }

  /** `createLut(s)`. */
  method CreateLut(f: Forest, s: int) returns (lut: Lut)
    requires f.Valid()
    ensures lut == LutOf(f, s, f.numberOfTrees)
  {
    lut := map[];
    var root := 0;
    var pow2 := Pow2(f.treeDepth);
    var i := 0;
    while i < f.numberOfTrees
      invariant 0 <= i <= f.numberOfTrees
      invariant root == Root(f.treeDepth, i)
      invariant lut == LutOf(f, s, i)
    {
      lut := FillTree(lut, f, root, s, i);
      RootStep(f.treeDepth, i);
      root := root + pow2 * 4;
      i := i + 1;
    }
  }

  /**
   * What runCascade reads from createLut's table at node `idx` of tree `i`: at the root node
   * the direct formula treeCodes[pos + k] * s; at every deeper node 0.
   */
  lemma {:induction false} LutOfAt(f: Forest, s: int, m: nat, i: nat, idx: nat, k: int)
    requires 1 <= idx < Pow2(f.treeDepth) && 0 <= k < 4
    ensures LutAt(LutOf(f, s, m), NodePos(f.treeDepth, i, idx), s, k) ==
      if i < m && idx == 1 then Code(f, NodePos(f.treeDepth, i, idx) + k) * s else 0
  {
    var d := f.treeDepth;
    var q := NodePos(d, i, idx);
    if m > 0 {
      LutOfAt(f, s, m - 1, i, idx, k);
      if d > 0 {
        LutOfAtStep(f, s, m, q, k);
        RootTest(d, i, idx, m - 1);
      }
    }
  }

  /** Node `idx` of tree `i` sits where the root node of tree `j` does exactly when it is that node. */
  lemma RootTest(d: nat, i: nat, idx: nat, j: nat)
    requires d > 0 && 1 <= idx < Pow2(d)
    ensures NodePos(d, i, idx) == NodePos(d, j, 1) <==> i == j && idx == 1
  {
    if NodePos(d, i, idx) == NodePos(d, j, 1) {
      NodePosInjective(d, i, idx, j, 1);
    }
  }

  /** Handling tree m - 1 changes only the four slots of that tree's root node, at scale `s`. */
  lemma LutOfAtStep(f: Forest, s: int, m: nat, q: int, k: int)
    requires 0 < m && f.treeDepth > 0
    ensures LutAt(LutOf(f, s, m), q, s, k) ==
      if q == NodePos(f.treeDepth, m - 1, 1) && 0 <= k < 4 then Code(f, q + k) * s else LutAt(LutOf(f, s, m - 1), q, s, k)
  {
    WriteNodeAt(LutOf(f, s, m - 1), f, NodePos(f.treeDepth, m - 1, 1), s, q, s, k);
  }

  // ---------------------------------------------------------------- sampling and the tree walk

  /** What the classifier samples from: the row-major pixels, the image width and the table. */
  datatype Sampler = Sampler(pixels: seq<int>, width: int, lut: Lut)

  /** A window: integer centre (x, y) and integer scale s. */
  datatype Window = Window(x: int, y: int, s: int)

  /**
   * The pixel address for fixed-point centre (fy, fx) and offsets (dy, dx):
   * `(fy + dy) >> 8` rows down and `(fx + dx) >> 8` across.
   */
  function Address(width: int, fy: int, fx: int, dy: int, dx: int): int {
    Shr8(fy + dy) * width + Shr8(fx + dx)
  }

  /** The pixel address for window `w`, whose centre is shifted left by 8 first. */
  function SampleIndex(width: int, w: Window, dy: int, dx: int): int {
    Address(width, w.y * 256, w.x * 256, dy, dx)
  }

  function FirstIndex(sm: Sampler, w: Window, pos: int): int {
    SampleIndex(sm.width, w, LutAt(sm.lut, pos, w.s, 0), LutAt(sm.lut, pos, w.s, 1))
  }

  function SecondIndex(sm: Sampler, w: Window, pos: int): int {
    SampleIndex(sm.width, w, LutAt(sm.lut, pos, w.s, 2), LutAt(sm.lut, pos, w.s, 3))
  }

  /** Both pixels the node at `pos` compares lie inside the pixel array. */
  predicate SampleOk(sm: Sampler, w: Window, pos: int) {
    0 <= FirstIndex(sm, w, pos) < |sm.pixels| && 0 <= SecondIndex(sm, w, pos) < |sm.pixels|
  }

  predicate NodeOk(f: Forest, sm: Sampler, w: Window, i: nat, idx: nat) {
    SampleOk(sm, w, NodePos(f.treeDepth, i, idx))
  }

  /**
   * The source never checks pixel bounds; the model demands that every internal node of every
   * tree samples inside the array. Scanner proves this for the windows the scan visits.
   */
  predicate SamplesInRange(f: Forest, sm: Sampler, w: Window) {
    forall i: nat, idx: nat :: i < f.numberOfTrees && 1 <= idx < Pow2(f.treeDepth) ==> NodeOk(f, sm, w, i, idx)
  }

  /** The branch taken at node position `pos`: 1 when the first pixel is not brighter than the second. */
  function Bit(sm: Sampler, w: Window, pos: int): int
    requires SampleOk(sm, w, pos)
  {
    if sm.pixels[FirstIndex(sm, w, pos)] <= sm.pixels[SecondIndex(sm, w, pos)] then 1 else 0
  }

  lemma {:induction false} Pow2Mono(a: nat, b: nat)
    requires a <= b
    ensures Pow2(a) <= Pow2(b)
    decreases b
  {
    if a < b {
      Pow2Mono(a, b - 1);
    }
  }

  /**
   * The rest of tree `i`'s walk from node `idx` after `j` of the d steps. The node index at
   * step j lies in [2^j, 2^(j+1)), so the walk ends on a leaf index in [2^d, 2^(d+1)).
   */
  function Walk(f: Forest, sm: Sampler, w: Window, i: nat, j: nat, idx: nat): (leaf: nat)
    requires SamplesInRange(f, sm, w) && i < f.numberOfTrees
    requires j <= f.treeDepth && Pow2(j) <= idx < Pow2(j + 1)
    ensures Pow2(f.treeDepth) <= leaf < Pow2(f.treeDepth + 1)
    decreases f.treeDepth - j
  {
    if j == f.treeDepth then idx
    else
      Pow2Mono(j + 1, f.treeDepth);
      assert NodeOk(f, sm, w, i, idx);
      Walk(f, sm, w, i, j + 1, 2 * idx + Bit(sm, w, NodePos(f.treeDepth, i, idx)))
  }

  /** One step of the walk: the node at step j < d is internal, and its bit picks the child. */
  lemma WalkStep(f: Forest, sm: Sampler, w: Window, i: nat, j: nat, idx: nat)
    requires SamplesInRange(f, sm, w) && i < f.numberOfTrees
    requires j < f.treeDepth && Pow2(j) <= idx < Pow2(j + 1)
    ensures 1 <= idx < Pow2(f.treeDepth) && NodeOk(f, sm, w, i, idx)
    ensures Walk(f, sm, w, i, j, idx) == Walk(f, sm, w, i, j + 1, 2 * idx + Bit(sm, w, NodePos(f.treeDepth, i, idx)))
  {
    Pow2Mono(j + 1, f.treeDepth);
  }

  /** The leaf index tree `i` reaches from the root. */
  function Leaf(f: Forest, sm: Sampler, w: Window, i: nat): (leaf: nat)
    requires SamplesInRange(f, sm, w) && i < f.numberOfTrees
    ensures Pow2(f.treeDepth) <= leaf < Pow2(f.treeDepth + 1)
  {
    Walk(f, sm, w, i, 0, 1)
  }

  /** The source's prediction index `predIdx + idx` for tree `i`. */
  function LeafSlot(f: Forest, sm: Sampler, w: Window, i: nat): int
    requires SamplesInRange(f, sm, w) && i < f.numberOfTrees
  {
    Times(i, Pow2(f.treeDepth)) - Pow2(f.treeDepth) + Leaf(f, sm, w, i)
  }

  /** Tree `i`'s leaf prediction lies inside the tree's own block of 2^d predictions. */
  lemma {:induction false} LeafSlotInBlock(f: Forest, sm: Sampler, w: Window, i: nat)
    requires f.Valid() && SamplesInRange(f, sm, w) && i < f.numberOfTrees
    ensures Times(i, Pow2(f.treeDepth)) <= LeafSlot(f, sm, w, i) < Times(i + 1, Pow2(f.treeDepth))
    ensures 0 <= LeafSlot(f, sm, w, i) < |f.predictions|
  {
    TimesMono(i + 1, f.numberOfTrees, Pow2(f.treeDepth));
  }

  /** The prediction tree `i` contributes. */
  function Selected(f: Forest, sm: Sampler, w: Window, i: nat): real
    requires f.Valid() && SamplesInRange(f, sm, w) && i < f.numberOfTrees
  {
    LeafSlotInBlock(f, sm, w, i);
    f.predictions[LeafSlot(f, sm, w, i)]
  }

  /** The predictions trees 0 .. m-1 select. */
  function Selections(f: Forest, sm: Sampler, w: Window, m: nat): (p: seq<real>)
    requires f.Valid() && SamplesInRange(f, sm, w) && m <= f.numberOfTrees
    ensures |p| == m
  {
    if m == 0 then [] else Selections(f, sm, w, m - 1) + [Selected(f, sm, w, m - 1)]
  }

  /** Entry `i` of the selections is tree `i`'s prediction. */
  lemma {:induction false} SelectionsAt(f: Forest, sm: Sampler, w: Window, m: nat, i: nat)
    requires f.Valid() && SamplesInRange(f, sm, w) && i < m <= f.numberOfTrees
    ensures Selections(f, sm, w, m)[i] == Selected(f, sm, w, i)
    decreases m
  {
    if i < m - 1 {
      SelectionsAt(f, sm, w, m - 1, i);
    }
  }

  /** The running sum of the cascade after `m` trees: p[0] + ... + p[m-1]. */
  function Sum(p: seq<real>, m: nat): real
    requires m <= |p|
  {
    if m == 0 then 0.0 else Sum(p, m - 1) + p[m - 1]
  }

  /**
   * The cascade over selected predictions `p` and thresholds `t`, from tree `i` on with running
   * sum `o`: -1.0 as soon as a running sum does not exceed its threshold, else the final sum
   * less `last`.
   */
  function Outcome(p: seq<real>, t: seq<real>, last: real, i: nat, o: real): real
    requires |p| == |t| && i <= |p|
    decreases |p| - i
  {
    if i == |p| then o - last
    else
      var o' := o + p[i];
      if o' <= t[i] then -1.0 else Outcome(p, t, last, i + 1, o')
  }

  /** Tree `k` rejects: the running sum after it does not exceed its threshold. */
  predicate RejectsAt(p: seq<real>, t: seq<real>, k: nat)
    requires |p| == |t| && k < |p|
  {
    Sum(p, k + 1) <= t[k]
  }

  /** How many trees the cascade evaluates from tree `i` on: up to and including the first rejector. */
  function Evaluated(p: seq<real>, t: seq<real>, i: nat): nat
    requires |p| == |t| && i <= |p|
    decreases |p| - i
  {
    if i == |p| then |p| else if RejectsAt(p, t, i) then i + 1 else Evaluated(p, t, i + 1)
  }

  /**
   * `thresholds[numberOfTrees - 1]`; with no trees that key is -1, which PHP reads as null,
   * i.e. 0.
   */
  function LastThreshold(f: Forest): real
    requires f.Valid()
  {
    if f.numberOfTrees == 0 then 0.0 else f.thresholds[f.numberOfTrees - 1]
  }

  /** runCascade's value for a window. */
  function CascadeScore(f: Forest, sm: Sampler, w: Window): real
    requires f.Valid() && SamplesInRange(f, sm, w)
  {
    Outcome(Selections(f, sm, w, f.numberOfTrees), f.thresholds, LastThreshold(f), 0, 0.0)
  }

  /** Tree `k` rejects the window. */
  predicate Rejects(f: Forest, sm: Sampler, w: Window, k: nat)
    requires f.Valid() && SamplesInRange(f, sm, w) && k < f.numberOfTrees
  {
    RejectsAt(Selections(f, sm, w, f.numberOfTrees), f.thresholds, k)
  }

  /** The number of trees runCascade evaluates for the window. */
  function TreesEvaluated(f: Forest, sm: Sampler, w: Window): nat
    requires f.Valid() && SamplesInRange(f, sm, w)
  {
    Evaluated(Selections(f, sm, w, f.numberOfTrees), f.thresholds, 0)
  }

  /** The comparison at the node at `pos`: whether the first pixel is not brighter than the second. */
  method NodeBit(pixels: seq<int>, width: int, lut: Lut, fx: int, fy: int, s: int, pos: int, ghost w: Window)
    returns (bit: int)
    requires w.s == s && fx == w.x * 256 && fy == w.y * 256
    requires SampleOk(Sampler(pixels, width, lut), w, pos)
    ensures bit == Bit(Sampler(pixels, width, lut), w, pos)
  {
    var first := pixels[Address(width, fy, fx, LutAt(lut, pos, s, 0), LutAt(lut, pos, s, 1))];
    var second := pixels[Address(width, fy, fx, LutAt(lut, pos, s, 2), LutAt(lut, pos, s, 3))];
    bit := if first <= second then 1 else 0;
  }

  /**
   * The inner loop of runCascade: the walk down tree `i` (whose block starts at `root`) for the
   * window whose fixed-point centre is (fx, fy), ending on the leaf index.
   */
  method EvaluateTree(f: Forest, root: int, fx: int, fy: int, s: int, pixels: seq<int>, width: int, lut: Lut,
                      ghost w: Window, ghost i: nat) returns (idx: nat)
    requires f.Valid() && i < f.numberOfTrees && root == Root(f.treeDepth, i)
    requires w.s == s && fx == w.x * 256 && fy == w.y * 256
    requires SamplesInRange(f, Sampler(pixels, width, lut), w)
    ensures idx == Leaf(f, Sampler(pixels, width, lut), w, i)
  {
    ghost var sm := Sampler(pixels, width, lut);
    idx := 1;
    var j := 0;
    while j < f.treeDepth
      invariant 0 <= j <= f.treeDepth
      invariant Pow2(j) <= idx < Pow2(j + 1)
      invariant Walk(f, sm, w, i, j, idx) == Leaf(f, sm, w, i)
    {
      idx := Descend(f, root, fx, fy, s, pixels, width, lut, w, i, j, idx);
      j := j + 1;
    }
  }

  /** One step of the walk down tree `i`: from the node `idx` at step `j` to the child its bit picks. */
  method Descend(f: Forest, root: int, fx: int, fy: int, s: int, pixels: seq<int>, width: int, lut: Lut,
                 ghost w: Window, ghost i: nat, ghost j: nat, idx: nat) returns (idx': nat)
    requires i < f.numberOfTrees && root == Root(f.treeDepth, i)
    requires w.s == s && fx == w.x * 256 && fy == w.y * 256
    requires SamplesInRange(f, Sampler(pixels, width, lut), w)
    requires j < f.treeDepth && Pow2(j) <= idx < Pow2(j + 1)
    ensures Pow2(j + 1) <= idx' < Pow2(j + 2)
    ensures Walk(f, Sampler(pixels, width, lut), w, i, j + 1, idx') == Walk(f, Sampler(pixels, width, lut), w, i, j, idx)
  {
    WalkStep(f, Sampler(pixels, width, lut), w, i, j, idx);
    var pos := root + 4 * idx;
    assert pos == NodePos(f.treeDepth, i, idx);
    var bit := NodeBit(pixels, width, lut, fx, fy, s, pos, w);
    idx' := 2 * idx + bit;
  }

  /** The prediction the source reads, `predictions[pow2 * i - pow2 + idx]`, is tree `i`'s selected one. */
  lemma SelectedAt(f: Forest, sm: Sampler, w: Window, i: nat, pow2: int, idx: int)
    requires f.Valid() && SamplesInRange(f, sm, w) && i < f.numberOfTrees
    requires pow2 == Pow2(f.treeDepth) && idx == Leaf(f, sm, w, i)
    ensures 0 <= pow2 * i - pow2 + idx < |f.predictions|
    ensures f.predictions[pow2 * i - pow2 + idx] == Selections(f, sm, w, f.numberOfTrees)[i]
  {
    TimesFormula(i, pow2);
    LeafSlotInBlock(f, sm, w, i);
    SelectionsAt(f, sm, w, f.numberOfTrees, i);
  }

  /**
   * `runCascade($x, $y, $s, $pixels, $width, $lut)`. `trees` counts the trees evaluated
   * (TreesEvaluatedFacts says what that count means).
   */
  method RunCascade(f: Forest, x: int, y: int, s: int, pixels: seq<int>, width: int, lut: Lut)
    returns (r: real, ghost trees: nat)
    requires f.Valid() && SamplesInRange(f, Sampler(pixels, width, lut), Window(x, y, s))
    ensures r == CascadeScore(f, Sampler(pixels, width, lut), Window(x, y, s))
    ensures trees == TreesEvaluated(f, Sampler(pixels, width, lut), Window(x, y, s))
  {
    ghost var sm := Sampler(pixels, width, lut);
    ghost var w := Window(x, y, s);
    ghost var p := Selections(f, sm, w, f.numberOfTrees);
    var fx := x * 256;
    var fy := y * 256;

    var root := 0;
    var o := 0.0;
    var pow2 := Pow2(f.treeDepth);

    var i := 0;
    while i < f.numberOfTrees
      invariant 0 <= i <= f.numberOfTrees
      invariant root == Root(f.treeDepth, i)
      invariant o == Sum(p, i)
      invariant Outcome(p, f.thresholds, LastThreshold(f), i, o) == CascadeScore(f, sm, w)
      invariant Evaluated(p, f.thresholds, i) == TreesEvaluated(f, sm, w)
    {
      var predIdx := pow2 * i - pow2;
      var idx := EvaluateTree(f, root, fx, fy, s, pixels, width, lut, w, i);
      SelectedAt(f, sm, w, i, pow2, idx);
      o := o + f.predictions[predIdx + idx];
      assert o == Sum(p, i + 1);
      if o <= f.thresholds[i] {
        return -1.0, i + 1;
      }
      RootStep(f.treeDepth, i);
      root := root + pow2 * 4;
      i := i + 1;
    }
    r := o - LastThreshold(f);
    trees := f.numberOfTrees;
  }

  // ---------------------------------------------------------------- what the cascade computes

  /** From tree `i` on, with the running sum so far: a rejecting tree `k` makes the outcome -1.0. */
  lemma {:induction false} OutcomeRejected(p: seq<real>, t: seq<real>, last: real, i: nat, k: nat)
    requires |p| == |t| && i <= k < |p| && RejectsAt(p, t, k)
    ensures Outcome(p, t, last, i, Sum(p, i)) == -1.0
    decreases k - i
  {
    if i < k && Sum(p, i + 1) > t[i] {
      OutcomeRejected(p, t, last, i + 1, k);
    }
  }

  /** From tree `i` on, with every tree passing: the outcome is the full sum less `last`. */
  lemma {:induction false} OutcomeSurvived(p: seq<real>, t: seq<real>, last: real, i: nat)
    requires |p| == |t| && i <= |p|
    requires forall k: nat :: i <= k < |p| ==> !RejectsAt(p, t, k)
    ensures Outcome(p, t, last, i, Sum(p, i)) == Sum(p, |p|) - last
    decreases |p| - i
  {
    if i < |p| {
      assert !RejectsAt(p, t, i);
      OutcomeSurvived(p, t, last, i + 1);
    }
  }

  /** Early rejection: if any tree rejects, the score is exactly -1.0. */
  lemma EarlyRejection(f: Forest, sm: Sampler, w: Window, k: nat)
    requires f.Valid() && SamplesInRange(f, sm, w) && k < f.numberOfTrees
    requires Rejects(f, sm, w, k)
    ensures CascadeScore(f, sm, w) == -1.0
  {
    OutcomeRejected(Selections(f, sm, w, f.numberOfTrees), f.thresholds, LastThreshold(f), 0, k);
  }

  /**
   * Full survival: when no tree rejects, the score is the sum of the selected predictions less
   * the last threshold, which is positive when there is at least one tree.
   */
  lemma FullSurvival(f: Forest, sm: Sampler, w: Window)
    requires f.Valid() && SamplesInRange(f, sm, w)
    requires forall k: nat :: k < f.numberOfTrees ==> !Rejects(f, sm, w, k)
    ensures CascadeScore(f, sm, w) == Sum(Selections(f, sm, w, f.numberOfTrees), f.numberOfTrees) - LastThreshold(f)
    ensures f.numberOfTrees >= 1 ==> CascadeScore(f, sm, w) > 0.0
  {
    var p := Selections(f, sm, w, f.numberOfTrees);
    forall k: nat | k < |p|
      ensures !RejectsAt(p, f.thresholds, k)
    {
      assert !Rejects(f, sm, w, k);
    }
    OutcomeSurvived(p, f.thresholds, LastThreshold(f), 0);
    if f.numberOfTrees >= 1 {
      assert !RejectsAt(p, f.thresholds, f.numberOfTrees - 1);
    }
  }

  /** The score is -1.0 or positive; with no trees it is 0.0. */
  lemma ScoreSign(f: Forest, sm: Sampler, w: Window)
    requires f.Valid() && SamplesInRange(f, sm, w)
    ensures f.numberOfTrees >= 1 ==> CascadeScore(f, sm, w) == -1.0 || CascadeScore(f, sm, w) > 0.0
    ensures f.numberOfTrees == 0 ==> CascadeScore(f, sm, w) == 0.0
    ensures CascadeScore(f, sm, w) == -1.0 <==> exists k: nat :: k < f.numberOfTrees && Rejects(f, sm, w, k)
  {
    if exists k: nat :: k < f.numberOfTrees && Rejects(f, sm, w, k) {
      var k: nat :| k < f.numberOfTrees && Rejects(f, sm, w, k);
      EarlyRejection(f, sm, w, k);
    } else {
      FullSurvival(f, sm, w);
    }
  }

  /**
   * The trees evaluated from tree `i` on: every one but the last passes, evaluation stops early
   * only at a rejector, and the last one evaluated rejects exactly when some tree rejects.
   */
  lemma {:induction false} EvaluatedStops(p: seq<real>, t: seq<real>, i: nat)
    requires |p| == |t| && i <= |p|
    ensures i <= Evaluated(p, t, i) <= |p|
    ensures forall k: nat :: i <= k && k + 1 < Evaluated(p, t, i) ==> !RejectsAt(p, t, k)
    ensures Evaluated(p, t, i) < |p| ==> i < Evaluated(p, t, i) && RejectsAt(p, t, Evaluated(p, t, i) - 1)
    ensures (i < Evaluated(p, t, i) && RejectsAt(p, t, Evaluated(p, t, i) - 1)) <==>
      exists k: nat :: i <= k < |p| && RejectsAt(p, t, k)
    decreases |p| - i
  {
    if i < |p| && !RejectsAt(p, t, i) {
      EvaluatedStops(p, t, i + 1);
      if exists k: nat :: i <= k < |p| && RejectsAt(p, t, k) {
        var k: nat :| i <= k < |p| && RejectsAt(p, t, k);
        assert i + 1 <= k;
      }
    }
  }

  /**
   * What runCascade's count of evaluated trees means: every tree before the last one evaluated
   * passed, stopping before the end means a score of -1.0, and the score is -1.0 exactly when the
   * last tree evaluated rejects.
   */
  lemma TreesEvaluatedFacts(f: Forest, sm: Sampler, w: Window)
    requires f.Valid() && SamplesInRange(f, sm, w)
    ensures TreesEvaluated(f, sm, w) <= f.numberOfTrees
    ensures forall k: nat :: k + 1 < TreesEvaluated(f, sm, w) ==> !Rejects(f, sm, w, k)
    ensures TreesEvaluated(f, sm, w) < f.numberOfTrees ==> CascadeScore(f, sm, w) == -1.0
    ensures CascadeScore(f, sm, w) == -1.0 <==>
      TreesEvaluated(f, sm, w) >= 1 && Rejects(f, sm, w, TreesEvaluated(f, sm, w) - 1)
  {
    var p := Selections(f, sm, w, f.numberOfTrees);
    EvaluatedStops(p, f.thresholds, 0);
    ScoreSign(f, sm, w);
    var e := TreesEvaluated(f, sm, w);
    if e >= 1 && Rejects(f, sm, w, e - 1) {
      EarlyRejection(f, sm, w, e - 1);
    }
    if CascadeScore(f, sm, w) == -1.0 {
      var k: nat :| k < f.numberOfTrees && Rejects(f, sm, w, k);
      assert RejectsAt(p, f.thresholds, k);
    }
  }

  // ---------------------------------------------------------------- the cascade with createLut's table

  /**
   * With the table createLut builds for the window's scale, every node below the root reads
   * offsets 0 for both samples, so both compare the centre pixel (x, y) with itself: the bit is 1.
   */
  lemma DeepNodeBit(f: Forest, sm: Sampler, w: Window, i: nat, idx: nat)
    requires f.Valid() && SamplesInRange(f, sm, w) && sm.lut == LutOf(f, w.s, f.numberOfTrees)
    requires i < f.numberOfTrees && 2 <= idx < Pow2(f.treeDepth)
    ensures NodeOk(f, sm, w, i, idx)
    ensures FirstIndex(sm, w, NodePos(f.treeDepth, i, idx)) == w.y * sm.width + w.x
    ensures SecondIndex(sm, w, NodePos(f.treeDepth, i, idx)) == w.y * sm.width + w.x
    ensures Bit(sm, w, NodePos(f.treeDepth, i, idx)) == 1
  {
    var n := f.numberOfTrees;
    LutOfAt(f, w.s, n, i, idx, 0);
    LutOfAt(f, w.s, n, i, idx, 1);
    LutOfAt(f, w.s, n, i, idx, 2);
    LutOfAt(f, w.s, n, i, idx, 3);
    assert Shr8(w.y * 256 + 0) == w.y && Shr8(w.x * 256 + 0) == w.x;
  }

  /** The node reached from `idx` by `k` steps to the right child. */
  function RightDescent(idx: nat, k: nat): nat
    decreases k
  {
    if k == 0 then idx else RightDescent(2 * idx + 1, k - 1)
  }

  lemma {:induction false} RightDescentValue(idx: nat, k: nat)
    ensures RightDescent(idx, k) == (idx + 1) * Pow2(k) - 1
    decreases k
  {
    if k > 0 {
      RightDescentValue(2 * idx + 1, k - 1);
      DoubleFactor(idx, Pow2(k - 1));
    }
  }

  /** Every node of tree `i` below the root has bit 1. */
  predicate DeepBitsOne(f: Forest, sm: Sampler, w: Window, i: nat) {
    forall node: nat {:trigger NodeOk(f, sm, w, i, node)} :: 2 <= node < Pow2(f.treeDepth) ==>
      NodeOk(f, sm, w, i, node) && Bit(sm, w, NodePos(f.treeDepth, i, node)) == 1
  }

  /** Below the root every bit is 1, so the walk keeps taking the right child. */
  lemma {:induction false} WalkAllOnes(f: Forest, sm: Sampler, w: Window, i: nat, j: nat, idx: nat)
    requires SamplesInRange(f, sm, w) && i < f.numberOfTrees && DeepBitsOne(f, sm, w, i)
    requires 1 <= j <= f.treeDepth && Pow2(j) <= idx < Pow2(j + 1)
    ensures Walk(f, sm, w, i, j, idx) == RightDescent(idx, f.treeDepth - j)
    decreases f.treeDepth - j
  {
    if j < f.treeDepth {
      WalkStep(f, sm, w, i, j, idx);
      assert Pow2(j) >= 2;
      assert NodeOk(f, sm, w, i, idx);
      WalkAllOnes(f, sm, w, i, j + 1, 2 * idx + 1);
    }
  }

  lemma CreatedLutDeepBits(f: Forest, sm: Sampler, w: Window, i: nat)
    requires f.Valid() && SamplesInRange(f, sm, w) && sm.lut == LutOf(f, w.s, f.numberOfTrees)
    requires i < f.numberOfTrees
    ensures DeepBitsOne(f, sm, w, i)
  {
    forall node: nat | 2 <= node < Pow2(f.treeDepth)
      ensures NodeOk(f, sm, w, i, node) && Bit(sm, w, NodePos(f.treeDepth, i, node)) == 1
    {
      DeepNodeBit(f, sm, w, i, node);
    }
  }

  /** A tree whose deeper bits are all 1 ends on one of the two rightmost leaves below its root's children. */
  lemma LeafWhenDeepBitsOne(f: Forest, sm: Sampler, w: Window, i: nat)
    requires SamplesInRange(f, sm, w) && i < f.numberOfTrees && f.treeDepth >= 1 && DeepBitsOne(f, sm, w, i)
    ensures NodeOk(f, sm, w, i, 1)
    ensures Leaf(f, sm, w, i) ==
      if Bit(sm, w, NodePos(f.treeDepth, i, 1)) == 1 then Pow2(f.treeDepth + 1) - 1
      else Pow2(f.treeDepth + 1) - Pow2(f.treeDepth - 1) - 1
  {
    WalkStep(f, sm, w, i, 0, 1);
    var b := Bit(sm, w, NodePos(f.treeDepth, i, 1));
    WalkAllOnes(f, sm, w, i, 1, 2 + b);
    RightmostLeaf(f.treeDepth, b);
  }

  /** Where d - 1 right steps from child 2 + b of the root end. */
  lemma RightmostLeaf(d: nat, b: int)
    requires d >= 1 && (b == 0 || b == 1)
    ensures RightDescent(2 + b, d - 1) == if b == 1 then Pow2(d + 1) - 1 else Pow2(d + 1) - Pow2(d - 1) - 1
  {
    RightDescentValue(2 + b, d - 1);
    var quarter := Pow2(d - 1);
    assert Pow2(d + 1) == 4 * quarter;
    assert (2 + b + 1) * quarter == if b == 1 then 4 * quarter else 3 * quarter;
  }

  /**
   * The consequence for detection: with createLut's table only two leaves of a tree of depth
   * d >= 1 are reachable, 2^(d+1) - 1 when the root's bit is 1 and 2^(d+1) - 2^(d-1) - 1
   * otherwise.
   */
  lemma TwoReachableLeaves(f: Forest, sm: Sampler, w: Window, i: nat)
    requires f.Valid() && SamplesInRange(f, sm, w) && sm.lut == LutOf(f, w.s, f.numberOfTrees)
    requires i < f.numberOfTrees && f.treeDepth >= 1
    ensures NodeOk(f, sm, w, i, 1)
    ensures Leaf(f, sm, w, i) ==
      if Bit(sm, w, NodePos(f.treeDepth, i, 1)) == 1 then Pow2(f.treeDepth + 1) - 1
      else Pow2(f.treeDepth + 1) - Pow2(f.treeDepth - 1) - 1
  {
    CreatedLutDeepBits(f, sm, w, i);
    LeafWhenDeepBitsOne(f, sm, w, i);
  }
}
