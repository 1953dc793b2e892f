/**
 * The cascade forest and its binary decoder (`Cascade::unpack`, src/Cascade.php).
 *
 * File layout, with 0-based byte positions (PHP's `unpack('c*')` array is 1-based, so the
 * source's `bytes[p + 1]` is `bytes[p]` here):
 *   [0, 8)    unused header
 *   [8, 12)   tree depth d, little-endian
 *   [12, 16)  number of trees n, little-endian
 *   then per tree, 8 * 2^d bytes: 4 * (2^d - 1) node-test bytes, 2^d little-endian float32
 *   leaf predictions, one little-endian float32 threshold.
 * The decoder prepends four zero bytes to each tree's node tests, so that node `idx` of tree
 * `t` starts at `4 * 2^d * t + 4 * idx` in `treeCodes`.
 */
module Forests {
  import opened MathUtil
  import opened DataViews

  /** The elements of PHP's `unpack('c*', ...)`: signed bytes. */
  type SignedByte = b: int | -128 <= b < 128

  /** The part of a Cascade object that `unpack` fills in; it is only read afterwards. */
  datatype Forest = Forest(
    treeDepth: nat,
    numberOfTrees: nat,
    treeCodes: seq<SignedByte>,
    predictions: seq<real>,
    thresholds: seq<real>)
  {
    /** The sizes every decoded forest has: 4 * 2^d code slots and 2^d leaves per tree, one threshold per tree. */
    predicate Valid() {
      |treeCodes| == Times(numberOfTrees, 4 * Pow2(treeDepth)) &&
      |predictions| == Times(numberOfTrees, Pow2(treeDepth)) &&
      |thresholds| == numberOfTrees
    }
  }

  /** A truncated file makes `setUint8` receive a missing byte, a TypeError in the source. */
  datatype UnpackError = TruncatedFile

  datatype Result<T> = Ok(value: T) | Err(error: UnpackError)

  function HeaderDepth(bytes: seq<SignedByte>): (d: nat)
    requires |bytes| >= 16
    ensures d < 0x1_0000_0000
  {
    Int32LE(bytes[8], bytes[9], bytes[10], bytes[11])
  }

  function HeaderTrees(bytes: seq<SignedByte>): (n: nat)
    requires |bytes| >= 16
    ensures n < 0x1_0000_0000
  {
    Int32LE(bytes[12], bytes[13], bytes[14], bytes[15])
  }

  /** Bytes per tree: node tests, leaf predictions and threshold. */
  function TreeStride(d: nat): (s: nat)
    ensures s == 4 * (Pow2(d) - 1) + 4 * Pow2(d) + 4
  {
    8 * Pow2(d)
  }

  /** Where tree `t` starts in the file: after the header and `t` earlier trees. */
  function TreeStart(d: nat, t: nat): (s: nat)
    ensures s >= 16
  {
    if t == 0 then 16 else TreeStart(d, t - 1) + TreeStride(d)
  }

  lemma TreeStartStep(d: nat, t: nat)
    ensures TreeStart(d, t + 1) == TreeStart(d, t) + TreeStride(d)
  {
  }

  lemma {:induction false} TreeStartMono(d: nat, t: nat, u: nat)
    requires t <= u
    ensures TreeStart(d, t) <= TreeStart(d, u)
    decreases u
  {
    if t < u {
      TreeStartMono(d, t, u - 1);
    }
  }

  /** The closed form: tree `t` starts at byte 16 + t * 8 * 2^d. */
  lemma {:induction false} TreeStartFormula(d: nat, t: nat)
    ensures TreeStart(d, t) == 16 + t * (8 * Pow2(d))
  {
    if t > 0 {
      TreeStartFormula(d, t - 1);
      assert (t - 1) * (8 * Pow2(d)) + 8 * Pow2(d) == t * (8 * Pow2(d));
    }
  }

  /** Bytes of node tests per tree: four per internal node. */
  function NodeBytes(d: nat): nat {
    4 * (Pow2(d) - 1)
  }

  /** Where tree `t`'s leaf predictions start. */
  function LeafStart(d: nat, t: nat): nat {
    TreeStart(d, t) + NodeBytes(d)
  }

  /** Where tree `t`'s threshold is stored: the last four bytes of the tree. */
  function ThresholdStart(d: nat, t: nat): (s: nat)
    ensures s + 4 == TreeStart(d, t + 1)
  {
    LeafStart(d, t) + 4 * Pow2(d)
  }

  /** The number of bytes a header with depth `d` and `n` trees declares. */
  function EncodedLength(d: nat, n: nat): nat {
    TreeStart(d, n)
  }

  /** True when the file is long enough for the forest its header declares. */
  predicate Complete(bytes: seq<SignedByte>) {
    |bytes| >= 16 && |bytes| >= EncodedLength(HeaderDepth(bytes), HeaderTrees(bytes))
  }

  /** `array_slice(bytes, offset, length)`: positions past the end are simply absent. */
  function Slice(bytes: seq<SignedByte>, offset: nat, length: nat): (s: seq<SignedByte>)
    ensures offset + length <= |bytes| ==> s == bytes[offset..offset + length]
    ensures |s| == if offset >= |bytes| then 0 else Min(length, |bytes| - offset)
    ensures forall k :: 0 <= k < |s| ==> s[k] == bytes[offset + k]
  {
    if offset >= |bytes| then [] else if offset + length > |bytes| then bytes[offset..] else bytes[offset..offset + length]
  }

  /** The word at byte position `q`, as `getInt32(0)` reads it after four `setUint8` calls. */
  function WordAt(bytes: seq<SignedByte>, q: nat): int
    requires q + 4 <= |bytes|
  {
    Int32LE(bytes[q], bytes[q + 1], bytes[q + 2], bytes[q + 3])
  }

  /** treeCodes after `t` trees: each tree contributes four zeros and its node-test bytes. */
  function CodesOf(bytes: seq<SignedByte>, d: nat, t: nat): (c: seq<SignedByte>)
    requires |bytes| >= TreeStart(d, t)
  {
    if t == 0 then []
    else
      TreeStartMono(d, t - 1, t);
      CodesOf(bytes, d, t - 1) + [0, 0, 0, 0] + bytes[TreeStart(d, t - 1)..LeafStart(d, t - 1)]
  }

  /** The `m` floats stored at byte positions q, q + 4, ..., q + 4(m - 1). */
  function Floats(bytes: seq<SignedByte>, q: nat, m: nat, f32: int -> real): (r: seq<real>)
    requires q + 4 * m <= |bytes|
    ensures |r| == m
  {
    if m == 0 then [] else Floats(bytes, q, m - 1, f32) + [f32(WordAt(bytes, q + 4 * (m - 1)))]
  }

  /** predictions after `t` trees. */
  function PredictionsOf(bytes: seq<SignedByte>, d: nat, t: nat, f32: int -> real): (r: seq<real>)
    requires |bytes| >= TreeStart(d, t)
  {
    if t == 0 then []
    else
      TreeStartMono(d, t - 1, t);
      PredictionsOf(bytes, d, t - 1, f32) + Floats(bytes, LeafStart(d, t - 1), Pow2(d), f32)
  }

  /** thresholds after `t` trees. */
  function ThresholdsOf(bytes: seq<SignedByte>, d: nat, t: nat, f32: int -> real): (r: seq<real>)
    requires |bytes| >= TreeStart(d, t)
  {
    if t == 0 then []
    else
      TreeStartMono(d, t - 1, t);
      ThresholdsOf(bytes, d, t - 1, f32) + [f32(WordAt(bytes, ThresholdStart(d, t - 1)))]
  }

  /** After `t` trees there are 4 * 2^d code slots per tree. */
  lemma {:induction false} CodesSize(bytes: seq<SignedByte>, d: nat, t: nat)
    requires |bytes| >= TreeStart(d, t)
    ensures |CodesOf(bytes, d, t)| == Times(t, 4 * Pow2(d))
  {
    if t > 0 {
      TreeStartMono(d, t - 1, t);
      CodesSize(bytes, d, t - 1);
      var tail := bytes[TreeStart(d, t - 1)..LeafStart(d, t - 1)];
      assert |tail| == 4 * (Pow2(d) - 1);
      assert |CodesOf(bytes, d, t)| == |CodesOf(bytes, d, t - 1)| + 4 + |tail|;
    }
  }

  /**
   * Where each code of tree u comes from: slot q of the tree's block of 4 * 2^d codes is one of
   * the four padding zeros for q < 4, and otherwise the file's byte q - 4 of its node tests.
   */
  lemma {:induction false} CodesOfAt(bytes: seq<SignedByte>, d: nat, t: nat, u: nat, q: nat)
    requires |bytes| >= TreeStart(d, t) && u < t && q < 4 * Pow2(d)
    ensures Times(u, 4 * Pow2(d)) + q < |CodesOf(bytes, d, t)|
    ensures q < 4 ==> CodesOf(bytes, d, t)[Times(u, 4 * Pow2(d)) + q] == 0
    ensures q >= 4 ==> (TreeStart(d, u) + q - 4 < |bytes| &&
                        CodesOf(bytes, d, t)[Times(u, 4 * Pow2(d)) + q] == bytes[TreeStart(d, u) + q - 4])
    decreases t
  {
    if u == t - 1 {
      CodesOfLastTree(bytes, d, t, q);
    } else {
      TreeStartMono(d, t - 1, t);
      CodesOfAt(bytes, d, t - 1, u, q);
      CodesOfPrefix(bytes, d, t, Times(u, 4 * Pow2(d)) + q);
    }
  }

  /** The codes of the last of t trees: four zeros, then its node-test bytes. */
  lemma CodesOfLastTree(bytes: seq<SignedByte>, d: nat, t: nat, q: nat)
    requires |bytes| >= TreeStart(d, t) && t > 0 && q < 4 * Pow2(d)
    ensures Times(t - 1, 4 * Pow2(d)) + q < |CodesOf(bytes, d, t)|
    ensures q < 4 ==> CodesOf(bytes, d, t)[Times(t - 1, 4 * Pow2(d)) + q] == 0
    ensures q >= 4 ==> (TreeStart(d, t - 1) + q - 4 < |bytes| &&
                        CodesOf(bytes, d, t)[Times(t - 1, 4 * Pow2(d)) + q] == bytes[TreeStart(d, t - 1) + q - 4])
  {
    TreeStartMono(d, t - 1, t);
    CodesSize(bytes, d, t - 1);
    BlockAt(CodesOf(bytes, d, t - 1), [0, 0, 0, 0], bytes, TreeStart(d, t - 1), LeafStart(d, t - 1), q);
  }

  /** Slot q of a block of four padding codes followed by bytes[lo..hi], placed after a prefix. */
  lemma BlockAt<T>(prefix: seq<T>, pad: seq<T>, bytes: seq<T>, lo: nat, hi: nat, q: nat)
    requires |pad| == 4 && lo <= hi <= |bytes| && q < 4 + (hi - lo)
    ensures |prefix| + q < |prefix + pad + bytes[lo..hi]|
    ensures (prefix + pad + bytes[lo..hi])[|prefix| + q] == if q < 4 then pad[q] else bytes[lo + q - 4]
  {
  }

  /** Adding a tree keeps the codes of the earlier trees. */
  lemma CodesOfPrefix(bytes: seq<SignedByte>, d: nat, t: nat, p: nat)
    requires |bytes| >= TreeStart(d, t) && t > 0
    requires TreeStart(d, t - 1) <= |bytes| && p < |CodesOf(bytes, d, t - 1)|
    ensures p < |CodesOf(bytes, d, t)| && CodesOf(bytes, d, t)[p] == CodesOf(bytes, d, t - 1)[p]
  {
    TreeStartMono(d, t - 1, t);
    PrefixAt(CodesOf(bytes, d, t - 1), [0, 0, 0, 0], bytes[TreeStart(d, t - 1)..LeafStart(d, t - 1)], p);
  }

  lemma PrefixAt<T>(prefix: seq<T>, pad: seq<T>, rest: seq<T>, p: nat)
    requires p < |prefix|
    ensures p < |prefix + pad + rest| && (prefix + pad + rest)[p] == prefix[p]
  {
  }

  /** After `t` trees there are 2^d predictions per tree. */
  lemma {:induction false} PredictionsSize(bytes: seq<SignedByte>, d: nat, t: nat, f32: int -> real)
    requires |bytes| >= TreeStart(d, t)
    ensures |PredictionsOf(bytes, d, t, f32)| == Times(t, Pow2(d))
  {
    if t > 0 {
      TreeStartMono(d, t - 1, t);
      PredictionsSize(bytes, d, t - 1, f32);
    }
  }

  /** After `t` trees there are `t` thresholds. */
  lemma {:induction false} ThresholdsSize(bytes: seq<SignedByte>, d: nat, t: nat, f32: int -> real)
    requires |bytes| >= TreeStart(d, t)
    ensures |ThresholdsOf(bytes, d, t, f32)| == t
  {
    if t > 0 {
      TreeStartMono(d, t - 1, t);
      ThresholdsSize(bytes, d, t - 1, f32);
    }
  }

  /** After `t` trees there are 4 * 2^d code slots and 2^d predictions per tree, and `t` thresholds. */
  lemma SizesOf(bytes: seq<SignedByte>, d: nat, t: nat, f32: int -> real)
    requires |bytes| >= TreeStart(d, t)
    ensures |CodesOf(bytes, d, t)| == Times(t, 4 * Pow2(d))
    ensures |PredictionsOf(bytes, d, t, f32)| == Times(t, Pow2(d))
    ensures |ThresholdsOf(bytes, d, t, f32)| == t
  {
    CodesSize(bytes, d, t);
    PredictionsSize(bytes, d, t, f32);
    ThresholdsSize(bytes, d, t, f32);
  }

  /** The forest a complete file describes. */
  function Decoded(bytes: seq<SignedByte>, f32: int -> real): (f: Forest)
    requires Complete(bytes)
    ensures f.Valid()
  {
    SizesOf(bytes, HeaderDepth(bytes), HeaderTrees(bytes), f32);
    var d, n := HeaderDepth(bytes), HeaderTrees(bytes);
    Forest(d, n, CodesOf(bytes, d, n), PredictionsOf(bytes, d, n, f32), ThresholdsOf(bytes, d, n, f32))
  }

  /** Copies the four bytes at `p` into the view's slots, failing as the source does when one is missing. */
  method Load4(view: DataView, bytes: seq<SignedByte>, p: nat) returns (ok: bool)
    requires view.buffer.Length == 4
    modifies view.buffer
    ensures ok <==> p + 4 <= |bytes|
    ensures ok ==> view.GetInt32(0, false) == WordAt(bytes, p)
  {
    if p + 4 > |bytes| {
      return false;
    }
    var _ := view.SetUint8(0, bytes[p]);
    var _ := view.SetUint8(1, bytes[p + 1]);
    var _ := view.SetUint8(2, bytes[p + 2]);
    var _ := view.SetUint8(3, bytes[p + 3]);
    return true;
  }

  /** The source's leaf loop: reads `m` consecutive floats starting at byte position `q`. */
  method ReadFloats(view: DataView, bytes: seq<SignedByte>, q: nat, m: nat, f32: int -> real) returns (ok: bool, fs: seq<real>)
    requires view.buffer.Length == 4 && m >= 1
    modifies view.buffer
    ensures ok <==> q + 4 * m <= |bytes|
    ensures ok ==> fs == Floats(bytes, q, m, f32)
  {
    fs := [];
    var p := q;
    var i := 0;
    while i < m
      invariant 0 <= i <= m
      invariant p == q + 4 * i
      invariant i == 0 ==> fs == []
      invariant i > 0 ==> p <= |bytes| && fs == Floats(bytes, q, i, f32)
    {
      ok := Load4(view, bytes, p);
      if !ok {
        return false, fs;
      }
      fs := fs + [view.GetFloat32(0, false, f32)];
      p := p + 4;
      i := i + 1;
    }
    ok := true;
  }

  /**
   * One pass of the source's tree loop for tree `t`, starting at byte position `p`: node
   * tests, leaf predictions, threshold. It fails exactly when the tree's bytes do not all
   * fit, and otherwise yields what tree `t` adds to the decoded sequences.
   */
  method UnpackTree(view: DataView, bytes: seq<SignedByte>, p: nat, pow2: nat, f32: int -> real, ghost d: nat, ghost t: nat)
    returns (ok: bool, codes: seq<SignedByte>, leaves: seq<real>, threshold: real)
    requires view.buffer.Length == 4
    requires pow2 == Pow2(d) && p == TreeStart(d, t) <= |bytes|
    modifies view.buffer
    ensures ok <==> TreeStart(d, t + 1) <= |bytes|
    ensures ok ==> CodesOf(bytes, d, t + 1) == CodesOf(bytes, d, t) + [0, 0, 0, 0] + codes
    ensures ok ==> PredictionsOf(bytes, d, t + 1, f32) == PredictionsOf(bytes, d, t, f32) + leaves
    ensures ok ==> ThresholdsOf(bytes, d, t + 1, f32) == ThresholdsOf(bytes, d, t, f32) + [threshold]
  {
    TreeStartStep(d, t);
    var length := (pow2 - 1) * 4;
    assert length == NodeBytes(d);
    codes := Slice(bytes, p, length);
    var q := p + length;
    assert q == LeafStart(d, t);

    ok, leaves := ReadFloats(view, bytes, q, pow2, f32);
    if !ok {
      return ok, codes, leaves, 0.0;
    }
    q := q + 4 * pow2;
    assert q == ThresholdStart(d, t);

    ok := Load4(view, bytes, q);
    if !ok {
      return ok, codes, leaves, 0.0;
    }
    threshold := view.GetFloat32(0, false, f32);
  }

  /** Reads the tree depth from bytes [8, 12) and the number of trees from bytes [12, 16). */
  method ReadHeader(view: DataView, bytes: seq<SignedByte>) returns (ok: bool, treeDepth: nat, numberOfTrees: nat)
    requires view.buffer.Length == 4
    modifies view.buffer
    ensures ok <==> |bytes| >= 16
    ensures ok ==> treeDepth == HeaderDepth(bytes) && numberOfTrees == HeaderTrees(bytes)
  {
    treeDepth, numberOfTrees := 0, 0;
    ok := Load4(view, bytes, 8);
    if !ok {
      return;
    }
    treeDepth := view.GetInt32(0, false);
    ok := Load4(view, bytes, 12);
    if !ok {
      return;
    }
    numberOfTrees := view.GetInt32(0, false);
  }

  /**
   * Decodes a cascade file. It fails exactly when the file is shorter than its header
   * declares; otherwise it returns the forest the layout describes, having consumed exactly
   * EncodedLength bytes (`consumed` is the source's final cursor) and ignored any others.
   */
  method Unpack(bytes: seq<SignedByte>, f32: int -> real) returns (r: Result<Forest>, ghost consumed: nat)
    ensures r.Ok? <==> Complete(bytes)
    ensures r.Ok? ==> r.value == Decoded(bytes, f32) && consumed == EncodedLength(r.value.treeDepth, r.value.numberOfTrees)
  {
    var buf := new int[4](_ => 0);
    var view := new DataView(buf);
    consumed := 0;
    var ok, treeDepth, numberOfTrees := ReadHeader(view, bytes);
    if !ok {
      return Err(TruncatedFile), consumed;
    }
    var p: nat := 16;

    var pow2 := Pow2(treeDepth);
    var treeCodes: seq<SignedByte> := [];
    var predictions: seq<real> := [];
    var thresholds: seq<real> := [];

    var t := 0;
    while t < numberOfTrees
      invariant 0 <= t <= numberOfTrees
      invariant p == TreeStart(treeDepth, t) <= |bytes|
      invariant treeCodes == CodesOf(bytes, treeDepth, t)
      invariant predictions == PredictionsOf(bytes, treeDepth, t, f32)
      invariant thresholds == ThresholdsOf(bytes, treeDepth, t, f32)
    {
      TreeStartStep(treeDepth, t);
      TreeStartMono(treeDepth, t + 1, numberOfTrees);
      var codes, leaves, threshold;
      ok, codes, leaves, threshold := UnpackTree(view, bytes, p, pow2, f32, treeDepth, t);
      if !ok {
        return Err(TruncatedFile), consumed;
      }
      treeCodes := treeCodes + [0, 0, 0, 0] + codes;
      predictions := predictions + leaves;
      thresholds := thresholds + [threshold];
      p := p + 8 * pow2;
      t := t + 1;
    }
    consumed := p;
    return Ok(Forest(treeDepth, numberOfTrees, treeCodes, predictions, thresholds)), consumed;
  }
}
