# pico object detection, modelled in Dafny

This project models the core of magicsunday/pico, a PHP port of the pico object detector (pixel
intensity comparisons organised in decision trees). The model covers:

- **Reading a cascade file.** `Cascade::unpack` turns the signed bytes of the file into a
  `Forest`. The forest holds the tree depth, the number of trees, every tree's node codes, the
  leaf predictions and the per-tree rejection thresholds. Bytes are read four at a time through a
  `DataView`: `setUint8`, then `getInt32` or `getFloat32` (forest.dfy, dataview.dfy).
- **The offset lookup table and the cascade.**
  - `Cascade::createLut` precomputes the scaled pixel offsets.
  - `Cascade::runCascade` walks each tree by comparing two pixels per node. It adds up the leaf
    predictions, rejects a window as soon as the running sum falls to a tree's threshold, and
    otherwise returns the sum minus the last threshold (classifier.dfy).
- **The multi-scale scan.** `Cascade::findObjects` slides square windows over the image at
  growing scales and keeps every window with a positive score (scanner.dfy).
- **Clustering.** `Cascade::calculateIntersection` gives the intersection over union of two
  detections. `Cascade::clusterDetections` greedily merges detections that overlap more than a
  threshold (clustering.dfy).
- **The value classes.** `Detection` is an immutable record whose constructor truncates its
  coordinates (detection.dfy). `FixedFloat` is a mutable 24.8 fixed-point number (fixedfloat.dfy).

## How the model follows the code

- **PHP integers** are unbounded `int`s. PHP floats are exact `real`s.
- **`(int)` casts** are `Truncate`, which rounds toward zero.
- **Arithmetic shifts.** `>> 8` is `Shr8` and `>> 1` is `Shr1`. Both round toward negative
  infinity, like PHP's shifts.
- **The lookup table** is a map keyed by `(pos, s, k)`. PHP keys it as `$lut[$pos][$s][$k]`.
  A missing entry reads as 0, which is what PHP's null reads as in integer arithmetic.
- **createLut never advances its per-tree node index**, so the node position is the same at
  every depth (src/Cascade.php:244-251). The table therefore only holds the entries for each
  tree's root node.
  - Nodes deeper than the root read offset 0. Both pixels compared are then the window's centre,
    so the comparison bit is always 1.
  - The model defines exactly this table. `TwoReachableLeaves` proves that only two leaves of
    each tree can be reached.
- **Precedence in calculateIntersection.** PHP binds `+` tighter than `>>`, so `$x + $s >> 1`
  is `(x + s) >> 1`. A detection's extent on an axis is therefore an interval of length `s`
  around `x / 2`, not around `x`.
  - The model follows the code. `HalvedCentresOverlap` shows two detections, disjoint as squares
    around their centres, whose intersection over union is 1/4.
- **clusterDetections does not sort.** Seeds are taken in input order.
- **Re-claiming.** A seed also claims detections that an earlier seed already claimed, so their
  scores count in several clusters (`ReclaimedDetection`).
- **Helper methods.** Some inner loops, loop bodies and repeated four-byte reads of the source
  are their own methods here:
  - cascade reading: `UnpackTree`, `ReadHeader`, `Load4` and `ReadFloats`;
  - createLut and runCascade: `FillTree`, `EvaluateTree`, `Descend` and `NodeBit`;
  - findObjects: `ScanScale`, `ScanGrid`, `ScanRow` and `ScanWindow`;
  - clusterDetections: `ClaimMembers` and `ClaimMember`.

  The source's loop-invariant values (offsets, `1 << depth`) are recomputed or passed in.
- **The scan specification** follows the loops: `RowScan`, `GridScan` and `ScaleScan` take the
  detections found so far and append each window, row or scale in the order findObjects visits
  them.

## Model

| member | source | states |
|---|---|---|
| DataViews.Mask8 | src/DataView.php:65-74 | `& 0xff` yields a byte in [0, 256) |
| DataViews.Mask8OfByte | src/DataView.php:71-74 | masking a value already in [0, 256) leaves it unchanged |
| DataViews.Mask8OfSignedByte | src/DataView.php:65-74 | masking a signed byte adds 256 to negatives and keeps non-negatives |
| DataViews.Word | src/DataView.php:65-74 | four bytes OR-ed at shifts 0, 8, 16, 24 form a value in [0, 2^32) |
| DataViews.WordDigits | src/DataView.php:65-74 | each byte of a word is recovered as its base-256 digit |
| DataViews.WordInjective | src/DataView.php:65-74 | two words are equal exactly when all four bytes are equal |
| DataViews.Int32LE | src/DataView.php:71-74 | the little-endian word of four signed bytes lies in [0, 2^32) |
| DataViews.DataView.constructor | src/DataView.php:33-36 | the view uses the caller's buffer itself, not a copy |
| DataViews.DataView.SetUint8 | src/DataView.php:47-51 | stores the value at the offset, changes nothing else, returns the view itself |
| DataViews.DataView.GetInt32 | src/DataView.php:62-75 | the word read in either byte order lies in [0, 2^32) (no sign extension) |
| DataViews.DataView.GetFloat32 | src/DataView.php:86-91 | the float is the bit-cast `f32` of exactly the word GetInt32 reads in the same byte order |
| DataViewFacts.ReversedSlotsSwapFloatOrder | src/DataView.php:86-91 | reversing the four bytes swaps the big- and little-endian float readings |
| DataViewFacts.ReversedSlotsSwapByteOrder | src/DataView.php:62-75 | reversing the four bytes swaps the big- and little-endian readings |
| DataViewFacts.GetInt32Digits | src/DataView.php:62-75 | digit k of the little-endian reading is byte k, and of the big-endian reading byte 3-k, masked |
| DataViewFacts.SignedBytesAreMasked | src/DataView.php:71-74 | bytes -1,-1,-1,-1 read as 0xffffffff; bytes -128,0,0,0 read as 128 |
| DataViewFacts.Uint8ToInt32 | test/DataViewTest.php:21-39 | bytes 1,2,3,4 read as 67305985 little-endian and 16909060 big-endian, and the reverse after swapping |
| DataViewFacts.WriteAndRead | test/DataViewTest.php:23-32 | after writing four bytes into a four-slot view, the little-endian read is their word and the big-endian read the word of the reversed bytes |
| FixedFloats.FixedOneIsShiftedOne | src/FixedFloat.php:21-31 | FIXED_ONE is 1 shifted left by FRACT_BITS (8) |
| FixedFloats.Product | src/FixedFloat.php:81-84 | the product of representations shifted right by 8 is the floor of a*b/256 |
| FixedFloats.Quotient | src/FixedFloat.php:93-96 | the quotient times the divisor is the dividend times 256 |
| FixedFloats.FixedFloat.constructor | src/FixedFloat.php:45-48 | the representation is the float times 256 truncated toward zero |
| FixedFloats.FixedFloat.Value | src/FixedFloat.php:103-106 | returns the stored representation |
| FixedFloats.FixedFloat.ToFloat | src/FixedFloat.php:113-116 | the float times 256 is the representation |
| FixedFloats.FixedFloat.Add | src/FixedFloat.php:57-60 | the representation grows by the other's representation |
| FixedFloats.FixedFloat.Substract | src/FixedFloat.php:69-72 | the representation shrinks by the other's representation |
| FixedFloats.FixedFloat.Multiply | src/FixedFloat.php:81-84 | the representation becomes the Product of the two |
| FixedFloats.FixedFloat.Divide | src/FixedFloat.php:93-96 | the representation becomes the exact Quotient of the two |
| FixedFloats.MultiplyByOne | src/FixedFloat.php:81-84 | multiplying by FIXED_ONE is the identity |
| FixedFloats.DivideByOne | src/FixedFloat.php:93-96 | dividing by FIXED_ONE is the identity |
| FixedFloats.AddThenSubstract | src/FixedFloat.php:57-72 | adding then subtracting another number restores the value and leaves the other unchanged |
| FixedFloats.AddToItself | src/FixedFloat.php:57-60 | adding a number to itself doubles it (aliasing) |
| FixedFloats.FloatRoundTrip | src/FixedFloat.php:45-48 | float to fixed and back loses less than 1/256, toward zero |
| FixedFloats.FloatExample | src/FixedFloat.php:45-48 | 450.12 becomes 115230, which reads back as 450.1171875 |
| FixedFloats.DivideExample | test/FixedFloatTest.php:63-69 | 900.25 divided by 2.0 is 450.125 |
| Detections.Truncate | src/Detection.php:54-60 | the integer is the real with its fractional part dropped toward zero |
| Detections.TruncateShrinks | src/Detection.php:54-60 | truncation never increases the magnitude and commutes with negation |
| Detections.NewDetection | src/Detection.php:54-60 | x, y and scale are truncated toward zero; the score is kept |
| Detections.IntegralInputsKept | src/Detection.php:54-60 | integer-valued inputs are kept exactly |
| Forests.HeaderDepth | src/Cascade.php:117-126 | the depth is the little-endian word at bytes 8..11, below 2^32 |
| Forests.HeaderTrees | src/Cascade.php:128-136 | the tree count is the little-endian word at bytes 12..15, below 2^32 |
| Forests.TreeStride | src/Cascade.php:144-173 | one tree takes 4(2^d - 1) code bytes, 4·2^d prediction bytes and 4 threshold bytes |
| Forests.TreeStartFormula | src/Cascade.php:144-173 | tree t starts at byte 16 + t·8·2^d |
| Forests.ThresholdStart | src/Cascade.php:163-173 | the threshold is the last 4 bytes before the next tree |
| Forests.CodesSize | src/Cascade.php:144-153 | t trees give t·4·2^d node codes, each tree preceded by a zero node |
| Forests.PredictionsSize | src/Cascade.php:154-162 | t trees give t·2^d leaf predictions |
| Forests.ThresholdsSize | src/Cascade.php:163-173 | t trees give t thresholds |
| Forests.SizesOf | src/Cascade.php:140-177 | t trees give t·4·2^d codes, t·2^d predictions and t thresholds |
| Forests.Slice | src/Cascade.php:149 | `array_slice` yields min(length, remaining) bytes (none past the end), byte k being the file's byte at offset + k |
| Forests.CodesOfAt | src/Cascade.php:144-151 | slot q of tree u's block of codes is a padding zero for q < 4 and otherwise the file's byte q - 4 of that tree's node tests |
| Forests.Decoded | src/Cascade.php:113-178 | a complete file decodes to a well-formed forest |
| Forests.Load4 | src/Cascade.php:121-126 | loading succeeds exactly when 4 bytes remain, and then the view reads the file's word |
| Forests.ReadFloats | src/Cascade.php:154-162 | reads m consecutive floats exactly when they fit in the file |
| Forests.UnpackTree | src/Cascade.php:144-173 | reading one tree succeeds exactly when it fits, and extends codes (behind a zero node), predictions and thresholds by that tree's |
| Forests.ReadHeader | src/Cascade.php:117-136 | succeeds exactly when 16 bytes are present, yielding the depth and tree count |
| Forests.Unpack | src/Cascade.php:113-178 | succeeds exactly when the file is complete, yielding the decoded forest; a truncated file is an error |
| Classifier.Put | src/Cascade.php:247-250 | after writing, the entry reads the value written |
| Classifier.PutAt | src/Cascade.php:247-250 | a write changes only its own entry |
| Classifier.RootStep | src/Cascade.php:229 | the next tree's block starts one block (4·2^d codes) later |
| Classifier.NodeInBlock | src/Cascade.php:214-217 | the four codes of every internal node lie inside its tree's block |
| Classifier.NodeCodeInFile | src/Cascade.php:144-151 | code k of node idx of tree i, where createLut and runCascade read it, is byte 4(idx-1)+k of that tree's node tests in the file |
| Classifier.NodePosInjective | src/Cascade.php:214 | distinct (tree, node) pairs have distinct code positions |
| Classifier.WriteNodeAt | src/Cascade.php:246-250 | writing a node sets its four entries to code times scale and changes nothing else |
| Classifier.WriteNodeTwice | src/Cascade.php:244-251 | rewriting the same node is idempotent, so createLut's repeated inner iterations add nothing |
| Classifier.WriteNodeDirect | src/Cascade.php:247-250 | the four assignments of the inner body are the node write of code times scale |
| Classifier.NodeWritten | src/Cascade.php:244-251 | the first write of tree i's root node, and every repeated one, yields the table of trees 0..i |
| Classifier.LutOfAtStep | src/Cascade.php:241-254 | tree m-1 changes only its root node's four entries, to code times scale |
| Classifier.RootTest | src/Cascade.php:214 | node idx of tree i sits at tree j's root position exactly when i = j and idx = 1 |
| Classifier.FillTree | src/Cascade.php:242-253 | handling tree i yields the table of trees 0..i |
| Classifier.CreateLut | src/Cascade.php:235-257 | the table equals the specification of all trees' entries |
| Classifier.LutOfAt | src/Cascade.php:235-257 | after trees 0..m-1, entry k of node idx of tree i is its code times scale when i < m and idx is the root, otherwise 0 |
| Classifier.Walk | src/Cascade.php:210-221 | a walk from depth j ends on a leaf index in [2^d, 2^(d+1)) |
| Classifier.WalkStep | src/Cascade.php:213-218 | one step goes to child 2·idx + bit of the pixel comparison |
| Classifier.Leaf | src/Cascade.php:210-221 | the leaf reached lies in [2^d, 2^(d+1)) |
| Classifier.LeafSlotInBlock | src/Cascade.php:211-223 | the prediction index lies inside tree i's block of predictions |
| Classifier.SelectionsAt | src/Cascade.php:223 | element i of the selected predictions is the prediction at tree i's leaf |
| Classifier.NodeBit | src/Cascade.php:216-217 | computes the comparison bit of the node's two sampled pixels |
| Classifier.Descend | src/Cascade.php:213-218 | one inner iteration moves one level down and leaves the remaining walk unchanged |
| Classifier.EvaluateTree | src/Cascade.php:210-221 | the inner loop returns the leaf of the walk specification |
| Classifier.SelectedAt | src/Cascade.php:211-223 | `$predIdx + $idx` is in range and reads tree i's selected prediction |
| Classifier.RunCascade | src/Cascade.php:189-233 | returns the cascade score and the number of trees it evaluated before stopping |
| Classifier.OutcomeRejected | src/Cascade.php:223-227 | a rejecting tree at or after i makes the rest of the loop return -1 |
| Classifier.OutcomeSurvived | src/Cascade.php:223-232 | with no rejecting tree from i on, the loop returns the full sum minus the last threshold |
| Classifier.EarlyRejection | src/Cascade.php:225-227 | a rejecting tree forces the score -1 |
| Classifier.FullSurvival | src/Cascade.php:223-232 | with no rejection the score is the sum of all selected predictions minus the last threshold, positive when there are trees |
| Classifier.ScoreSign | src/Cascade.php:189-233 | the score is -1 or positive; 0 for no trees; -1 exactly when some tree rejects |
| Classifier.EvaluatedStops | src/Cascade.php:209-227 | the loop stops after the first rejecting tree: no tree before it rejects, and it stops early exactly when some tree rejects |
| Classifier.TreesEvaluatedFacts | src/Cascade.php:209-232 | at most all trees are evaluated, none before the last evaluated rejects, stopping early gives -1, and -1 exactly when the last evaluated tree rejected |
| Classifier.DeepNodeBit | src/Cascade.php:216-217 | with createLut's table, deeper nodes compare the centre pixel with itself: bit 1 |
| Classifier.RightDescentValue | src/Cascade.php:216 | always going right k times from idx reaches (idx+1)·2^k - 1 |
| Classifier.WalkAllOnes | src/Cascade.php:213-218 | if all deeper bits are 1 the walk goes right all the way down |
| Classifier.CreatedLutDeepBits | src/Cascade.php:244-251 | createLut's table makes every deeper bit 1 |
| Classifier.LeafWhenDeepBitsOne | src/Cascade.php:210-221 | then the leaf is determined by the root bit alone |
| Classifier.RightmostLeaf | src/Cascade.php:213-218 | going right d-1 times from child 2 + b ends at leaf 2^(d+1)-1 for b = 1 and 2^(d+1)-2^(d-1)-1 for b = 0 |
| Classifier.TwoReachableLeaves | src/Cascade.php:210-251 | with createLut's table only leaves 2^(d+1)-1 and 2^(d+1)-2^(d-1)-1 are reachable |
| Scanner.Step | src/Cascade.php:285 | the step is max(stride·scale, 1): at least both, equal to one |
| Scanner.FloorInMargins | src/Cascade.php:286-294 | a centre inside the scanned range truncates to a window inside the image margins |
| Scanner.LutOfBounded | src/Cascade.php:247-250 | every table entry lies in [-128·s, 127·s] |
| Scanner.AddressInside | src/Cascade.php:216-217 | in-margin windows sample pixel indexes inside the image |
| Scanner.MarginsKeepSamplesInside | src/Cascade.php:216-217 | a window inside the margins reads only pixels of the image at every node |
| Scanner.ScannedWindowInside | src/Cascade.php:284-294 | every window findObjects visits lies in the margins and samples only inside the image |
| Scanner.ScaleGrows | src/Cascade.php:302 | multiplying by a factor above 1 decreases the remaining scale budget |
| Scanner.ScanWindow | src/Cascade.php:294-298 | appends the window's detection exactly when its cascade score is positive |
| Scanner.ScanRow | src/Cascade.php:293-299 | the x loop appends, in order, the detections of the windows at x = offset, offset + step, … up to width - offset |
| Scanner.ScanGrid | src/Cascade.php:292-300 | the y loop appends, in order, the rows at y = offset, offset + step, … up to height - offset |
| Scanner.ScanScale | src/Cascade.php:285-300 | one scale's step, table and grid append that scale's detections |
| Scanner.FindObjects | src/Cascade.php:272-306 | returns exactly the detections of all scales from minSize by scaleFactor up to maxSize, each scale's grid in scan order |
| Scanner.WindowSound | src/Cascade.php:294-298 | a scanned window yields only an accepted detection |
| Scanner.RowSound | src/Cascade.php:293-299 | every detection of the result that is not among the earlier ones is accepted |
| Scanner.GridSound | src/Cascade.php:292-300 | every detection of the result that is not among the earlier ones is accepted |
| Scanner.ScalesSound | src/Cascade.php:284-303 | every detection of the result that is not among the earlier ones is accepted |
| Scanner.RowKeeps | src/Cascade.php:293-299 | the x loop only appends: the earlier detections stay a prefix of the result |
| Scanner.GridKeeps | src/Cascade.php:292-300 | the y loop only appends: the earlier detections stay a prefix |
| Scanner.ScalesKeep | src/Cascade.php:284-303 | the scale loop only appends: the earlier detections stay a prefix |
| Scanner.FindObjectsSound | src/Cascade.php:272-306 | every detection has scale in [minSize, maxSize], lies in the margins, and has a positive score equal to the cascade score of its own window; none when minSize > maxSize |
| Clustering.Overlap | src/Cascade.php:319-339 | the clamped per-axis overlap is non-negative |
| Clustering.Intersection | src/Cascade.php:316-343 | the result is the exact quotient of the overlap area by the union (`IsQuotient`: multiplied by the union it gives the overlap area), the intersection over union |
| Clustering.ExtentLength | src/Cascade.php:322-326 | `(c + s) >> 1` minus `(c - s) >> 1` is exactly s |
| Clustering.OverlapAtMostSides | src/Cascade.php:319-339 | the per-axis overlap is at most min(s1, s2) |
| Clustering.IntersectionSymmetric | src/Cascade.php:316-343 | swapping the detections changes neither overlap, union nor result |
| Clustering.IntersectionInUnit | src/Cascade.php:316-343 | for positive sides the overlap is at most min², the union is positive and the result lies in [0, 1] |
| Clustering.UnionPositive | src/Cascade.php:342 | for positive sides the divisor is positive |
| Clustering.IntersectionWithItself | src/Cascade.php:316-343 | a detection's intersection over union with itself is 1 |
| Clustering.HalvedCentresOverlap | src/Cascade.php:319-328 | (0,0,10) and (12,0,10), disjoint as squares about their centres, have intersection over union 1/4 |
| Clustering.Accumulated | src/Cascade.php:361-380 | the member count is between 1 and the number of visited indexes once the seed is visited |
| Clustering.SelfClaimed | src/Cascade.php:369-370 | with a threshold below 1, every index claims itself |
| Clustering.AssignedBySeed | src/Cascade.php:369-371 | a seed marks exactly the later indexes it claims |
| Clustering.AssignedByNonSeed | src/Cascade.php:360 | an already marked index changes no marks |
| Clustering.ClaimMembers | src/Cascade.php:369-380 | the inner loop marks the claimed indexes, leaves the rest, and returns the accumulated sums |
| Clustering.ClaimMember | src/Cascade.php:370-379 | marks index j and adds it to the sums exactly when seed i claims it; nothing else changes |
| Clustering.ClusterDetections | src/Cascade.php:353-387 | returns exactly the specification's clusters |
| Clustering.SeedClaimsItself | src/Cascade.php:369-382 | a seed is a member of its own cluster, so the division is by n ≥ 1 |
| Clustering.AssignedStays | src/Cascade.php:371 | a mark once set stays set |
| Clustering.AssignedByWitness | src/Cascade.php:359-371 | an index is marked exactly when an earlier-or-equal seed claims it |
| Clustering.EveryIndexAssigned | src/Cascade.php:359-384 | every index is marked at the end |
| Clustering.SeedCount | src/Cascade.php:359-360 | the number of seeds is at most the number of indexes |
| Clustering.ClusterCount | src/Cascade.php:353-387 | one cluster per seed, so at most as many clusters as detections, none for none |
| Clustering.FirstIsSeed | src/Cascade.php:359-360 | the first detection always seeds, so non-empty input gives a cluster |
| Clustering.SingleDetection | src/Cascade.php:353-387 | a single detection is returned as itself |
| Clustering.MeanOfTwo | src/Cascade.php:382 | two members with even sums give their exact mean |
| Clustering.MergedPair | src/Cascade.php:353-387 | (50,50,40,3) and (52,49,42,5) with threshold 0.2 merge into (51,49,41,8) |
| Clustering.ReclaimSeeds | src/Cascade.php:359-371 | in the re-claim scenario the first two seed and the third is claimed by both |
| Clustering.ReclaimSums | src/Cascade.php:361-380 | the third detection's score is summed into both clusters |
| Clustering.ReclaimedDetection | src/Cascade.php:353-387 | (0,0,10,1), (20,0,10,2), (10,0,10,4) give clusters (5,0,10,5) and (15,0,10,6) |

## Left out

- `Cascade::load` (reading the file with fopen/fread and `unpack('c*')`): the model starts from
  the sequence of signed bytes.
- The `Cascade` constructor, `Pico`, `Image` and `Image\Converter` are not part of this model.
- Classifier.RunCascade: for a depth of 2 or more, every window reads `$lut[$pos][$s][$k]` for
  nodes below the root, which createLut never writes. With no trees, the final read is
  `$this->thresholds[-1]`. Each such read gives null, which is 0 in arithmetic as the model
  says, but PHP also emits an "Undefined array key" diagnostic: a notice in PHP 7, a warning in
  PHP 8. Under an error handler that turns warnings into exceptions, runCascade throws at the
  first such read. These diagnostics and that exception are not modelled.
- DataViews.DataView.GetFloat32: the IEEE-754 bit-cast `unpack('f', pack('L', …))` is the
  parameter `f32`. Rounding, NaN and infinities are not modelled.
- Floats are exact reals throughout. PHP's rounding of `$y += $step`, of `$scale *=
  $scaleFactor` and of the cluster means is not modelled.
- Integers are unbounded, so the 64-bit range of PHP integers and shift overflow are not
  modelled.
- DataViews.DataView.SetUint8 and DataViews.DataView.GetInt32 require in-range offsets. PHP's
  `SplFixedArray` throws a RuntimeException outside them; that exception is not modelled.
- Forests.Unpack: a truncated file produces an error result. PHP reaches a TypeError there,
  passing null to `setUint8`.
- FixedFloats.FixedFloat.Divide requires a non-zero divisor and an exact division. PHP raises
  DivisionByZeroError in the first case. In the second it stores a float, which `value(): int`
  then rejects.
- Classifier.RunCascade requires that all sampled pixel indexes are inside the image; PHP reads
  null outside it. `Scanner.ScannedWindowInside` proves this holds for every window `findObjects`
  visits.
- Scanner.FindObjects requires `minSize > maxSize`, or `minSize >= 1` together with
  `scaleFactor > 1`. This is a sufficient condition for the PHP loop to end. The loop need
  not end otherwise, e.g. for minSize = 0, or for 1 ≤ minSize ≤ maxSize with
  0 ≤ scaleFactor ≤ 1. Inputs outside the condition on which it still ends, such as a negative
  scaleFactor, are not modelled.
- Scanner.FindObjects: the loop over scales, rows and columns is modelled on sequences of
  detections, so the order of detections is kept.
- Clustering.ClusterDetections requires positive scales and a threshold below 1. Otherwise
  calculateIntersection or the mean can divide by zero, which PHP raises as DivisionByZeroError.
- Clustering.Intersection requires a non-zero union (DivisionByZeroError in PHP).
- The bitwise OR of disjoint byte fields in `getInt32` is modelled as their sum.
