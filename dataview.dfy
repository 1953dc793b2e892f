/**
 * The byte view used by the cascade decoder: a fixed buffer of slots that bytes are written
 * into one at a time and read back as an unsigned 32-bit word (src/DataView.php).
 */
module DataViews {

  /** PHP's `v & 0xff` on a two's-complement integer: the low byte, also for negative `v`. */
  function Mask8(v: int): (m: int)
    ensures 0 <= m < 256
  {
    v % 256
  }

  /** Masking leaves a byte in [0, 256) as it is. */
  lemma Mask8OfByte(b: int)
    requires 0 <= b < 256
    ensures Mask8(b) == b
  {
  }

  /** Masking keeps a two's-complement byte's bits: a signed byte b in [-128, 0) becomes b + 256. */
  lemma {:induction false} Mask8OfSignedByte(b: int)
    requires -128 <= b < 128
    ensures Mask8(b) == if b < 0 then b + 256 else b
  {
  }

  /**
   * The 32-bit word whose base-256 digits, least significant first, are b0, b1, b2, b3.
   * PHP assembles it as `(b3 << 24) | (b2 << 16) | (b1 << 8) | b0`; the four shifted bytes
   * occupy disjoint bits, so the OR is the sum written here.
   */
  function Word(b0: int, b1: int, b2: int, b3: int): (r: int)
    requires 0 <= b0 < 256 && 0 <= b1 < 256 && 0 <= b2 < 256 && 0 <= b3 < 256
    ensures 0 <= r < 0x1_0000_0000
  {
    b0 + 0x100 * b1 + 0x1_0000 * b2 + 0x100_0000 * b3
  }

  /** The digits of a word. */
  function Digit(w: int, k: nat): (d: int)
    requires k < 4
    ensures 0 <= d < 256
    decreases k
  {
    if k == 0 then w % 256 else Digit(w / 256, k - 1)
  }

  /** A word determines its bytes: reading the digits of Word gives the bytes back. */
  lemma WordDigits(b0: int, b1: int, b2: int, b3: int)
    requires 0 <= b0 < 256 && 0 <= b1 < 256 && 0 <= b2 < 256 && 0 <= b3 < 256
    ensures Digit(Word(b0, b1, b2, b3), 0) == b0
    ensures Digit(Word(b0, b1, b2, b3), 1) == b1
    ensures Digit(Word(b0, b1, b2, b3), 2) == b2
    ensures Digit(Word(b0, b1, b2, b3), 3) == b3
  {
    var w := Word(b0, b1, b2, b3);
    assert w / 256 == b1 + 0x100 * b2 + 0x1_0000 * b3;
    assert w / 256 / 256 == b2 + 0x100 * b3;
    assert w / 256 / 256 / 256 == b3;
    assert Digit(w, 2) == Digit(w / 256, 1) == Digit(w / 256 / 256, 0);
    assert Digit(w, 3) == Digit(w / 256, 2) == Digit(w / 256 / 256, 1) == Digit(w / 256 / 256 / 256, 0);
  }

  /** Words with the same digits are equal, so Word is injective on bytes. */
  lemma WordInjective(a0: int, a1: int, a2: int, a3: int, b0: int, b1: int, b2: int, b3: int)
    requires 0 <= a0 < 256 && 0 <= a1 < 256 && 0 <= a2 < 256 && 0 <= a3 < 256
    requires 0 <= b0 < 256 && 0 <= b1 < 256 && 0 <= b2 < 256 && 0 <= b3 < 256
    ensures Word(a0, a1, a2, a3) == Word(b0, b1, b2, b3) <==> a0 == b0 && a1 == b1 && a2 == b2 && a3 == b3
  {
    WordDigits(a0, a1, a2, a3);
    WordDigits(b0, b1, b2, b3);
  }

  /** Little-endian reading of four bytes (the order of the cascade file): masked byte k has weight 256^k. */
  function Int32LE(b0: int, b1: int, b2: int, b3: int): (r: int)
    ensures 0 <= r < 0x1_0000_0000
  {
    Word(Mask8(b0), Mask8(b1), Mask8(b2), Mask8(b3))
  }

  /**
   * A DataView over a fixed-size buffer (PHP's SplFixedArray). The buffer is shared with the
   * caller that created it, as in the source. An unset slot of the SplFixedArray holds null,
   * which `& 0xff` turns into 0; the model initialises slots to 0 for the same effect.
   */
  class DataView {
    const buffer: array<int>

    constructor (arrayBuffer: array<int>)
      ensures buffer == arrayBuffer
    {
      buffer := arrayBuffer;
    }

    /** Stores `value` (unmasked) in slot `byteOffset`; every other slot keeps its value. */
    method SetUint8(byteOffset: int, value: int) returns (self: DataView)
      requires 0 <= byteOffset < buffer.Length
      modifies buffer
      ensures self == this
      ensures buffer[..] == old(buffer[..])[byteOffset := value]
    {
      buffer[byteOffset] := value;
      self := this;
    }

    /**
     * The four slots starting at `byteOffset` as an unsigned 32-bit word: little-endian by
     * default, big-endian when `bigEndian`. Each slot is masked to its low byte and there is
     * no sign extension, so the result is never negative despite the source calling it signed.
     */
    function GetInt32(byteOffset: int, bigEndian: bool): (r: int)
      reads buffer
      requires 0 <= byteOffset && byteOffset + 4 <= buffer.Length
      ensures 0 <= r < 0x1_0000_0000
    {
      var b0, b1, b2, b3 := Mask8(buffer[byteOffset]), Mask8(buffer[byteOffset + 1]),
                            Mask8(buffer[byteOffset + 2]), Mask8(buffer[byteOffset + 3]);
      if bigEndian then Word(b3, b2, b1, b0) else Word(b0, b1, b2, b3)
    }

    /** The float whose bit pattern is the word GetInt32 reads; `f32` stands for PHP's pack/unpack bit-cast. */
    function GetFloat32(byteOffset: int, bigEndian: bool, f32: int -> real): (r: real)
      reads buffer
      requires 0 <= byteOffset && byteOffset + 4 <= buffer.Length
      ensures r == f32(GetInt32(byteOffset, bigEndian))
    {
      var w := GetInt32(byteOffset, bigEndian);
      f32(w)
    }
  }
}

/** The byte-order facts the DataView unit test exercises. */
module DataViewFacts {
  import opened DataViews

  /** Reversing the four slots turns the big-endian reading into the little-endian one and back. */
  lemma ReversedSlotsSwapByteOrder(v: DataView, w: DataView, o: int)
    requires 0 <= o && o + 4 <= v.buffer.Length && o + 4 <= w.buffer.Length
    requires w.buffer[o] == v.buffer[o + 3] && w.buffer[o + 1] == v.buffer[o + 2]
    requires w.buffer[o + 2] == v.buffer[o + 1] && w.buffer[o + 3] == v.buffer[o]
    ensures w.GetInt32(o, false) == v.GetInt32(o, true)
    ensures w.GetInt32(o, true) == v.GetInt32(o, false)
  {
  }

  /** getFloat32 reads the same word: reversing the four slots swaps its byte orders too. */
  lemma ReversedSlotsSwapFloatOrder(v: DataView, w: DataView, o: int, f32: int -> real)
    requires 0 <= o && o + 4 <= v.buffer.Length && o + 4 <= w.buffer.Length
    requires w.buffer[o] == v.buffer[o + 3] && w.buffer[o + 1] == v.buffer[o + 2]
    requires w.buffer[o + 2] == v.buffer[o + 1] && w.buffer[o + 3] == v.buffer[o]
    ensures w.GetFloat32(o, false, f32) == v.GetFloat32(o, true, f32)
    ensures w.GetFloat32(o, true, f32) == v.GetFloat32(o, false, f32)
  {
    ReversedSlotsSwapByteOrder(v, w, o);
  }

  /**
   * What getInt32 reads: digit k of the little-endian word is the masked slot k; of the
   * big-endian word, the masked slot 3 - k.
   */
  lemma GetInt32Digits(v: DataView, o: int)
    requires 0 <= o && o + 4 <= v.buffer.Length
    ensures forall k :: 0 <= k < 4 ==> Digit(v.GetInt32(o, false), k) == Mask8(v.buffer[o + k])
    ensures forall k :: 0 <= k < 4 ==> Digit(v.GetInt32(o, true), k) == Mask8(v.buffer[o + 3 - k])
  {
    var b0, b1, b2, b3 := Mask8(v.buffer[o]), Mask8(v.buffer[o + 1]), Mask8(v.buffer[o + 2]), Mask8(v.buffer[o + 3]);
    WordDigits(b0, b1, b2, b3);
    WordDigits(b3, b2, b1, b0);
  }

  /** A negative signed byte contributes its two's-complement low byte: -1 reads as 0xff. */
  lemma SignedBytesAreMasked()
    ensures Int32LE(-1, -1, -1, -1) == 0xffff_ffff
    ensures Int32LE(-128, 0, 0, 0) == 128
  {
  }

  /**
   * Writing 1, 2, 3, 4 and reading back gives 67305985 little-endian and 16909060 big-endian;
   * writing 4, 3, 2, 1 swaps the two.
   */
  method Uint8ToInt32() returns (le: int, be: int, leSwapped: int, beSwapped: int)
    ensures le == 67305985 && be == 16909060
    ensures leSwapped == 16909060 && beSwapped == 67305985
  {
    var buf := new int[4](_ => 0);
    var view := new DataView(buf);
    le, be := WriteAndRead(view, 1, 2, 3, 4);
    leSwapped, beSwapped := WriteAndRead(view, 4, 3, 2, 1);
  }

  /** Writes four bytes at slots 0 .. 3 of a four-slot view and reads the word in both byte orders. */
  method WriteAndRead(view: DataView, b0: int, b1: int, b2: int, b3: int) returns (le: int, be: int)
    requires view.buffer.Length == 4
    requires 0 <= b0 < 256 && 0 <= b1 < 256 && 0 <= b2 < 256 && 0 <= b3 < 256
    modifies view.buffer
    ensures le == Word(b0, b1, b2, b3) && be == Word(b3, b2, b1, b0)
  {
    var _ := view.SetUint8(0, b0);
    var _ := view.SetUint8(1, b1);
    var _ := view.SetUint8(2, b2);
    var _ := view.SetUint8(3, b3);
    assert view.buffer[0] == b0 && view.buffer[1] == b1 && view.buffer[2] == b2 && view.buffer[3] == b3;
    Mask8OfByte(b0);
    Mask8OfByte(b1);
    Mask8OfByte(b2);
    Mask8OfByte(b3);
    le, be := view.GetInt32(0, false), view.GetInt32(0, true);
  }
}
