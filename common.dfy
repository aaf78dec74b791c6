/** Shared helpers: the fixed-width unsigned type of the iteration budget, an
    optional value, and the row-major index of the frame buffer. */
module Common {

  /** `uint32_t`: the values an unsigned 32-bit integer can hold. */
  const Uint32Modulus: int := 0x1_0000_0000
  type Uint32 = x: int | 0 <= x < 0x1_0000_0000

  /** Reduces an integer modulo 2^32, as a C assignment to `uint32_t` does. */
  function WrapUint32(x: int): Uint32
  {
    x % Uint32Modulus
  }

  /** Values in range are kept; others change by a multiple of 2^32. */
  lemma WrapUint32Spec(x: int)
    ensures 0 <= x < Uint32Modulus ==> WrapUint32(x) == x
    ensures (WrapUint32(x) - x) % Uint32Modulus == 0
  {
  }

  datatype Option<T> = None | Some(value: T)

  /** The index into a one-dimensional array of the cell at column x, row y
      of a grid that is w cells wide. The column and the row are recovered
      from the index, so distinct cells have distinct indices. */
  function ArrayIdx(w: int, x: int, y: int): (idx: int)
    ensures 0 <= x < w && 0 <= y ==> idx % w == x && idx / w == y
  {
    if 0 <= x < w && 0 <= y then DivModRowMajor(w, x, y); y * w + x
    else y * w + x
  }

  /** Every cell of a w-by-h grid has an index inside [0, w*h). */
  lemma IdxInRange(w: int, h: int, x: int, y: int)
    requires 0 <= x < w && 0 <= y < h
    ensures 0 <= ArrayIdx(w, x, y) < w * h
  {
    assert 0 <= y * w by { MulNonNegative(y, w); }
    calc {
      ArrayIdx(w, x, y);
      == y * w + x;
      < y * w + w;
      == (y + 1) * w;
      <= { MulMonotone(y + 1, h, w); }
      h * w;
    }
  }

  /** The start of every row up to and including row h lies inside [0, w*h]. */
  lemma RowStartInRange(w: int, h: int, y: int)
    requires 0 <= w && 0 <= y <= h
    ensures 0 <= ArrayIdx(w, 0, y) <= w * h
  {
    MulNonNegative(y, w);
    MulMonotone(y, h, w);
  }

  /** Euclidean division of y*w + x by w, for a column 0 <= x < w. */
  lemma DivModRowMajor(w: int, x: int, y: int)
    requires 0 <= x < w && 0 <= y
    ensures (y * w + x) % w == x
    ensures (y * w + x) / w == y
  {
    var k := y * w + x;
    var q, r := k / w, k % w;
    assert k == w * q + r && 0 <= r < w;
    // w * (q - y) == x - r, and |x - r| < w, so q == y.
    assert w * (q - y) == x - r by {
      assert w * (q - y) == w * q - w * y;
    }
    MultipleBelowModulus(w, q - y, x - r);
  }

  /** Distinct cells of a grid have distinct indices. */
  lemma IdxInjective(w: int, x1: int, y1: int, x2: int, y2: int)
    requires 0 <= x1 < w && 0 <= y1 && 0 <= x2 < w && 0 <= y2
    requires ArrayIdx(w, x1, y1) == ArrayIdx(w, x2, y2)
    ensures x1 == x2 && y1 == y2
  {
    assert x1 == ArrayIdx(w, x1, y1) % w && y1 == ArrayIdx(w, x1, y1) / w;
  }

  /** Every index in [0, w*h) is the index of exactly the cell (k % w, k / w). */
  lemma IdxSurjective(w: int, h: int, k: int)
    requires 0 <= h && 0 <= k < w * h
    ensures 0 < w
    ensures 0 <= k % w < w && 0 <= k / w < h
    ensures ArrayIdx(w, k % w, k / w) == k
  {
    if w <= 0 {
      MulNonPositive(w, h);
      assert false;
    }
    var q := k / w;
    if q >= h {
      MulMonotone(h, q, w);
      assert false;
    }
  }

  /** The order is row-major: the cell after (x, y) is (x+1, y) inside a row,
      and (0, y+1) after the last column. */
  lemma IdxRowMajor(w: int, x: int, y: int)
    requires 0 <= x < w
    ensures x + 1 < w ==> ArrayIdx(w, x + 1, y) == ArrayIdx(w, x, y) + 1
    ensures x + 1 == w ==> ArrayIdx(w, 0, y + 1) == ArrayIdx(w, x, y) + 1
  {
    assert (y + 1) * w == y * w + w;
  }

  lemma MulNonNegative(a: int, b: int)
    requires 0 <= a && 0 <= b
    ensures 0 <= a * b
  {
  }

  lemma MulNonPositive(w: int, h: int)
    requires w <= 0 && 0 <= h
    ensures w * h <= 0
  {
  }

  lemma MulMonotone(a: int, b: int, w: int)
    requires a <= b && 0 <= w
    ensures a * w <= b * w
  {
    assert b * w - a * w == (b - a) * w;
    MulNonNegative(b - a, w);
  }

  /** A multiple of w that lies strictly between -w and w is zero. */
  lemma MultipleBelowModulus(w: int, d: int, e: int)
    requires 0 < w && w * d == e && -w < e < w
    ensures d == 0
  {
    if d >= 1 {
      MulMonotone(1, d, w);
    } else if d <= -1 {
      MulMonotone(1, -d, w);
    }
  }
}
