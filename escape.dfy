/** The escape-time evaluator, the colour lookup and the viewport mapping of
    the renderer, over exact real arithmetic (single-precision rounding is not
    modelled). */
module EscapeTime {
  import opened Common
  import opened Palette

  datatype Complex = Complex(re: real, im: real)

  const Origin: Complex := Complex(0.0, 0.0)

  function Add(a: Complex, b: Complex): Complex
  {
    Complex(a.re + b.re, a.im + b.im)
  }

  function Mul(a: Complex, b: Complex): Complex
  {
    Complex(a.re * b.re - a.im * b.im, a.re * b.im + a.im * b.re)
  }

  /** The squared magnitude |z|^2. */
  function Norm2(z: Complex): real
  {
    z.re * z.re + z.im * z.im
  }

  /** One step of the recurrence, computed as the source does: the square's
      parts first, with the imaginary part as zi*zr + zr*zi, then c added.
      From 0 it steps to c, and it keeps the real axis. */
  function Iteration(z: Complex, c: Complex): (r: Complex)
    ensures z == Origin ==> r == c
    ensures z.im == 0.0 && c.im == 0.0 ==> r.im == 0.0
  {
    var re := z.re * z.re - z.im * z.im;
    var im := z.im * z.re + z.re * z.im;
    Complex(re + c.re, im + c.im)
  }

  /** One step is z^2 + c: (zr^2 - zi^2 + cr, 2 zr zi + ci). */
  lemma IterationIsSquarePlusC(z: Complex, c: Complex)
    ensures Iteration(z, c) == Add(Mul(z, z), c)
    ensures Iteration(z, c).re == z.re * z.re - z.im * z.im + c.re
    ensures Iteration(z, c).im == 2.0 * z.re * z.im + c.im
  {
  }

  /** z_n: the value after n steps starting from z_0 = 0. */
  function Orbit(c: Complex, n: nat): Complex
  {
    if n == 0 then Origin else Iteration(Orbit(c, n - 1), c)
  }

  /** The escape test: squared magnitude strictly greater than 4. */
  predicate Escapes(z: Complex)
  {
    Norm2(z) > 4.0
  }

  /** Iteration `iter` (counting from 0) escapes when the value it computes,
      z_(iter+1), does. */
  predicate EscapesAt(c: Complex, iter: nat)
  {
    Escapes(Orbit(c, iter + 1))
  }

  /** k is the first of the iterations 0 .. maxIters-1 that escapes. */
  ghost predicate IsFirstEscape(c: Complex, maxIters: nat, k: nat)
  {
    k < maxIters && EscapesAt(c, k) && forall j :: 0 <= j < k ==> !EscapesAt(c, j)
  }

  /** The first iteration in [from, maxIters) that escapes, if any. */
  function FirstEscape(c: Complex, from: nat, maxIters: nat): (r: Option<nat>)
    decreases maxIters - from
    ensures r.Some? ==> from <= r.value < maxIters && EscapesAt(c, r.value)
  {
    if from >= maxIters then None
    else if EscapesAt(c, from) then Some(from)
    else FirstEscape(c, from + 1, maxIters)
  }

  /** The scan finds the least escaping iteration, and finds none exactly
      when no iteration in range escapes. */
  lemma {:induction false} FirstEscapeIsLeast(c: Complex, from: nat, maxIters: nat)
    ensures FirstEscape(c, from, maxIters).Some? ==>
              forall j :: from <= j < FirstEscape(c, from, maxIters).value ==> !EscapesAt(c, j)
    ensures FirstEscape(c, from, maxIters).None? <==>
              forall j :: from <= j < maxIters ==> !EscapesAt(c, j)
    decreases maxIters - from
  {
    if from < maxIters && !EscapesAt(c, from) {
      FirstEscapeIsLeast(c, from + 1, maxIters);
    }
  }

  /** The evaluator's outcome is characterised by the first escape: both
      directions. */
  lemma FirstEscapeCharacterised(c: Complex, maxIters: nat, k: nat)
    ensures FirstEscape(c, 0, maxIters) == Some(k) <==> IsFirstEscape(c, maxIters, k)
  {
    FirstEscapeIsLeast(c, 0, maxIters);
    if IsFirstEscape(c, maxIters, k) {
      assert FirstEscape(c, 0, maxIters).Some?;
    }
  }

  /** The colour of one point: the table entry for the first escaping
      iteration modulo the table size, or the interior colour. */
  function PixelColor(colors: seq<bv32>, c: Complex, maxIters: nat): (color: bv32)
    requires |colors| == NumColors
    ensures color == InteriorColor || color in colors
  {
    match FirstEscape(c, 0, maxIters)
    case Some(k) => colors[k % NumColors]
    case None => InteriorColor
  }

  /** The colour lookup stated against the first-escape predicate. */
  lemma PixelColorSpec(colors: seq<bv32>, c: Complex, maxIters: nat)
    requires |colors| == NumColors
    ensures (exists k: nat :: IsFirstEscape(c, maxIters, k)) ==>
              forall k: nat :: IsFirstEscape(c, maxIters, k) ==>
                PixelColor(colors, c, maxIters) == colors[k % NumColors]
    ensures (forall j :: 0 <= j < maxIters ==> !EscapesAt(c, j)) ==>
              PixelColor(colors, c, maxIters) == InteriorColor
  {
    FirstEscapeIsLeast(c, 0, maxIters);
    forall k: nat | IsFirstEscape(c, maxIters, k)
      ensures PixelColor(colors, c, maxIters) == colors[k % NumColors]
    {
      FirstEscapeCharacterised(c, maxIters, k);
    }
  }

  /** With an opaque table, a pixel gets the interior colour exactly when no
      iteration escapes. */
  lemma InteriorIffBounded(colors: seq<bv32>, c: Complex, maxIters: nat)
    requires |colors| == NumColors && Opaque(colors)
    ensures PixelColor(colors, c, maxIters) == InteriorColor <==>
              forall j :: 0 <= j < maxIters ==> !EscapesAt(c, j)
  {
    FirstEscapeIsLeast(c, 0, maxIters);
    match FirstEscape(c, 0, maxIters)
    case Some(k) =>
      assert colors[k % NumColors] & 0xFF == 0xFF;
    case None =>
  }

  /** A budget of zero iterations colours every point as interior. */
  lemma ZeroBudgetIsInterior(colors: seq<bv32>, c: Complex)
    requires |colors| == NumColors
    ensures PixelColor(colors, c, 0) == InteriorColor
  {
  }

  /** The orbit of the origin stays at the origin. */
  lemma {:induction false} OriginOrbitIsOrigin(n: nat)
    ensures Orbit(Origin, n) == Origin
  {
    if n > 0 {
      OriginOrbitIsOrigin(n - 1);
    }
  }

  /** The origin never escapes, whatever the budget. */
  lemma OriginIsInterior(colors: seq<bv32>, maxIters: nat)
    requires |colors| == NumColors
    ensures PixelColor(colors, Origin, maxIters) == InteriorColor
  {
    forall j: nat | j < maxIters
      ensures !EscapesAt(Origin, j)
    {
      OriginOrbitIsOrigin(j + 1);
    }
    FirstEscapeIsLeast(Origin, 0, maxIters);
  }

  /** c = 3 escapes on the very first iteration: z_1 = 3 and 9 > 4. */
  lemma ThreeEscapesAtOnce(maxIters: nat)
    requires 1 <= maxIters
    ensures FirstEscape(Complex(3.0, 0.0), 0, maxIters) == Some(0)
  {
    ThreeOrbitOne();
  }

  lemma ThreeOrbitOne()
    ensures Orbit(Complex(3.0, 0.0), 1) == Complex(3.0, 0.0)
  {
  }

  /** So c = 3 gets the first entry of the table. */
  lemma ThreeGetsFirstColor(colors: seq<bv32>, maxIters: nat)
    requires |colors| == NumColors && 1 <= maxIters
    ensures PixelColor(colors, Complex(3.0, 0.0), maxIters) == colors[0]
  {
    ThreeEscapesAtOnce(maxIters);
  }

  /** The view parameters of a session. */
  datatype View = View(zoom: real, aspect: real, centerX: real, centerY: real)

  /** The complex point of pixel (x, y) of a w-by-h screen, as the frame loop
      computes it: both axes scaled by zoom and divided by the width. */
  function PixelToComplex(v: View, x: int, y: int, w: int, h: int): (p: Complex)
    requires w > 0
    ensures 2 * x == w ==> p.re == v.centerX
    ensures 2 * y == h ==> p.im == v.centerY
  {
    Complex(v.centerX + ((x as real - w as real / 2.0) * v.zoom) / w as real,
            v.centerY - ((y as real - h as real / 2.0) * v.zoom * v.aspect) / w as real)
  }

  /** The middle pixel of a screen with even sides is the centre of the view. */
  lemma CentreMapsToCentre(v: View, w: int, h: int)
    requires w > 0 && h >= 0 && w % 2 == 0 && h % 2 == 0
    ensures PixelToComplex(v, w / 2, h / 2, w, h) == Complex(v.centerX, v.centerY)
  {
    assert (w / 2) as real == w as real / 2.0;
    assert (h / 2) as real == h as real / 2.0;
  }

  /** Neighbouring columns are zoom/w apart on the real axis, so a larger zoom
      shows more of the plane (less magnification). */
  lemma ColumnPitch(v: View, x: int, y: int, w: int, h: int)
    requires w > 0
    ensures PixelToComplex(v, x + 1, y, w, h).re - PixelToComplex(v, x, y, w, h).re == v.zoom / w as real
  {
    var W := w as real;
    var a := (x as real - W / 2.0) * v.zoom;
    var b := ((x + 1) as real - W / 2.0) * v.zoom;
    assert b == a + v.zoom;
    assert b / W - a / W == v.zoom / W;
  }

  /** The screen's width, from column 0 to column w, spans exactly zoom on the
      real axis. */
  lemma WidthSpansZoom(v: View, y: int, w: int, h: int)
    requires w > 0
    ensures PixelToComplex(v, w, y, w, h).re - PixelToComplex(v, 0, y, w, h).re == v.zoom
  {
    var W := w as real;
    var a := (0.0 - W / 2.0) * v.zoom;
    var b := (W - W / 2.0) * v.zoom;
    assert b - a == W * v.zoom;
    assert b / W - a / W == (b - a) / W;
  }

  /** With aspect = w/h the imaginary scale zoom*aspect/w is zoom/h, so the
      screen's height, from row 0 to row h, spans exactly zoom on the
      imaginary axis. */
  lemma HeightSpansZoom(v: View, x: int, w: int, h: int)
    requires w > 0 && h > 0 && v.aspect == w as real / h as real
    ensures v.zoom * v.aspect / w as real == v.zoom / h as real
    ensures PixelToComplex(v, x, 0, w, h).im - PixelToComplex(v, x, h, w, h).im == v.zoom
  {
    var W, H := w as real, h as real;
    var s := v.zoom * v.aspect;
    assert s == v.zoom * W / H;
    assert s / W == v.zoom / H;
    var a := (0.0 - H / 2.0) * s;
    var b := (H - H / 2.0) * s;
    assert b - a == H * s;
    assert a / W - b / W == -(b - a) / W;
    assert H * s / W == v.zoom;
  }

  /** The image of a scenario: a 100x100 screen with zoom 4 and aspect 1 at
      the origin maps pixel (50, 50) to 0 and pixel (0, 50) to -2. */
  lemma SquareScreenScenario()
    ensures PixelToComplex(View(4.0, 1.0, 0.0, 0.0), 50, 50, 100, 100) == Origin
    ensures PixelToComplex(View(4.0, 1.0, 0.0, 0.0), 0, 50, 100, 100) == Complex(-2.0, 0.0)
  {
  }

  /** The colour of cell k of the frame buffer: the pixel whose row-major
      index is k. */
  function CellColor(v: View, maxIters: nat, colors: seq<bv32>, w: int, h: int, k: int): bv32
    requires |colors| == NumColors && 0 <= h && 0 <= k < w * h
  {
    IdxSurjective(w, h, k);
    PixelColor(colors, PixelToComplex(v, k % w, k / w, w, h), maxIters)
  }

  /** The frame a reference step produces: every cell of the w*h buffer. */
  function Frame(v: View, maxIters: nat, colors: seq<bv32>, w: int, h: int): (f: seq<bv32>)
    requires |colors| == NumColors && 0 <= w && 0 <= h
    ensures |f| == w * h
  {
    MulNonNegative(w, h);
    seq(w * h, k requires 0 <= k < w * h => CellColor(v, maxIters, colors, w, h, k))
  }

  /** Cell y*w+x of the frame holds the colour of pixel (x, y) and of no other:
      each cell depends only on its own coordinates and the read-only view,
      budget and table. */
  lemma FrameAt(v: View, maxIters: nat, colors: seq<bv32>, w: int, h: int, x: int, y: int)
    requires |colors| == NumColors && 0 <= x < w && 0 <= y < h
    ensures 0 <= ArrayIdx(w, x, y) < |Frame(v, maxIters, colors, w, h)|
    ensures Frame(v, maxIters, colors, w, h)[ArrayIdx(w, x, y)] ==
              PixelColor(colors, PixelToComplex(v, x, y, w, h), maxIters)
  {
    IdxInRange(w, h, x, y);
  }

  /** With an opaque table, every cell of a frame is either the interior
      colour or a fully opaque table entry. */
  lemma FrameCellsInteriorOrOpaque(v: View, maxIters: nat, colors: seq<bv32>, w: int, h: int)
    requires |colors| == NumColors && Opaque(colors) && 0 <= w && 0 <= h
    ensures forall k :: 0 <= k < |Frame(v, maxIters, colors, w, h)| ==>
              Frame(v, maxIters, colors, w, h)[k] == InteriorColor ||
              Frame(v, maxIters, colors, w, h)[k] & 0xFF == 0xFF
  {
    var f := Frame(v, maxIters, colors, w, h);
    forall k | 0 <= k < |f|
      ensures f[k] == InteriorColor || f[k] & 0xFF == 0xFF
    {
      IdxSurjective(w, h, k);
      var c := PixelToComplex(v, k % w, k / w, w, h);
      match FirstEscape(c, 0, maxIters)
      case Some(j) =>
        assert colors[j % NumColors] & 0xFF == 0xFF;
      case None =>
    }
  }
}
