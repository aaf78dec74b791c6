/** The Mandelbrot session: the state record the application owns for its
    lifetime, the accelerator it may dispatch to, and the reference (CPU)
    frame engine. */
module Mandelbrot {
  import opened Common
  import opened Palette
  import opened EscapeTime

  /** The calls whose order a session promises, as they happen: a CPU frame,
      the accelerator's two operations, and the releases of the buffers and
      of the state record. */
  datatype Call = CpuFrame | AccelStep | AccelDestroy | FreeColorList | FreeOutput | FreeSession

  /** An acceleration backend: a table of two operations, `step` and
      `destroy`, over backend-private data that this model does not see. What
      a backend writes into the frame buffer is not modelled; its calls are
      recorded in the session's trace. */
  class Accelerator {
    ghost var destroyed: bool

    constructor ()
      ensures !destroyed
    {
      destroyed := false;
    }

    /** `ops.step(state, w, h)`: computes a frame into the session's buffer. */
    method Step(s: Session, w: int, h: int)
      requires !destroyed && s.output != null
      modifies s.output, s`trace
      ensures s.trace == old(s.trace) + [AccelStep]
    {
      s.trace := s.trace + [AccelStep];
    }

    /** `ops.destroy(state)`: releases the backend's resources, once. */
    method Destroy(s: Session)
      requires !destroyed
      modifies this, s`trace
      ensures destroyed
      ensures s.trace == old(s.trace) + [AccelDestroy]
    {
      destroyed := true;
      s.trace := s.trace + [AccelDestroy];
    }
  }

  /** `struct mandelbrot_state`. A null `colorList` or `output` is a released
      buffer. */
  class Session {
    /** The length of the screen's width on the complex plane. */
    var zoom: real
    var aspect: real
    var centerX: real
    var centerY: real
    /** The iteration budget per pixel. */
    var maxIters: Uint32
    var colorList: array?<bv32>
    /** The frame buffer, rewritten by every step. */
    var output: array?<bv32>
    /** Non-null exactly when an acceleration backend is in use. */
    var accel: Accelerator?
    /** The record of calls made on behalf of this session. */
    ghost var trace: seq<Call>
    /** The frame-buffer cells the CPU path has written, in order. */
    ghost var writes: seq<int>

    ghost predicate Valid()
      reads this, accel
    {
      colorList != null && output != null && colorList != output &&
      colorList.Length == NumColors &&
      (accel != null ==> !accel.destroyed)
    }

    function ViewOf(): View
      reads this
    {
      View(zoom, aspect, centerX, centerY)
    }

    /** `create_mandelbrot`: the initial view, the budget as given, a colour
        table built from the generator's draws after seeding it with the
        constant 0x55941197, and an output buffer of w*h cells whose contents are not yet
        defined. The source never assigns `accel`; the model takes it to be
        null until a backend attaches itself. */
    constructor Create(w: int, h: int, maxIters: Uint32, draws: seq<bv32>, order: DrawOrder)
      requires 0 <= w && 0 < h
      requires |draws| == DrawsPerColor * NumColors && ValidOrder(order)
      ensures Valid()
      ensures zoom == 4.0 && aspect == w as real / h as real
      ensures centerX == 0.0 && centerY == 0.0
      ensures this.maxIters == maxIters
      ensures fresh(colorList) && fresh(output)
      ensures colorList[..] == ColorTable(draws, order)
      ensures output.Length == w * h
      ensures accel == null && trace == [] && writes == []
    {
      var colors := new bv32[NumColors];
      var next := 0;
      for i := 0 to NumColors
        invariant next == DrawsPerColor * i
        invariant forall j :: 0 <= j < i ==> colors[j] == Entry(draws, order, j)
      {
        var drawn := draws[next .. next + DrawsPerColor];
        colors[i] := Pack(drawn[order.red], drawn[order.green], drawn[order.blue]);
        next := next + DrawsPerColor;
      }
      MulNonNegative(w, h);
      zoom := 4.0;
      aspect := w as real / h as real;
      centerX, centerY := 0.0, 0.0;
      this.maxIters := maxIters;
      colorList := colors;
      output := new bv32[w * h];
      accel := null;
      trace := [];
      writes := [];
    }

    /** Makes `a` the session's backend, as a backend's initialisation does
        right after creation. */
    method AttachAccelerator(a: Accelerator)
      requires Valid() && !a.destroyed && accel == null && trace == []
      modifies this`accel
      ensures Valid() && accel == a
    {
      accel := a;
    }

    /** `mandelbrot_pixel`: iterates z <- z^2 + c from z = 0 for at most
        `maxIters` iterations, and writes into cell `dest` the table entry of
        the first iteration whose value escapes, or the interior colour. The
        write is recorded in `writes`. */
    method Pixel(r: real, i: real, dest: int)
      requires Valid() && 0 <= dest < output.Length
      modifies output, this`writes
      ensures writes == old(writes) + [dest]
      ensures output[dest] == PixelColor(colorList[..], Complex(r, i), maxIters)
      ensures forall k :: 0 <= k < output.Length && k != dest ==> output[k] == old(output[k])
    {
      var c := Complex(r, i);
      var z := Origin;
      var iter := 0;
      while iter < maxIters
        invariant 0 <= iter <= maxIters
        invariant z == Orbit(c, iter)
        invariant FirstEscape(c, iter, maxIters) == FirstEscape(c, 0, maxIters)
        invariant forall k :: 0 <= k < output.Length ==> output[k] == old(output[k])
        invariant writes == old(writes)
      {
        z := Iteration(z, c);
        if Escapes(z) {
          output[dest] := colorList[iter % NumColors];
          writes := writes + [dest];
          return;
        }
        iter := iter + 1;
      }
      output[dest] := InteriorColor;
      writes := writes + [dest];
    }

    /** `cpu_mandelbrot`: visits the pixels row by row and writes each cell
        y*w+x once, with the colour of the point its pixel maps to. The cells
        its pixel writes record are 0 .. w*h-1 in order: each exactly once and
        nothing else. */
    method CpuMandelbrot(w: int, h: int)
      requires Valid() && 0 <= w && 0 <= h && output.Length == w * h
      modifies output, this`trace, this`writes
      ensures output[..] == Frame(ViewOf(), maxIters, colorList[..], w, h)
      ensures writes == old(writes) + seq(w * h, k => k)
      ensures trace == old(trace) + [CpuFrame]
    {
      var y := 0;
      while y < h
        invariant 0 <= y <= h
        invariant 0 <= y * w <= w * h
        invariant trace == old(trace)
        invariant writes == old(writes) + seq(y * w, k => k)
        invariant forall k :: 0 <= k < y * w ==>
                    output[k] == CellColor(ViewOf(), maxIters, colorList[..], w, h, k)
      {
        var x := 0;
        while x < w
          invariant 0 <= x <= w
          invariant y * w + x <= w * h
          invariant trace == old(trace)
          invariant writes == old(writes) + seq(y * w + x, k => k)
          invariant forall k :: 0 <= k < y * w + x ==>
                      output[k] == CellColor(ViewOf(), maxIters, colorList[..], w, h, k)
        {
          var c := PixelToComplex(ViewOf(), x, y, w, h);
          var idx := ArrayIdx(w, x, y);
          IdxInRange(w, h, x, y);
          Pixel(c.re, c.im, idx);
          x := x + 1;
        }
        assert y * w + w == (y + 1) * w;
        y := y + 1;
        RowStartInRange(w, h, y);
      }
      assert h * w == w * h;
      trace := trace + [CpuFrame];
    }

    /** `mandelbrot_step`: with a backend, runs only the backend's step;
        without one, runs only the reference frame engine. */
    method Step(w: int, h: int)
      requires Valid() && 0 <= w && 0 <= h && output.Length == w * h
      modifies output, this`trace, this`writes
      ensures Valid()
      ensures accel != null ==> trace == old(trace) + [AccelStep] && writes == old(writes)
      ensures accel == null ==> trace == old(trace) + [CpuFrame]
      ensures accel == null ==> output[..] == Frame(ViewOf(), maxIters, colorList[..], w, h)
      ensures accel == null ==> writes == old(writes) + seq(w * h, k => k)
    {
      if accel != null {
        accel.Step(this, w, h);
        return;
      }
      CpuMandelbrot(w, h);
    }

    /** `mandelbrot_destroy`: tears down the backend, if any, before releasing
        the colour table, the frame buffer and the state record. */
    method Destroy()
      requires Valid()
      modifies this, accel
      ensures colorList == null && output == null && accel == old(accel)
      ensures accel != null ==> accel.destroyed
      ensures trace == old(trace) + (if accel != null then [AccelDestroy] else []) +
                       [FreeColorList, FreeOutput, FreeSession]
    {
      if accel != null {
        accel.Destroy(this);
      }
      trace := trace + [FreeColorList];
      trace := trace + [FreeOutput];
      colorList := null;
      output := null;
      trace := trace + [FreeSession];
    }
  }

  /** What the application sees after creating a session and stepping it
      once without a backend: a w*h frame of the initial view in which every
      cell is either the interior colour or an opaque table entry. */
  method FirstFrame(w: int, h: int, maxIters: Uint32, draws: seq<bv32>, order: DrawOrder)
    returns (frame: seq<bv32>)
    requires 0 <= w && 0 < h
    requires |draws| == DrawsPerColor * NumColors && ValidOrder(order)
    ensures frame == Frame(View(4.0, w as real / h as real, 0.0, 0.0), maxIters,
                           ColorTable(draws, order), w, h)
    ensures |frame| == w * h
    ensures forall k :: 0 <= k < |frame| ==> frame[k] == InteriorColor || frame[k] & 0xFF == 0xFF
  {
    var s := new Session.Create(w, h, maxIters, draws, order);
    s.Step(w, h);
    frame := s.output[..];
    TableIsOpaque(draws, order);
    FrameCellsInteriorOrOpaque(s.ViewOf(), maxIters, s.colorList[..], w, h);
    s.Destroy();
    assert s.trace == [CpuFrame, FreeColorList, FreeOutput, FreeSession];
  }
}
