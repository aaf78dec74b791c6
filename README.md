# Mandelbrot viewer: a verified model of the rendering core

This project models the core of a real-time Mandelbrot viewer written in C. The model has five modules:

- `Common` (`common.dfy`): the row-major index `__array_idx`, the `uint32_t` range and its wrap-around.
- `Palette` (`palette.dfy`): `k_num_colors` and the colour table that `create_mandelbrot` builds. The `rand()` draws are taken as a parameter.
- `EscapeTime` (`escape.dfy`): the pure mathematics of `mandelbrot.c`:
  - one step z <- z^2 + c, as written (`mandelbrot_iteration`);
  - the orbit of a point and the first escaping iteration, the specification of `mandelbrot_pixel`;
  - the colour lookup, the viewport formula of `cpu_mandelbrot`, and the frame that a reference step must produce.
- `Mandelbrot` (`mandelbrot.dfy`): `struct mandelbrot_state` as the class `Session`, and the accelerator's operation table as the class `Accelerator`. `create_mandelbrot`, `mandelbrot_pixel`, `cpu_mandelbrot`, `mandelbrot_step` and `mandelbrot_destroy` are all five modelled imperatively, with the source's loops and an array for the frame buffer and for the colour table. `create_mandelbrot` fills the table in a loop; `mandelbrot_pixel` reads the session and writes one cell of the frame buffer; the others update the session in place.
- `Input` (`input.dfy`): from `main.c`, the six key flags, `KEYMAP_ASSIGN`, the key-event handler `sdl_key_events` (class `Controls`, whose field is the file-scope `keymap`), and the pan/zoom block of the main loop.

Arithmetic is over Dafny `real`, so single-precision rounding is abstracted away. Colours are `bv32`. `max_iters` is an integer in [0, 2^32) with explicit wrap-around.

The session keeps a ghost `trace` of the calls made on its behalf:

- a CPU frame;
- the accelerator's `step` and `destroy`;
- `free` of the colour table, of the frame buffer and of the state record.

This trace states the dispatch of `mandelbrot_step` and the teardown order of `mandelbrot_destroy`. A second ghost field, `writes`, records each cell `Pixel` writes, in order; `Pixel` itself appends its `dest`. `CpuMandelbrot` promises that its calls append exactly 0 .. w*h-1, so every cell is written once, in row-major order, and nothing outside the buffer is written.

Assumptions, and points where the code differs from what its comments and naming suggest:

- `create_mandelbrot` never assigns `accel`. After creation the model takes it to be null, as the header's comment intends. A backend sets it through `AttachAccelerator`, once, right after creation and before any step.
- The code sets `aspect = w/h` (src/mandelbrot.c:50), not h/w, and the model follows the code. So the imaginary scale `zoom*aspect/w` equals `zoom/h`, and the screen's height spans exactly `zoom` on the imaginary axis.
- The clamp after Down keeps a budget of at least 1 at least 1, but it does not make the budget always positive. The code decrements a `uint32_t` and then clamps. From 0 the decrement wraps to 2^32-1, which the clamp does not catch. From 2^32-1 the Up key wraps to 0. The model keeps both wraps (`DecrementIters`, `IncrementIters`).
- `sdl_key_events` has one `case` per letter key, each assigning its own flag. The model's `KeyEvents` keeps the two arrow cases and handles the six letter cases through the table `FlagOf`, which gives each letter key the flag its `case` assigns.
- Each colour is not four random bytes. The code makes three `rand()` calls per entry and forces the low byte to 0xff. `rand() & 0xff << 24` masks the draw with `0xff << 24`; it does not shift a byte. The three calls are operands of `|`, so C leaves their order unspecified. `DrawOrder` says which of an entry's three consecutive draws feeds which mask, and every result holds for any valid order.

## Model

| member | source | states |
|---|---|---|
| `Common.WrapUint32Spec` | include/mandelbrot.h:23 | storing into a `uint32_t` keeps values in range unchanged and otherwise changes the value by a multiple of 2^32 |
| `Common.IdxInRange` | include/common.h:7-10 | for 0<=x<w and 0<=y<h the index y*w+x lies in [0, w*h) |
| `Common.ArrayIdx` | include/common.h:7-10 | the index y*w+x of a cell with 0<=x<w and 0<=y determines the cell: the column is idx mod w and the row is idx div w |
| `Common.IdxInjective` | include/common.h:7-10 | two cells of a grid with equal indices are the same cell |
| `Common.IdxSurjective` | include/common.h:7-10 | every index in [0, w*h) is the index of the cell (k mod w, k div w) inside the grid, so the width is positive |
| `Common.IdxRowMajor` | include/common.h:7-10 | the order is row-major: idx(x+1,y) = idx(x,y)+1 inside a row, and idx(0,y+1) = idx(w-1,y)+1 |
| `Palette.Pack` | src/mandelbrot.c:63-67 | an entry's top three bytes come from the three draws masked with 0xff<<24, 0xff<<16 and 0xff<<8; the low byte is 0xFF, so the entry is never the interior colour 0 |
| `Palette.ColorTable` | src/mandelbrot.c:60-68 | the table has exactly k_num_colors = 512 entries, each with low byte 0xFF and none equal to 0 |
| `Palette.TableIsOpaque` | src/mandelbrot.c:60-68 | every table built from any draws is opaque and does not contain the interior colour |
| `Palette.EntryDependsOnOwnDraws` | src/mandelbrot.c:58-68 | entry i depends only on the three draws 3i..3i+2, so equal draws give equal tables |
| `EscapeTime.Iteration` | src/mandelbrot.c:9-16 | one step from 0 gives c, and a step keeps the real axis (zi = ci = 0 gives imaginary part 0) |
| `EscapeTime.IterationIsSquarePlusC` | src/mandelbrot.c:9-16 | one step as written, with imaginary part zi*zr + zr*zi, is z^2 + c = (zr^2 - zi^2 + cr, 2 zr zi + ci) |
| `EscapeTime.FirstEscape` | src/mandelbrot.c:22-28 | the scan returns an iteration in [from, maxIters) whose updated value has squared magnitude above 4 |
| `EscapeTime.FirstEscapeIsLeast` | src/mandelbrot.c:22-28 | no iteration before the one found escapes, and nothing is found exactly when no iteration in range escapes |
| `EscapeTime.FirstEscapeCharacterised` | src/mandelbrot.c:18-31 | the scan returns k if and only if k < maxIters, iteration k escapes, and no earlier iteration does |
| `EscapeTime.PixelColor` | src/mandelbrot.c:22-30 | the colour of a point is the interior colour 0 or an entry of the table |
| `EscapeTime.PixelColorSpec` | src/mandelbrot.c:18-31 | the colour of a point is `color_list[k % 512]` for its first escaping iteration k, and 0 when no iteration escapes |
| `EscapeTime.InteriorIffBounded` | src/mandelbrot.c:25-30 | with an opaque table, a point gets colour 0 if and only if no iteration below the budget escapes |
| `EscapeTime.ZeroBudgetIsInterior` | src/mandelbrot.c:22-30 | with max_iters = 0 every point gets colour 0 |
| `EscapeTime.OriginOrbitIsOrigin` | src/mandelbrot.c:20-23 | starting from z = 0, the orbit of c = 0 stays at 0 |
| `EscapeTime.OriginIsInterior` | src/mandelbrot.c:18-31 | c = 0 gets colour 0 for every budget |
| `EscapeTime.ThreeEscapesAtOnce` | src/mandelbrot.c:22-26 | c = 3 escapes at iteration 0 whenever max_iters >= 1 |
| `EscapeTime.ThreeGetsFirstColor` | src/mandelbrot.c:24-25 | c = 3 with max_iters >= 1 gets `color_list[0]` |
| `EscapeTime.PixelToComplex` | src/mandelbrot.c:38-39 | a pixel in the middle column (2x = w) lies on the view's centre line cx, and one in the middle row (2y = h) on cy |
| `EscapeTime.CentreMapsToCentre` | src/mandelbrot.c:38-39 | on a screen with even sides, pixel (w/2, h/2) maps to the view's centre |
| `EscapeTime.ColumnPitch` | include/mandelbrot.h:14-18 | neighbouring columns are zoom/w apart on the real axis, so a larger zoom means less magnification |
| `EscapeTime.WidthSpansZoom` | src/mandelbrot.c:38 | columns 0 to w span exactly zoom on the real axis |
| `EscapeTime.HeightSpansZoom` | src/mandelbrot.c:39-50 | with aspect = w/h, the imaginary scale zoom*aspect/w equals zoom/h and rows 0 to h span exactly zoom on the imaginary axis |
| `EscapeTime.SquareScreenScenario` | src/mandelbrot.c:38-39 | on a 100x100 screen with zoom 4, aspect 1 and centre 0, pixel (50,50) maps to 0 and pixel (0,50) maps to -2 |
| `EscapeTime.Frame` | src/mandelbrot.c:33-44 | the reference frame has exactly w*h cells |
| `EscapeTime.FrameAt` | src/mandelbrot.c:35-42 | cell y*w+x of the frame lies within the frame and holds the colour of the point pixel (x,y) maps to; it depends only on (x,y) and the read-only view, budget and table |
| `EscapeTime.FrameCellsInteriorOrOpaque` | src/mandelbrot.c:25-30 | with an opaque table, every cell of a frame is 0 or has low byte 0xFF |
| `Mandelbrot.Accelerator.Step` | include/mandelbrot.h:36-40 | the backend's `step(state, w, h)` may rewrite the frame buffer and is recorded as one accelerator step |
| `Mandelbrot.Accelerator.Destroy` | include/mandelbrot.h:36-47 | the backend's `destroy(state)` marks the backend destroyed and is recorded once |
| `Mandelbrot.Session.Create` | src/mandelbrot.c:46-71 | zoom = 4, centre = (0,0), aspect = w/h, max_iters as given; a fresh 512-entry colour table equal to the table built from the draws; a fresh w*h frame buffer; no accelerator |
| `Mandelbrot.Session.AttachAccelerator` | include/cuda_mandelbrot.h:11-15 | a backend is attached once, to a freshly created session with no backend and no calls yet, and the `accel` pointer then points to it |
| `Mandelbrot.Session.Pixel` | src/mandelbrot.c:18-31 | `*dest` receives the colour of the point (first escaping iteration's table entry, or 0), no other cell changes, and exactly one write, of `dest`, is recorded |
| `Mandelbrot.Session.CpuMandelbrot` | src/mandelbrot.c:33-44 | the buffer equals the reference frame of the current view; the writes its pixel calls record are 0 .. w*h-1 in order, each cell exactly once |
| `Mandelbrot.Session.Step` | src/mandelbrot.c:73-81 | with a backend, only the backend's step runs; without one, only the CPU frame runs, the buffer is the reference frame and each cell is written once |
| `Mandelbrot.Session.Destroy` | src/mandelbrot.c:83-96 | the backend, if any, is destroyed before the colour table, the frame buffer and the state record are freed, in that order; both buffer pointers are null afterwards |
| `Mandelbrot.FirstFrame` | src/mandelbrot.c:46-81 | creating a session and stepping it once without a backend yields the w*h reference frame of the initial view, each cell 0 or an opaque table entry |
| `Input.FlagsAreDistinctBits` | src/main.c:23-30 | the six key flags are single bits, pairwise disjoint |
| `Input.KeymapAssign` | src/main.c:36-39 | the bits of the value are set when pressed and cleared otherwise; every other bit of the map is unchanged |
| `Input.IncrementIters` | src/main.c:42-47 | Up increments the budget by one, wrapping from 2^32-1 to 0 |
| `Input.DecrementIters` | src/main.c:48-56 | Down decrements above 1, keeps 1 at 1 and keeps any budget >= 1 at >= 1; from 0 it wraps to 2^32-1 |
| `Input.RepeatedDecrement` | src/main.c:48-56 | from a budget m >= 1, n presses of Down give max(m-n, 1), never less than 1 |
| `Input.KeymapAfter` | src/main.c:57-74 | no event changes a bit above the six flags |
| `Input.FlagKeyAssigns` | src/main.c:57-74 | key-down of w/d/s/a/i/k sets that key's own flag and key-up clears it |
| `Input.FlagKeyKeepsOtherFlags` | src/main.c:57-74 | a flag key's event leaves every bit outside its own flag unchanged |
| `Input.FlagKeyKeepsBudget` | src/main.c:57-74 | a flag key's event does not change the budget |
| `Input.FlagOfInjective` | src/main.c:23-30 | two different flag keys hold disjoint flags |
| `Input.PressThenRelease` | src/main.c:57-74 | pressing and then releasing a flag key restores the map except that the key's own flag ends clear |
| `Input.IgnoredEventsChangeNothing` | src/main.c:41-75 | keys other than the eight handled, and key-up of the arrows, change neither the flags nor the budget |
| `Input.ItersAfter` | src/main.c:41-56 | only key-down of Up or Down changes the budget, and a budget >= 1 stays >= 1 except when Up wraps 2^32-1 to 0 |
| `Input.Moved` | src/main.c:184-200 | the movement block keeps the aspect ratio and keeps a positive zoom positive |
| `Input.PriorityRules` | src/main.c:184-200 | up beats down, right beats left and zoom-in beats zoom-out; a pan moves the centre by zoom/32 and a zoom step changes zoom by zoom/10 |
| `Input.NoFlagsNoMovement` | src/main.c:184-194 | with no movement flag held the centre is unchanged; with no flag held the view is unchanged |
| `Input.ZoomInShrinksZoomOutGrows` | src/main.c:196-200 | zoom-in shrinks a positive zoom and zoom-out grows it |
| `Input.Controls.constructor` | src/main.c:15 | the key map starts empty |
| `Input.Controls.KeyEvents` | src/main.c:32-76 | the new key map and budget are those of the event-by-event rules above |
| `Input.Controls.Move` | src/main.c:169-200 | the new view is the old one panned by zoom/32 per held direction and scaled by 9/10 or 11/10 |

## Left out

- IEEE single-precision rounding. All arithmetic is over exact reals, so nothing is claimed about float results beyond the c = 0 and c = 3 cases, which are exact in float too.
- The CUDA backend (`cuda_init_mandelbrot` and its kernels). Its code is not part of this model.
  - `Mandelbrot.Accelerator.Step` is deliberately weaker than the intended contract. It does not state that the backend's frame equals the reference frame, because the backend's implementation cannot be verified here.
- `Mandelbrot.Session.Create` is stated as total and does not model `malloc` failure, since the source never checks it. It requires `0 <= w` and `0 < h`, because the buffer size must be non-negative and `aspect` divides by h. The float result for h = 0 is not modelled.
- The C library's `srand`/`rand`. The table builder takes the 1536 draws after `srand(Seed)` as a parameter. With glibc's `RAND_MAX` of 2^31-1 the top bit of each entry would always be clear. The model allows any 32-bit draw, so it does not rely on that.
- `0xff << 24` overflows a signed `int`. The model takes the resulting bit pattern 0xFF000000, as the usual compilers produce.
- `Mandelbrot.Session.Pixel` compares the `int` counter with a `uint32_t` budget. The model does not capture the signed overflow of `++iter` for budgets above 2^31-1.
- Integer overflow of `w * h` and of `y * w + x` for very large screens. Indices are unbounded integers.
- CLI parsing (`parse_options`, `print_help`), `SDL_Init`, the window, event polling, blitting and `fprintf` logging. These are platform input and output. The model's `KeyEvent` is the already-decoded key event.
- `Input.Controls.Move` computes `mov_speed` from the zoom at the time of the movement block. The source computes it before polling events. The two agree because no event changes the zoom.
- Freeing the state record is recorded in the trace only. The model does not forbid later use of the object.
