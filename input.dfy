/** The viewer's input handling: the held-key flags, the key-event handler
    that sets and clears them and adjusts the iteration budget, and the
    per-frame block that turns held flags into pan and zoom. */
module Input {
  import opened Common
  import opened EscapeTime
  import opened Mandelbrot

  /** `keymap_values`: one bit per held movement or zoom key, bits 0 to 5. */
  const KeyMoveUp: bv32 := 0x01
  const KeyMoveRight: bv32 := 0x02
  const KeyMoveDown: bv32 := 0x04
  const KeyMoveLeft: bv32 := 0x08
  const KeyZoomIn: bv32 := 0x10
  const KeyZoomOut: bv32 := 0x20

  predicate SingleBit(b: bv32)
  {
    b != 0 && b & (b - 1) == 0
  }

  /** The six flags are single bits, pairwise distinct. */
  lemma FlagsAreDistinctBits()
    ensures SingleBit(KeyMoveUp) && SingleBit(KeyMoveRight) && SingleBit(KeyMoveDown)
    ensures SingleBit(KeyMoveLeft) && SingleBit(KeyZoomIn) && SingleBit(KeyZoomOut)
    ensures KeyMoveUp & KeyMoveRight == 0 && KeyMoveUp & KeyMoveDown == 0
    ensures KeyMoveUp & KeyMoveLeft == 0 && KeyMoveUp & KeyZoomIn == 0
    ensures KeyMoveUp & KeyZoomOut == 0 && KeyMoveRight & KeyMoveDown == 0
    ensures KeyMoveRight & KeyMoveLeft == 0 && KeyMoveRight & KeyZoomIn == 0
    ensures KeyMoveRight & KeyZoomOut == 0 && KeyMoveDown & KeyMoveLeft == 0
    ensures KeyMoveDown & KeyZoomIn == 0 && KeyMoveDown & KeyZoomOut == 0
    ensures KeyMoveLeft & KeyZoomIn == 0 && KeyMoveLeft & KeyZoomOut == 0
    ensures KeyZoomIn & KeyZoomOut == 0
  {
  }

  /** `KEYMAP_ASSIGN`: `kmap | value` when pressed, `kmap & ~value` otherwise.
      It sets the bits of `value` when pressed, clears them otherwise, and
      leaves every other bit of the map as it was. */
  function KeymapAssign(pressed: bool, kmap: bv32, value: bv32): (r: bv32)
    ensures r & !value == kmap & !value
    ensures r & value == (if pressed then value else 0)
  {
    if pressed then kmap | value else kmap & !value
  }

  datatype EventType = KeyDown | KeyUp

  /** The keys the handler distinguishes; `Other` stands for every other key. */
  datatype Key = ArrowUp | ArrowDown | W | D | S | A | I | K | Other(code: int)

  datatype KeyEvent = KeyEvent(kind: EventType, sym: Key)

  /** The flag a key holds while pressed, if any. */
  function FlagOf(k: Key): Option<bv32>
  {
    match k
    case W => Some(KeyMoveUp)
    case D => Some(KeyMoveRight)
    case S => Some(KeyMoveDown)
    case A => Some(KeyMoveLeft)
    case I => Some(KeyZoomIn)
    case K => Some(KeyZoomOut)
    case _ => None
  }

  /** The budget after an increment of a `uint32_t`: one more, wrapping from
      2^32 - 1 to 0. */
  function IncrementIters(m: Uint32): (r: Uint32)
    ensures m < Uint32Modulus - 1 ==> r == m + 1
    ensures m == Uint32Modulus - 1 ==> r == 0
  {
    WrapUint32(m + 1)
  }

  /** The budget after `max_iters--` followed by the clamp `if < 1 then 1`:
      one less above 1, so a budget of at least 1 stays at least 1 and 1 stays
      1; from 0 the unsigned decrement wraps to 2^32 - 1, which the clamp
      does not catch. */
  function DecrementIters(m: Uint32): (r: Uint32)
    ensures 2 <= m ==> r == m - 1
    ensures m == 1 ==> r == 1
    ensures 1 <= m ==> 1 <= r
    ensures m == 0 ==> r == Uint32Modulus - 1
  {
    var d := WrapUint32(m - 1);
    if d < 1 then 1 else d
  }

  /** The flag map after an event: a flag key sets its bit on key-down and
      clears it on key-up; other keys leave the map alone. No bit above the
      six flags ever changes. */
  function KeymapAfter(kmap: bv32, e: KeyEvent): (r: bv32)
    ensures r & !0x3F == kmap & !0x3F
  {
    match FlagOf(e.sym)
    case Some(flag) => KeymapAssign(e.kind == KeyDown, kmap, flag)
    case None => kmap
  }

  /** The budget after an event: only key-down of the arrows changes it, and
      a budget of at least 1 stays at least 1 unless Up wraps it to 0. */
  function ItersAfter(m: Uint32, e: KeyEvent): (r: Uint32)
    ensures r != m ==> e.kind == KeyDown && (e.sym == ArrowUp || e.sym == ArrowDown)
    ensures 1 <= m ==> 1 <= r || (e.kind == KeyDown && e.sym == ArrowUp && m == Uint32Modulus - 1)
  {
    if e.kind != KeyDown then m
    else match e.sym
      case ArrowUp => IncrementIters(m)
      case ArrowDown => DecrementIters(m)
      case _ => m
  }

  /** The budget after n presses of Down. */
  function DecrementTimes(m: Uint32, n: nat): Uint32
    decreases n
  {
    if n == 0 then m else DecrementTimes(DecrementIters(m), n - 1)
  }

  /** The clamp law: from a budget of at least 1, any number of Down presses
      keeps the budget at least 1, and m - 1 presses or more bring it to
      exactly 1. */
  lemma {:induction false} RepeatedDecrement(m: Uint32, n: nat)
    requires 1 <= m
    ensures 1 <= DecrementTimes(m, n)
    ensures m - 1 <= n ==> DecrementTimes(m, n) == 1
    ensures n < m ==> DecrementTimes(m, n) == m - n
  {
    if n > 0 {
      RepeatedDecrement(DecrementIters(m), n - 1);
    }
  }

  /** A flag key sets its own flag on key-down and clears it on key-up. */
  lemma FlagKeyAssigns(kmap: bv32, e: KeyEvent, flag: bv32)
    requires FlagOf(e.sym) == Some(flag)
    ensures KeymapAfter(kmap, e) & flag == (if e.kind == KeyDown then flag else 0)
  {
    assert KeymapAfter(kmap, e) == KeymapAssign(e.kind == KeyDown, kmap, flag);
  }

  /** A flag key leaves every bit outside its own flag as it was. */
  lemma FlagKeyKeepsOtherFlags(kmap: bv32, e: KeyEvent, flag: bv32, others: bv32)
    requires FlagOf(e.sym) == Some(flag) && others & flag == 0
    ensures KeymapAfter(kmap, e) & others == kmap & others
  {
    AssignedOtherBits(KeymapAfter(kmap, e), e.kind == KeyDown, kmap, flag, others);
  }

  /** The assignment keeps the bits of any mask disjoint from the value. */
  lemma AssignedOtherBits(after: bv32, pressed: bool, kmap: bv32, value: bv32, others: bv32)
    requires after == KeymapAssign(pressed, kmap, value) && others & value == 0
    ensures after & others == kmap & others
  {
    if pressed {
      SetKeepsOthers(kmap, value, others);
    } else {
      ClearKeepsOthers(kmap, value, others);
    }
  }

  lemma SetKeepsOthers(kmap: bv32, value: bv32, others: bv32)
    requires others & value == 0
    ensures (kmap | value) & others == kmap & others
  {
  }

  lemma ClearKeepsOthers(kmap: bv32, value: bv32, others: bv32)
    requires others & value == 0
    ensures (kmap & !value) & others == kmap & others
  {
  }

  /** The six flag keys hold six different flags. */
  lemma FlagOfInjective(k1: Key, k2: Key)
    requires FlagOf(k1).Some? && FlagOf(k2).Some? && k1 != k2
    ensures FlagOf(k1).value & FlagOf(k2).value == 0
  {
    FlagsAreDistinctBits();
  }

  /** Pressing a flag key and releasing it again leaves the map as it was,
      except that the key's own flag ends up clear. */
  lemma PressThenRelease(kmap: bv32, k: Key)
    requires FlagOf(k).Some?
    ensures KeymapAfter(KeymapAfter(kmap, KeyEvent(KeyDown, k)), KeyEvent(KeyUp, k)) ==
            kmap & !FlagOf(k).value
  {
    var f := FlagOf(k).value;
    SetThenClear(kmap, f);
  }

  lemma SetThenClear(kmap: bv32, value: bv32)
    ensures (kmap | value) & !value == kmap & !value
  {
  }

  /** A flag key leaves the budget alone. */
  lemma FlagKeyKeepsBudget(m: Uint32, e: KeyEvent)
    requires FlagOf(e.sym).Some?
    ensures ItersAfter(m, e) == m
  {
  }

  /** Keys other than the eight handled, and key-up of the arrows, change
      neither the flags nor the budget. */
  lemma IgnoredEventsChangeNothing(kmap: bv32, m: Uint32, e: KeyEvent)
    requires e.sym.Other? || (e.kind == KeyUp && (e.sym == ArrowUp || e.sym == ArrowDown))
    ensures KeymapAfter(kmap, e) == kmap && ItersAfter(m, e) == m
  {
  }

  /** Which way one axis moves: +1, -1 or 0. The "plus" flag wins when both
      are held, as the else-if chain gives it priority. */
  function Direction(kmap: bv32, plus: bv32, minus: bv32): int
  {
    if kmap & plus != 0 then 1 else if kmap & minus != 0 then -1 else 0
  }

  /** The factor the zoom is multiplied by in one frame. */
  function ZoomFactor(kmap: bv32): real
  {
    if kmap & KeyZoomIn != 0 then 9.0 / 10.0
    else if kmap & KeyZoomOut != 0 then 11.0 / 10.0
    else 1.0
  }

  /** The view after one frame with the given flags held: each centre
      coordinate moves by zoom/32 in its direction, and the zoom is scaled.
      The aspect ratio is kept, and so is the sign of a positive zoom. */
  function Moved(v: View, kmap: bv32): (r: View)
    ensures r.aspect == v.aspect
    ensures 0.0 < v.zoom ==> 0.0 < r.zoom
  {
    var speed := v.zoom / 32.0;
    View(v.zoom * ZoomFactor(kmap), v.aspect,
         v.centerX + Direction(kmap, KeyMoveRight, KeyMoveLeft) as real * speed,
         v.centerY + Direction(kmap, KeyMoveUp, KeyMoveDown) as real * speed)
  }

  /** When both keys of a pair are held, up beats down, right beats left and
      zoom-in beats zoom-out; a lone "minus" key moves the other way. */
  lemma PriorityRules(v: View, kmap: bv32)
    ensures kmap & KeyMoveUp != 0 ==> Moved(v, kmap).centerY == v.centerY + v.zoom / 32.0
    ensures kmap & KeyMoveUp == 0 && kmap & KeyMoveDown != 0 ==>
              Moved(v, kmap).centerY == v.centerY - v.zoom / 32.0
    ensures kmap & KeyMoveRight != 0 ==> Moved(v, kmap).centerX == v.centerX + v.zoom / 32.0
    ensures kmap & KeyMoveRight == 0 && kmap & KeyMoveLeft != 0 ==>
              Moved(v, kmap).centerX == v.centerX - v.zoom / 32.0
    ensures kmap & KeyZoomIn != 0 ==> Moved(v, kmap).zoom == v.zoom - v.zoom / 10.0
    ensures kmap & KeyZoomIn == 0 && kmap & KeyZoomOut != 0 ==>
              Moved(v, kmap).zoom == v.zoom + v.zoom / 10.0
  {
  }

  /** With no movement flag held the centre does not move, and with no flag
      held at all the view does not change. */
  lemma NoFlagsNoMovement(v: View, kmap: bv32)
    ensures kmap & 0x0F == 0 ==>
              Moved(v, kmap).centerX == v.centerX && Moved(v, kmap).centerY == v.centerY
    ensures kmap & 0x3F == 0 ==> Moved(v, kmap) == v
  {
    if kmap & 0x0F == 0 {
      assert kmap & KeyMoveUp == 0 && kmap & KeyMoveDown == 0;
      assert kmap & KeyMoveRight == 0 && kmap & KeyMoveLeft == 0;
    }
    if kmap & 0x3F == 0 {
      assert kmap & KeyZoomIn == 0 && kmap & KeyZoomOut == 0;
    }
  }

  /** Zoom-in shrinks a positive zoom and zoom-out grows it. */
  lemma ZoomInShrinksZoomOutGrows(v: View, kmap: bv32)
    requires 0.0 < v.zoom
    ensures kmap & KeyZoomIn != 0 ==> Moved(v, kmap).zoom < v.zoom
    ensures kmap & KeyZoomIn == 0 && kmap & KeyZoomOut != 0 ==> Moved(v, kmap).zoom > v.zoom
  {
  }

  /** The file-scope input state of the application: the held-key map. */
  class Controls {
    var keymap: bv32

    constructor ()
      ensures keymap == 0
    {
      keymap := 0;
    }

    /** `sdl_key_events`: handles one key-down or key-up event. */
    method KeyEvents(s: Session, e: KeyEvent)
      modifies this, s`maxIters
      ensures s.maxIters == ItersAfter(old(s.maxIters), e)
      ensures keymap == KeymapAfter(old(keymap), e)
    {
      var pressed := e.kind == KeyDown;
      match e.sym {
        case ArrowUp =>
          if e.kind == KeyDown {
            s.maxIters := WrapUint32(s.maxIters + 1);
          }
        case ArrowDown =>
          if e.kind == KeyDown {
            s.maxIters := WrapUint32(s.maxIters - 1);
            if s.maxIters < 1 {
              s.maxIters := 1;
            }
          }
        case _ =>
          // The six letter cases of the switch, each assigning its own flag.
          match FlagOf(e.sym) {
            case Some(flag) => keymap := KeymapAssign(pressed, keymap, flag);
            case None =>
          }
      }
    }

    /** The movement block of the main loop: pans by zoom/32 and then zooms by
        a tenth, honouring the else-if priorities. */
    method Move(s: Session)
      modifies s`centerX, s`centerY, s`zoom
      ensures s.ViewOf() == Moved(old(s.ViewOf()), keymap)
    {
      var movSpeed := s.zoom / 32.0;
      if keymap & KeyMoveUp != 0 {
        s.centerY := s.centerY + movSpeed;
      } else if keymap & KeyMoveDown != 0 {
        s.centerY := s.centerY - movSpeed;
      }
      if keymap & KeyMoveRight != 0 {
        s.centerX := s.centerX + movSpeed;
      } else if keymap & KeyMoveLeft != 0 {
        s.centerX := s.centerX - movSpeed;
      }
      if keymap & KeyZoomIn != 0 {
        s.zoom := s.zoom - s.zoom / 10.0;
      } else if keymap & KeyZoomOut != 0 {
        s.zoom := s.zoom + s.zoom / 10.0;
      }
    }
  }
}
