/**
 * The LVGL callbacks of the 128x32 monochrome panel driver: plotting one
 * pixel into the page-organised frame buffer, rounding invalidated areas to
 * whole pages, and turning the two push buttons into LVGL keys.
 */
module Display {

  const LCD_H_RES := 128
  const LCD_V_RES := 32

  /** Eight rows of pixels share one byte: the frame buffer is LCD_V_RES / 8 pages of LCD_H_RES bytes. */
  const PAGES := LCD_V_RES / 8

  /** `1 << j` for a bit index of a byte. */
  function Mask(j: nat): bv8
    requires j < 8
  {
    if j == 0 then 0x01 else if j == 1 then 0x02 else if j == 2 then 0x04 else if j == 3 then 0x08
    else if j == 4 then 0x10 else if j == 5 then 0x20 else if j == 6 then 0x40 else 0x80
  }

  /** Whether bit `j` of a frame-buffer byte is lit. */
  predicate Lit(b: bv8, j: nat)
    requires j < 8
  {
    b & Mask(j) != 0
  }

  /** A frame-buffer byte with bit `k` set (`on`) or cleared. */
  function Plot(b: bv8, k: nat, on: bool): bv8
    requires k < 8
  {
    if on then b | Mask(k) else b & !Mask(k)
  }

  lemma PlotBit(b: bv8, k: nat, j: nat, on: bool)
    requires k < 8 && j < 8
    ensures Lit(Plot(b, k, on), j) == if j == k then on else Lit(b, j)
  {
  }

  /** Plotting makes bit `k` lit exactly when `on`, and keeps every other bit. */
  lemma PlotBits(b: bv8, k: nat, on: bool)
    requires k < 8
    ensures forall j :: 0 <= j < 8 ==> Lit(Plot(b, k, on), j) == if j == k then on else Lit(b, j)
  {
    forall j | 0 <= j < 8
      ensures Lit(Plot(b, k, on), j) == if j == k then on else Lit(b, j)
    {
      PlotBit(b, k, j, on);
    }
  }

  /** Plotting the same pixel twice is plotting it once. */
  lemma PlotIdempotent(b: bv8, k: nat, on: bool)
    requires k < 8
    ensures Plot(Plot(b, k, on), k, on) == Plot(b, k, on)
  {
  }

  /** A byte is determined by its eight bits, so `PlotBits` pins `Plot` down. */
  lemma BitsDetermineByte(a: bv8, b: bv8)
    requires forall j :: 0 <= j < 8 ==> Lit(a, j) == Lit(b, j)
    ensures a == b
  {
    assert Lit(a, 0) == Lit(b, 0) && Lit(a, 1) == Lit(b, 1) && Lit(a, 2) == Lit(b, 2) && Lit(a, 3) == Lit(b, 3);
    assert Lit(a, 4) == Lit(b, 4) && Lit(a, 5) == Lit(b, 5) && Lit(a, 6) == Lit(b, 6) && Lit(a, 7) == Lit(b, 7);
  }

  /**
   * `display_lvgl_set_px_cb`: the pixel (x, y) is bit y mod 8 of the byte in
   * page y / 8, column x; colour 0 clears it, any other colour sets it.
   * The callback has no bounds check; LVGL only passes pixels of the panel.
   */
  method SetPx(gram: array2<bv8>, x: int, y: int, color: int)
    requires gram.Length0 == PAGES && gram.Length1 == LCD_H_RES
    requires 0 <= x < LCD_H_RES && 0 <= y < LCD_V_RES
    modifies gram
    ensures gram[y / 8, x] == Plot(old(gram[y / 8, x]), y % 8, color != 0)
    ensures forall p, q :: 0 <= p < PAGES && 0 <= q < LCD_H_RES && (p != y / 8 || q != x) ==>
      gram[p, q] == old(gram[p, q])
  {
    var page, bit := y / 8, Mask(y % 8);
    if color == 0 {
      gram[page, x] := gram[page, x] & !bit;
    } else {
      gram[page, x] := gram[page, x] | bit;
    }
  }

  /** An `lv_area_t`: inclusive corners. */
  datatype Area = Area(x1: int, y1: int, x2: int, y2: int)

  /**
   * `display_lvgl_rounder`: `y1 & ~7` and `y2 | 7` on two's-complement
   * coordinates, i.e. y1 down to the start of its page and y2 up to the end
   * of its page (negative coordinates included).
   */
  function Rounder(a: Area): (r: Area)
    ensures r.x1 == a.x1 && r.x2 == a.x2
    ensures r.y1 % 8 == 0 && r.y1 <= a.y1 < r.y1 + 8
    ensures r.y2 % 8 == 7 && r.y2 - 8 < a.y2 <= r.y2
  {
    Area(a.x1, a.y1 - a.y1 % 8, a.x2, a.y2 - a.y2 % 8 + 7)
  }

  /** Rounding an already rounded area changes nothing. */
  lemma {:induction false} RounderIdempotent(a: Area)
    ensures Rounder(Rounder(a)) == Rounder(a)
  {
    var r := Rounder(a);
    var rr := Rounder(r);
    assert rr.y1 == r.y1 by {
      assert rr.y1 % 8 == 0 && rr.y1 <= r.y1 < rr.y1 + 8;
      assert r.y1 % 8 == 0;
    }
    assert rr.y2 == r.y2 by {
      assert rr.y2 % 8 == 7 && rr.y2 - 8 < r.y2 <= rr.y2;
      assert r.y2 % 8 == 7;
    }
  }

  /** LVGL key codes. */
  const LV_KEY_NEXT := 9
  const LV_KEY_ENTER := 10
  const LV_KEY_PREV := 11
  const LV_KEY_ESC := 27

  /** Hold counts below SHORT_LIMIT scans are short presses, below LONG_LIMIT long ones; longer holds give no key. */
  const SHORT_LIMIT := 20
  const LONG_LIMIT := 100

  /** The hold counter is a 32-bit `TickType_t`. */
  const TICK_WRAP := 0x1_0000_0000

  datatype IndevState = Released | Pressed

  /** The static state of one button: its reading at the previous scan, and how many scans it has been held. */
  datatype Button = Button(last: bool, held: nat)

  /** A button after one scan, and the key its release produced (0 for none). */
  datatype Press = Press(button: Button, key: nat)

  /** The key a release produces after `held` scans. */
  function Classify(held: nat, shortKey: nat, longKey: nat): nat
  {
    if held < SHORT_LIMIT then shortKey else if held < LONG_LIMIT then longKey else 0
  }

  /**
   * One button's part of `display_lvgl_key_scan`: a press edge starts the
   * counter at 1, holding increments it (wrapping at 2^32), a release edge
   * classifies the count and clears it.
   */
  function ScanButton(b: Button, now: bool, shortKey: nat, longKey: nat): (r: Press)
    requires b.held < TICK_WRAP
    ensures r.button.last == now && r.button.held < TICK_WRAP
    // a key comes only from a release edge, and then the counter is cleared
    ensures r.key != 0 ==> b.last && !now
    ensures b.last && !now ==> r == Press(Button(false, 0), Classify(b.held, shortKey, longKey))
    // without an edge the counter only moves while the button is held
    ensures !b.last && !now ==> r.button.held == b.held
    // a press edge starts the counter at 1; holding increments it, wrapping at 2^32
    ensures !b.last && now ==> r == Press(Button(true, 1), 0)
    ensures b.last && now ==> r == Press(Button(true, (b.held + 1) % TICK_WRAP), 0)
  {
    if now != b.last then
      if now then Press(Button(true, 1), 0)
      else Press(Button(false, 0), Classify(b.held, shortKey, longKey))
    else if now then Press(Button(true, (b.held + 1) % TICK_WRAP), 0)
    else Press(b, 0)
  }

  /** The button after `n` consecutive scans that read "pressed". */
  function HeldFor(b: Button, n: nat): (r: Button)
    requires b.held < TICK_WRAP
    ensures r.held < TICK_WRAP
  {
    if n == 0 then b else ScanButton(HeldFor(b, n - 1), true, 0, 0).button
  }

  /** Pressing a released button and keeping it down for `n` scans leaves the counter at `n`. */
  lemma {:induction false} HeldForCounts(b: Button, n: nat)
    requires !b.last && b.held < TICK_WRAP
    requires 0 < n < TICK_WRAP
    ensures HeldFor(b, n) == Button(true, n)
  {
    if n > 1 {
      HeldForCounts(b, n - 1);
    }
  }

  /**
   * Press, hold for `n` scans in all, release: the release produces the key
   * for a hold of `n` scans and leaves the button released with a cleared
   * counter.
   */
  lemma PressHoldRelease(b: Button, n: nat, shortKey: nat, longKey: nat)
    requires !b.last && b.held < TICK_WRAP
    requires 0 < n < TICK_WRAP
    ensures ScanButton(HeldFor(b, n), false, shortKey, longKey) == Press(Button(false, 0), Classify(n, shortKey, longKey))
    ensures n < SHORT_LIMIT ==> Classify(n, shortKey, longKey) == shortKey
    ensures SHORT_LIMIT <= n < LONG_LIMIT ==> Classify(n, shortKey, longKey) == longKey
    ensures LONG_LIMIT <= n ==> Classify(n, shortKey, longKey) == 0
  {
    HeldForCounts(b, n);
  }

  /** The static variables of `display_lvgl_key_scan`. */
  class KeyScanner {
    var up: Button
    var down: Button

    ghost predicate Valid()
      reads this
    {
      up.held < TICK_WRAP && down.held < TICK_WRAP
    }

    /** Both buttons released, counters 0. */
    constructor ()
      ensures Valid() && up == Button(false, 0) && down == Button(false, 0)
    {
      up := Button(false, 0);
      down := Button(false, 0);
    }

    /**
     * One scan with the current readings of both buttons: the up button
     * gives PREV or ENTER, the down button NEXT or ESC; when both release in
     * the same scan the down button's key wins. The state is PRESSED exactly
     * when a key is reported.
     */
    method Scan(upNow: bool, downNow: bool) returns (state: IndevState, key: nat)
      requires Valid()
      modifies this
      ensures Valid()
      ensures var u := ScanButton(old(up), upNow, LV_KEY_PREV, LV_KEY_ENTER);
              var d := ScanButton(old(down), downNow, LV_KEY_NEXT, LV_KEY_ESC);
        up == u.button && down == d.button
        && key == (if d.key != 0 then d.key else u.key)
      ensures state == Pressed <==> key != 0
      ensures up.last == upNow && down.last == downNow
    {
      state := Released;
      key := 0;
      if upNow != up.last {
        if upNow {
          up := up.(held := 1);
        } else {
          if up.held < SHORT_LIMIT {
            key := LV_KEY_PREV;
          } else if up.held < LONG_LIMIT {
            key := LV_KEY_ENTER;
          }
          up := up.(held := 0);
        }
      } else if upNow {
        up := up.(held := (up.held + 1) % TICK_WRAP);
      }

      if downNow != down.last {
        if downNow {
          down := down.(held := 1);
        } else {
          if down.held < SHORT_LIMIT {
            key := LV_KEY_NEXT;
          } else if down.held < LONG_LIMIT {
            key := LV_KEY_ESC;
          }
          down := down.(held := 0);
        }
      } else if downNow {
        down := down.(held := (down.held + 1) % TICK_WRAP);
      }

      if key != 0 {
        state := Pressed;
      }
      up := up.(last := upNow);
      down := down.(last := downNow);
    }
  }
}
