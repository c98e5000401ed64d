/**
 * The older panel driver's LVGL callbacks. The frame buffer is the same
 * 4 pages of 128 bytes, addressed flat, and the pixel polarity is the
 * inverse of the newer driver's: an opaque colour 0 lights the pixel.
 *
 * Its bounds guard rejects only x > 128 and y > 32, so column 128 and
 * row 32 get through. `SetPx` models the guard as written; `SetPxChecked`
 * is the guard the panel size calls for.
 */
module Oled {
  import opened Display

  /** Bytes in the frame buffer: PAGES pages of LCD_H_RES columns. */
  const PLANE_SIZE := PAGES * LCD_H_RES

  /** LVGL's fully transparent opacity. */
  const LV_OPA_TRANSP := 0

  /** The byte the callback addresses for pixel (x, y): `(y / 8) * 128 + x`. */
  function Offset(x: nat, y: nat): nat
  {
    (y / 8) * LCD_H_RES + x
  }

  /** Whether a plotted pixel ends up lit: only an opaque colour 0 lights it. */
  predicate Ink(color: int, opa: int)
  {
    color == 0 && opa != LV_OPA_TRANSP
  }

  /** For an opaque pixel the two drivers light opposite colours. */
  lemma PolarityInverted(color: int, opa: int)
    requires opa != LV_OPA_TRANSP
    ensures Ink(color, opa) <==> !(color != 0)
  {
  }

  /** The flat offset of an on-panel pixel is its page-and-column position in the newer driver's two-dimensional layout. */
  lemma {:induction false} OffsetIsPageColumn(x: nat, y: nat)
    requires x < LCD_H_RES && y < LCD_V_RES
    ensures Offset(x, y) < PLANE_SIZE
    ensures Offset(x, y) / LCD_H_RES == y / 8 && Offset(x, y) % LCD_H_RES == x
  {
    assert Offset(x, y) == (y / 8) * 128 + x;
  }

  /** Two on-panel pixels that share a byte and a bit are the same pixel. */
  lemma OffsetInjective(x: nat, y: nat, x': nat, y': nat)
    requires x < LCD_H_RES && y < LCD_V_RES && x' < LCD_H_RES && y' < LCD_V_RES
    requires Offset(x, y) == Offset(x', y') && y % 8 == y' % 8
    ensures x == x' && y == y'
  {
    OffsetIsPageColumn(x, y);
    OffsetIsPageColumn(x', y');
  }

  /**
   * `oled_lvgl_set_px_cb` as written. Past the guard the write goes to byte
   * `Offset(x, y)` of the buffer; `overrun` reports an offset past the frame
   * buffer, a write this model cannot represent and leaves out.
   */
  method SetPx(buf: array<bv8>, x: int, y: int, color: int, opa: int) returns (overrun: bool)
    requires buf.Length == PLANE_SIZE
    requires 0 <= x && 0 <= y
    modifies buf
    ensures x > LCD_H_RES || y > LCD_V_RES ==> !overrun && buf[..] == old(buf[..])
    ensures !(x > LCD_H_RES || y > LCD_V_RES) ==> (overrun <==> Offset(x, y) >= PLANE_SIZE)
    ensures overrun ==> buf[..] == old(buf[..])
    ensures !(x > LCD_H_RES || y > LCD_V_RES) && !overrun ==>
      buf[..] == old(buf[..])[Offset(x, y) := Plot(old(buf[Offset(x, y)]), y % 8, Ink(color, opa))]
  {
    overrun := false;
    if x > LCD_H_RES || y > LCD_V_RES {
      return;
    }
    var i := Offset(x, y);
    if i >= buf.Length {
      overrun := true;
      return;
    }
    buf[i] := Plot(buf[i], y % 8, color == 0 && LV_OPA_TRANSP != opa);
  }

  /** The guard lets column 128 of row 0 through, and its write lands on the byte and bit of pixel (0, 8). */
  lemma EdgeColumnAliasesNextPage()
    ensures !(LCD_H_RES > LCD_H_RES || 0 > LCD_V_RES)
    ensures Offset(LCD_H_RES, 0) == Offset(0, 8) < PLANE_SIZE && 0 % 8 == 8 % 8
  {
  }

  /** The guard lets row 32 through, and its write falls past the frame buffer. */
  lemma BottomRowOverruns(x: nat)
    requires x <= LCD_H_RES
    ensures !(x > LCD_H_RES || LCD_V_RES > LCD_V_RES)
    ensures Offset(x, LCD_V_RES) >= PLANE_SIZE
  {
  }

  /**
   * The callback with the guard the panel size calls for (`x >= 128 || y >= 32`):
   * an on-panel pixel changes exactly its own bit, and anything else changes
   * nothing.
   */
  method SetPxChecked(buf: array<bv8>, x: int, y: int, color: int, opa: int)
    requires buf.Length == PLANE_SIZE
    requires 0 <= x && 0 <= y
    modifies buf
    ensures x >= LCD_H_RES || y >= LCD_V_RES ==> buf[..] == old(buf[..])
    ensures x < LCD_H_RES && y < LCD_V_RES ==>
      Offset(x, y) < PLANE_SIZE
      && buf[..] == old(buf[..])[Offset(x, y) := Plot(old(buf[Offset(x, y)]), y % 8, Ink(color, opa))]
  {
    if x >= LCD_H_RES || y >= LCD_V_RES {
      return;
    }
    OffsetIsPageColumn(x, y);
    var i := Offset(x, y);
    buf[i] := Plot(buf[i], y % 8, color == 0 && LV_OPA_TRANSP != opa);
  }

  /** With the corrected guard, plotting two different on-panel pixels never touches the same bit. */
  lemma CheckedPixelsDisjoint(x: nat, y: nat, x': nat, y': nat)
    requires x < LCD_H_RES && y < LCD_V_RES && x' < LCD_H_RES && y' < LCD_V_RES
    requires x != x' || y != y'
    ensures Offset(x, y) != Offset(x', y') || y % 8 != y' % 8
  {
    if Offset(x, y) == Offset(x', y') && y % 8 == y' % 8 {
      OffsetInjective(x, y, x', y');
    }
  }
}
