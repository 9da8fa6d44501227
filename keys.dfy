/**
 * Key codes of ushell.h. Single-byte keys are their byte value; a terminal escape
 * sequence is packed into one 32-bit code with ESC in the top byte, then the
 * following bytes, and zero in every unused low byte.
 */
module Keys {
  const KEY_ESC: bv8 := 0x1B
  const KEY_BACKSPACE: bv8 := 0x7F
  /** KEY_ENTER in the EMBEDDED build (carriage return). */
  const KEY_ENTER_EMBEDDED: bv8 := 0x0D
  /** KEY_ENTER in every other build (line feed). */
  const KEY_ENTER: bv8 := 0x0A
  const KEY_CTRL_C: bv8 := 0x03
  const KEY_SPACEBAR: bv8 := 0x20
  const KEY_TAB: bv8 := 0x09

  /** KEY_ESCAPE(b, c): ESC, b, c packed from the top byte down, low byte zero. */
  function KeyEscape(b: bv8, c: bv8): (r: bv32)
    ensures r >> 24 == KEY_ESC as bv32
    ensures (r >> 16) & 0xFF == b as bv32
    ensures (r >> 8) & 0xFF == c as bv32
    ensures r & 0xFF == 0
  {
    (KEY_ESC as bv32 << 24) | (b as bv32 << 16) | (c as bv32 << 8)
  }

  /** KEY_ESCAPE4(b, c, d): ESC, b, c, d packed from the top byte down. */
  function KeyEscape4(b: bv8, c: bv8, d: bv8): (r: bv32)
    ensures r >> 24 == KEY_ESC as bv32
    ensures (r >> 16) & 0xFF == b as bv32
    ensures (r >> 8) & 0xFF == c as bv32
    ensures r & 0xFF == d as bv32
  {
    (KEY_ESC as bv32 << 24) | (b as bv32 << 16) | (c as bv32 << 8) | d as bv32
  }

  const KEY_UP: bv32 := KeyEscape(0x5B, 0x41)  // '[' 'A'
  const KEY_DOWN: bv32 := KeyEscape(0x5B, 0x42)  // '[' 'B'
  const KEY_RIGHT: bv32 := KeyEscape(0x5B, 0x43)  // '[' 'C'
  const KEY_LEFT: bv32 := KeyEscape(0x5B, 0x44)  // '[' 'D'
  const KEY_PAGEUP: bv32 := KeyEscape(0x5B, 0x35)  // '[' '5'
  const KEY_PAGEDOWN: bv32 := KeyEscape(0x5B, 0x36)  // '[' '6'
  const KEY_SHIFT_TAB: bv32 := KeyEscape(0x5B, 0x5A)  // '[' 'Z'
  /** KEY_POS1 and KEY_END outside the EMBEDDED build. */
  const KEY_POS1: bv32 := KeyEscape(0x5B, 0x48)  // '[' 'H'
  const KEY_END: bv32 := KeyEscape(0x5B, 0x46)  // '[' 'F'
  /** KEY_DEL as written: ESC '3' '~', without the '[' of the control sequence introducer. */
  const KEY_DEL: bv32 := KeyEscape(0x33, 0x7E)  // '3' '~'

  /** The three-byte form is the four-byte form with a zero last byte. */
  lemma EscapeIsEscape4WithZero(b: bv8, c: bv8)
    ensures KeyEscape4(b, c, 0) == KeyEscape(b, c)
  {
  }

  /** For byte arguments the packing is injective. */
  lemma Escape4Injective(b: bv8, c: bv8, d: bv8, b': bv8, c': bv8, d': bv8)
    ensures KeyEscape4(b, c, d) == KeyEscape4(b', c', d') <==> b == b' && c == c' && d == d'
  {
  }

  /**
   * Every packed code lies in 0x1B000000..0x1BFFFFFF: it fits the uint32_t of a keystroke
   * handler (and even a signed 32-bit int, so the shifts never overflow), and it never
   * equals a single-byte key.
   */
  lemma Escape4Range(b: bv8, c: bv8, d: bv8, key: bv8)
    ensures 0x1B00_0000 <= KeyEscape4(b, c, d) <= 0x1BFF_FFFF
    ensures KeyEscape4(b, c, d) != key as bv32
  {
  }

  /** No escape code collides with a key the shell reads as a single byte. */
  lemma EscapeNotSingleKey(b: bv8, c: bv8)
    ensures var r := KeyEscape(b, c);
      r != KEY_BACKSPACE as bv32 && r != KEY_ENTER as bv32 && r != KEY_ENTER_EMBEDDED as bv32 &&
      r != KEY_CTRL_C as bv32 && r != KEY_TAB as bv32 && r != KEY_SPACEBAR as bv32 && r != KEY_ESC as bv32
  {
  }

  /**
   * The cursor and paging keys all start with ESC '[' (the control sequence introducer,
   * section 5.4 of ECMA-48) and are pairwise distinct.
   */
  lemma CursorKeysDistinct()
    ensures forall k <- [KEY_UP, KEY_DOWN, KEY_RIGHT, KEY_LEFT, KEY_PAGEUP, KEY_PAGEDOWN, KEY_SHIFT_TAB, KEY_POS1, KEY_END] ::
      k >> 24 == KEY_ESC as bv32 && (k >> 16) & 0xFF == 0x5B
    ensures var ks := [KEY_UP, KEY_DOWN, KEY_RIGHT, KEY_LEFT, KEY_PAGEUP, KEY_PAGEDOWN, KEY_SHIFT_TAB, KEY_POS1, KEY_END];
      forall i, j :: 0 <= i < j < |ks| ==> ks[i] != ks[j]
  {
  }

  /** KEY_DEL lacks the '[': it is not the code ESC '[' '3' '~' the Delete key sends. */
  lemma DelLacksIntroducer()
    ensures (KEY_DEL >> 16) & 0xFF == 0x33
    ensures KEY_DEL != KeyEscape4(0x5B, 0x33, 0x7E)  // ESC '[' '3' '~'
  {
  }
}
