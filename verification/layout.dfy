/** `drawReadings`: clear the 128x128 panel and print the four lines, each
    centred horizontally, stacked as one vertically centred block. A redraw is
    modelled as the list of drawing commands it issues. */
module Layout {
  import opened Numeric
  import opened Readout

  const SCREEN_WIDTH: int := 128
  const SCREEN_HEIGHT: int := 128

  /** Glyph cell at text size 2. */
  const CHAR_WIDTH: int := 12
  const CHAR_HEIGHT: int := 16
  const LINE_GAP: int := 8

  /** Four lines and three gaps. */
  const BLOCK_HEIGHT: int := 4 * CHAR_HEIGHT + 3 * LINE_GAP
  const Y_START: int := CDiv(SCREEN_HEIGHT - BLOCK_HEIGHT, 2)

  /** 16-bit 5-6-5 colours. */
  type Color = c: int | 0 <= c < 0x1_0000
  const COLOR_BLACK: Color := 0x0000
  const COLOR_RED: Color := 0xF800
  const COLOR_BLUE: Color := 0x001F

  datatype DrawCmd =
    | FillScreen(color: Color)
    | Print(x: I16, y: I16, color: Color, text: string)

  /** Lines 0 and 1 (temperature) are red, lines 2 and 3 (humidity) blue. */
  function LineColor(i: int): Color {
    if i < 2 then COLOR_RED else COLOR_BLUE
  }

  /** The cursor for line `i`: `(SCREEN_WIDTH - width) / 2 + offsetX` with C
      division, and `yStart + i * (CHAR_HEIGHT + 8) + offsetY`, each stored
      into an int16_t. */
  function PrintLine(lines: Lines, i: int, offsetX: I16, offsetY: I16): DrawCmd
    requires 0 <= i < 4
  {
    var width := |lines[i]| * CHAR_WIDTH;
    Print(ToI16(CDiv(SCREEN_WIDTH - width, 2) + offsetX),
          ToI16(Y_START + i * (CHAR_HEIGHT + LINE_GAP) + offsetY),
          LineColor(i),
          lines[i])
  }

  /** The commands one call of `drawReadings(offsetX, offsetY)` issues. For
      the offsets the sketch uses (each in -1..1) every line is exactly centred
      about the shifted axis and the lines sit 24 px apart from y = 20. */
  function DrawReadings(lines: Lines, offsetX: I16, offsetY: I16): (cmds: seq<DrawCmd>)
    ensures |cmds| == 5
    ensures cmds[0] == FillScreen(COLOR_BLACK)
    ensures forall i | 1 <= i < 5 :: cmds[i].Print?
    ensures forall i | 1 <= i < 5 :: cmds[i].text == lines[i - 1]
    ensures forall i | 1 <= i < 5 :: cmds[i].color == (if i <= 2 then COLOR_RED else COLOR_BLUE)
    ensures -1 <= offsetX <= 1 && -1 <= offsetY <= 1 ==>
      forall i | 1 <= i < 5 ::
        && 2 * (cmds[i].x - offsetX) + CHAR_WIDTH * |lines[i - 1]| == SCREEN_WIDTH
        && cmds[i].y == 20 + 24 * (i - 1) + offsetY
  {
    assert Y_START == 20;
    forall i | 0 <= i < 4 {
      CentringDivisionExact(|lines[i]|);
    }
    [FillScreen(COLOR_BLACK)] + seq(4, i requires 0 <= i < 4 => PrintLine(lines, i, offsetX, offsetY))
  }

  /** The block of four lines is vertically centred: 88 px tall from y = 20. */
  lemma BlockCentred()
    ensures BLOCK_HEIGHT == 88 && Y_START == 20
    ensures Y_START + BLOCK_HEIGHT + Y_START == SCREEN_HEIGHT
  {
  }

  /** Every line width is a multiple of 12 and 128 is even, so the centring
      division is always exact: truncation toward zero never differs from
      flooring, even for lines wider than the panel. */
  lemma CentringDivisionExact(len: nat)
    ensures CDiv(SCREEN_WIDTH - len * CHAR_WIDTH, 2) == (SCREEN_WIDTH - len * CHAR_WIDTH) / 2
    ensures 2 * CDiv(SCREEN_WIDTH - len * CHAR_WIDTH, 2) + len * CHAR_WIDTH == SCREEN_WIDTH
  {
    assert SCREEN_WIDTH - len * CHAR_WIDTH == 2 * (64 - 6 * len);
    CDivOfDouble(64 - 6 * len);
  }

  predicate OnScreen(cmd: DrawCmd, width: int, height: int) {
    cmd.Print? && 0 <= cmd.x && cmd.x + width <= SCREEN_WIDTH
    && 0 <= cmd.y && cmd.y + height <= SCREEN_HEIGHT
  }

  /** With an anti-burn-in offset, a line is drawn wholly on the panel exactly
      when it has at most ten characters; longer lines extend past the panel
      edges. */
  lemma LineVisibleIff(lines: Lines, offsetX: I16, offsetY: I16, i: int)
    requires -1 <= offsetX <= 1 && -1 <= offsetY <= 1
    requires 0 <= i < 4
    ensures OnScreen(DrawReadings(lines, offsetX, offsetY)[i + 1], |lines[i]| * CHAR_WIDTH, CHAR_HEIGHT)
        <==> |lines[i]| <= 10
  {
    var cmd := DrawReadings(lines, offsetX, offsetY)[i + 1];
    assert 2 * (cmd.x - offsetX) + CHAR_WIDTH * |lines[i]| == SCREEN_WIDTH;
    assert cmd.y == 20 + 24 * i + offsetY;
  }
}
