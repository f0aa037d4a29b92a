/**
 * The compositor (`renderFrame` and its helpers): one frame state becomes a
 * list of drawing calls on the framebuffer, laid out in whole multiples of
 * the scale, and the framebuffer is then quantised to palette slots.
 *
 * `FrameOps` is the scene as a list of primitive calls; `RenderFrame`
 * performs those calls through the `Renderer` and is proved to leave every
 * pixel as `Shade` of that list says, whatever the wrap cache held.
 */
module Compose {
  import opened Arith
  import opened Pixels
  import opened Palette
  import opened Glyphs
  import opened Raster
  import opened Wrap
  import opened Frames

  // ----- COLORS: the palette slot of each role -----

  const BG: nat := 0
  const PANEL: nat := 1
  const INPUT: nat := 2
  const BORDER: nat := 3    // declared, never painted
  const ACCENT: nat := 4
  const SHADOW: nat := 5    // declared, never painted
  const TEXT: nat := 6
  const TEXT_DIM: nat := 7
  const USER_BUBBLE: nat := 8
  const AI_BUBBLE: nat := 9
  const WHITE: nat := 10
  const SEND: nat := 11

  /** The colour key of a colour triple. */
  function Key(c: Rgb): int {
    RgbToKey(c.r, c.g, c.b)
  }

  /** The palette's colours as triples, slot by slot. */
  function PaletteColors(): seq<Rgb> {
    seq(|PALETTE|, slot requires 0 <= slot < |PALETTE| => Color(slot))
  }

  /** A colour that occupies one of the palette's slots. */
  predicate InPalette(c: Rgb) {
    c in PaletteColors()
  }

  /** `c(COLORS.x)`: the triple of a palette slot, which quantises back to that slot. */
  function Color(slot: nat): Rgb
    requires slot < |PALETTE|
  {
    KeyToRgb(PALETTE[slot])
  }

  /** The triple of a palette slot is a palette colour, and it quantises back to that slot. */
  lemma ColorSlot(slot: nat)
    requires slot < |PALETTE|
    ensures InPalette(Color(slot))
    ensures SlotOf(Key(Color(slot))) == slot
  {
    PaletteShape();
    KeyRoundTrip(PALETTE[slot]);
    SlotOfPalette(slot);
    assert PaletteColors()[slot] == Color(slot);
  }

  /** A palette colour is quantised to the slot that holds exactly that colour. */
  lemma QuantizeExact(c: Rgb)
    requires InPalette(c)
    ensures Color(SlotOf(Key(c))) == c
  {
    var slot :| 0 <= slot < |PALETTE| && PaletteColors()[slot] == c;
    ColorSlot(slot);
  }

  // ----- Layout: every length is a whole multiple of the scale -----

  function Margin(scale: int): int { 12 * scale }
  function InputH(scale: int): int { 42 * scale }
  function BubbleMaxW(width: int, scale: int): int { width - Margin(scale) * 2 }
  /** The target width of `wrapText` for both bubbles. */
  function WrapWidth(width: int, scale: int): int { BubbleMaxW(width, scale) - 30 * scale }
  function ChatTop(scale: int): int { Margin(scale) + 22 * scale }
  function InputY(height: int, scale: int): int { height - Margin(scale) - InputH(scale) }
  function ButtonW(scale: int): int { 56 * scale }
  function ButtonH(scale: int): int { 26 * scale }
  function ButtonX(width: int, scale: int): int { width - Margin(scale) - 8 * scale - ButtonW(scale) }

  /** `inputY + (inputH - btnH) / 2`. */
  function ButtonY(height: int, scale: int): int {
    InputY(height, scale) + (InputH(scale) - ButtonH(scale)) / 2
  }

  /**
   * The halving in `ButtonY` is exact for every integer scale, so the
   * floating-point quotient `(inputH - btnH) / 2` in `renderFrame` is this integer.
   */
  lemma ButtonYExact(height: int, scale: int)
    ensures (InputH(scale) - ButtonH(scale)) / 2 * 2 == InputH(scale) - ButtonH(scale)
    ensures ButtonY(height, scale) == InputY(height, scale) + 8 * scale
  {
    assert InputH(scale) - ButtonH(scale) == 2 * (8 * scale);
  }

  // ----- measureLines -----

  /** The height of `n` text rows with a gap of 2 * scale between consecutive rows. */
  function TextHeight(font: Font, n: nat, scale: int): int {
    n * (font.h * scale + scale * 2) - scale * 2
  }

  /** The widest of the lines by the font's measure, and 0 for no lines. */
  function Widest(font: Font, lines: seq<string>, scale: int): int
    decreases |lines|
  {
    if lines == [] then 0
    else
      var n := |lines| - 1;
      Max(Widest(font, lines[..n], scale), font.textWidth(lines[n], scale, 1))
  }

  /** `Widest` is the maximum of 0 and the line widths: it bounds each and is 0 or one of them. */
  lemma {:induction false} WidestIsMax(font: Font, lines: seq<string>, scale: int)
    ensures var w := Widest(font, lines, scale);
      && w >= 0
      && (forall i :: 0 <= i < |lines| ==> font.textWidth(lines[i], scale, 1) <= w)
      && (w == 0 || exists i :: 0 <= i < |lines| && font.textWidth(lines[i], scale, 1) == w)
    decreases |lines|
  {
    if lines != [] {
      var n := |lines| - 1;
      WidestIsMax(font, lines[..n], scale);
      assert forall i :: 0 <= i < n ==> lines[..n][i] == lines[i];
    }
  }

  /** `measureLines`: the height of the text block and the running maximum of the line widths. */
  method MeasureLines(font: Font, lines: seq<string>, scale: int) returns (textH: int, maxTextW: int)
    ensures textH == TextHeight(font, |lines|, scale)
    ensures maxTextW == Widest(font, lines, scale)
  {
    var lineGap := scale * 2;
    textH := |lines| * (font.h * scale + lineGap) - lineGap;
    maxTextW := 0;
    for i := 0 to |lines|
      invariant maxTextW == Widest(font, lines[..i], scale)
    {
      assert lines[..i + 1][..i] == lines[..i];
      maxTextW := Max(maxTextW, font.textWidth(lines[i], scale, 1));
    }
    assert lines[..|lines|] == lines;
  }

  /** The rows of a text block, the first at `y` and each next one `step` lower. */
  function LineOps(x: int, y: int, lines: seq<string>, scale: int, c: Rgb, step: int): seq<Op>
    decreases |lines|
  {
    if lines == [] then []
    else [Text(x, y, lines[0], scale, c, 1)] + LineOps(x, y + step, lines[1..], scale, c, step)
  }

  /** Row `i` of a text block is line `i`, drawn `i` steps below the first row. */
  lemma {:induction false} LineOpsAt(x: int, y: int, lines: seq<string>, scale: int, c: Rgb, step: int)
    ensures var ops := LineOps(x, y, lines, scale, c, step);
      && |ops| == |lines|
      && forall i :: 0 <= i < |lines| ==> ops[i] == Text(x, y + i * step, lines[i], scale, c, 1)
    decreases |lines|
  {
    if lines != [] {
      LineOpsAt(x, y + step, lines[1..], scale, c, step);
      forall i | 1 <= i < |lines|
        ensures y + step + (i - 1) * step == y + i * step
      {
        assert (i - 1) * step + step == i * step;
      }
    }
  }

  // ----- drawBubble -----

  function BubbleW(font: Font, lines: seq<string>, scale: int, maxWidth: int): int {
    Min(maxWidth, Widest(font, lines, scale) + scale * 5 * 2)
  }

  function BubbleH(font: Font, lines: seq<string>, scale: int): int {
    TextHeight(font, |lines|, scale) + scale * 5 * 2
  }

  /** The calls of `drawBubble`: the rounded box, then each line inset by the padding. */
  function BubbleOps(font: Font, x: int, y: int, lines: seq<string>, scale: int, color: Rgb, textColor: Rgb, maxWidth: int): seq<Op> {
    var pad := scale * 5;
    [Round(x, y, BubbleW(font, lines, scale, maxWidth), BubbleH(font, lines, scale), scale * 4, color)]
      + LineOps(x + pad, y + pad, lines, scale, textColor, font.h * scale + scale * 2)
  }

  /**
   * The framebuffer shows the calls `ops` performed on the snapshot `start`
   * of its bytes.
   */
  ghost predicate Shows(r: Renderer, font: Font, ops: seq<Op>, start: seq<byte>)
    reads r.data
  {
    && r.Valid()
    && |start| == r.width * r.height * 4
    && forall x, y :: r.InCanvas(x, y) ==>
         r.Pixel(x, y) == Shade(font, ops, x, y, PixelIn(start, r.width, r.height, x, y))
  }

  /** Performs one more primitive call. */
  method Paint(r: Renderer, font: Font, op: Op, ghost done: seq<Op>, ghost start: seq<byte>)
    requires Shows(r, font, done, start)
    modifies r.data
    ensures Shows(r, font, done + [op], start)
  {
    r.Draw(font, op);
    assert (done + [op])[..|done|] == done;
  }

  /** `drawBubble`: paints the bubble and its text, and returns the bubble's size. */
  method DrawBubble(r: Renderer, font: Font, x: int, y: int, lines: seq<string>, scale: int,
                    color: Rgb, textColor: Rgb, maxWidth: int, ghost done: seq<Op>, ghost start: seq<byte>)
      returns (w: int, h: int)
    requires Shows(r, font, done, start)
    modifies r.data
    ensures Shows(r, font, done + BubbleOps(font, x, y, lines, scale, color, textColor, maxWidth), start)
    ensures w == BubbleW(font, lines, scale, maxWidth) && h == BubbleH(font, lines, scale)
  {
    var lineGap := scale * 2;
    var textH, maxTextW := MeasureLines(font, lines, scale);
    var pad := scale * 5;
    var bubbleW := Min(maxWidth, maxTextW + pad * 2);
    var bubbleH := textH + pad * 2;
    var box := Round(x, y, bubbleW, bubbleH, scale * 4, color);
    Paint(r, font, box, done, start);
    ghost var painted := done + [box];
    var step := font.h * scale + lineGap;
    var ty := y + pad;
    var i := 0;
    while i < |lines|
      invariant 0 <= i <= |lines|
      invariant Shows(r, font, painted, start)
      invariant painted + LineOps(x + pad, ty, lines[i..], scale, textColor, step)
             == done + BubbleOps(font, x, y, lines, scale, color, textColor, maxWidth)
    {
      var row := Text(x + pad, ty, lines[i], scale, textColor, 1);
      Paint(r, font, row, painted, start);
      assert lines[i..][1..] == lines[i + 1..];
      assert LineOps(x + pad, ty, lines[i..], scale, textColor, step)
          == [row] + LineOps(x + pad, ty + step, lines[i + 1..], scale, textColor, step);
      painted := painted + [row];
      ty := ty + step;
      i := i + 1;
    }
    assert lines[i..] == [];
    assert painted == done + BubbleOps(font, x, y, lines, scale, color, textColor, maxWidth);
    w, h := bubbleW, bubbleH;
  }

  // ----- the wrap cache -----

  /**
   * The memo of wrapped lines shared by the frames of one animation, keyed by
   * a two-character tag ("u:" or "a:") followed by the wrapped text.
   */
  class WrapCache {
    var entries: map<string, seq<string>>

    constructor ()
      ensures entries == map[]
    {
      entries := map[];
    }

    /** Every entry holds what `wrapText` gives for the text after its tag. */
    ghost predicate Coherent(font: Font, maxWidthPx: int, scale: int)
      reads this
    {
      forall key :: key in entries ==>
        |key| >= 2 && entries[key] == WrapLines(font, key[2..], maxWidthPx, scale, 1)
    }

    /** `get`, and on a miss `wrapText` followed by `set`. */
    method Lines(font: Font, tag: string, text: string, maxWidthPx: int, scale: int) returns (lines: seq<string>)
      requires |tag| == 2 && Coherent(font, maxWidthPx, scale)
      modifies this
      ensures lines == WrapLines(font, text, maxWidthPx, scale, 1)
      ensures entries == old(entries)[tag + text := lines]
      ensures Coherent(font, maxWidthPx, scale)
    {
      var key := tag + text;
      assert key[2..] == text;
      if key in entries {
        lines := entries[key];
      } else {
        lines := WrapText(font, text, maxWidthPx, scale, 1);
        entries := entries[key := lines];
      }
    }

    /** `get(key) || wrapText(...)`: a lookup that never inserts. */
    method Peek(font: Font, tag: string, text: string, maxWidthPx: int, scale: int) returns (lines: seq<string>)
      requires |tag| == 2 && Coherent(font, maxWidthPx, scale)
      ensures lines == WrapLines(font, text, maxWidthPx, scale, 1)
    {
      var key := tag + text;
      assert key[2..] == text;
      if key in entries {
        lines := entries[key];
      } else {
        lines := WrapText(font, text, maxWidthPx, scale, 1);
      }
    }
  }

  /** The user's key and the reply's key never coincide, whatever the two texts. */
  lemma TagsNeverCollide(user: string, reply: string)
    ensures "u:" + user != "a:" + reply
    ensures ("u:" + user)[2..] == user && ("a:" + reply)[2..] == reply
  {
    assert ("u:" + user)[0] == 'u';
    assert ("a:" + reply)[0] == 'a';
  }

  // ----- renderFrame, section by section -----

  /** Clear to the background and paint the chat panel. */
  function PanelOps(width: int, height: int, scale: int): seq<Op> {
    var margin := Margin(scale);
    [Fill(Color(BG)),
     Round(margin, margin, width - margin * 2, height - margin * 2, 10 * scale, Color(PANEL))]
  }

  /** The "USER" caption and the right-aligned user bubble at the top of the chat. */
  function UserOps(font: Font, width: int, scale: int, lines: seq<string>): seq<Op> {
    var margin := Margin(scale);
    var maxW := BubbleMaxW(width, scale);
    var bubbleW := BubbleW(font, lines, scale, maxW);
    var bubbleX := width - margin - 10 * scale - bubbleW;
    var labelW := font.textWidth("USER", scale, 1);
    [Text(bubbleX + bubbleW - labelW, ChatTop(scale) - 10 * scale - font.h * scale, "USER", scale, Color(TEXT_DIM), 1)]
      + BubbleOps(font, bubbleX, ChatTop(scale), lines, scale, Color(USER_BUBBLE), Color(WHITE), maxW)
  }

  /** The "ASSISTANT" caption and the left-aligned reply bubble whose top is `top`. */
  function ReplyOps(font: Font, width: int, scale: int, top: int, lines: seq<string>): seq<Op> {
    var left := Margin(scale) + 10 * scale;
    [Text(left, top - 10 * scale - font.h * scale, "ASSISTANT", scale, Color(TEXT_DIM), 1)]
      + BubbleOps(font, left, top, lines, scale, Color(AI_BUBBLE), Color(TEXT), BubbleMaxW(width, scale))
  }

  /** The input bar, the send button (accent while pressed) and the text being typed. */
  function InputOps(width: int, height: int, scale: int, st: FrameState): seq<Op> {
    var margin, inputY := Margin(scale), InputY(height, scale);
    var btnX, btnY := ButtonX(width, scale), ButtonY(height, scale);
    [Round(margin + 8 * scale, inputY, width - margin * 2 - 16 * scale, InputH(scale), 8 * scale, Color(INPUT)),
     Round(btnX, btnY, ButtonW(scale), ButtonH(scale), 6 * scale, Color(if st.sendPressed then ACCENT else SEND)),
     Text(btnX + 8 * scale, btnY + 7 * scale, "SEND", scale, Color(WHITE), 1)]
      + (if st.userInput != "" then [Text(margin + 16 * scale, inputY + 12 * scale, st.userInput, scale, Color(TEXT), 1)] else [])
  }

  /** Whether the carets are visible: the first five frames of every ten. */
  predicate BlinkOn(st: FrameState) {
    st.frameIndex % 10 < 5
  }

  /** Whether the reply caret is drawn: the reply is visible and still being typed. */
  predicate ReplyCaretShown(st: FrameState, roastDisplay: string) {
    BlinkOn(st) && st.showUserBubble && st.aiText != "" && st.aiText != roastDisplay
  }

  /** The caret after the typed input, while the message has not been sent. */
  function InputCaretOps(font: Font, height: int, scale: int, st: FrameState): seq<Op> {
    if BlinkOn(st) && !st.showUserBubble then
      var caretX := Margin(scale) + 16 * scale + font.textWidth(st.userInput, scale, 1) + 2 * scale;
      [Rect(caretX, InputY(height, scale) + 12 * scale, 2 * scale, font.h * scale, Color(TEXT))]
    else []
  }

  /** The caret after the last reply line, in the bottom row of the reply bubble. */
  function ReplyCaretOps(font: Font, scale: int, st: FrameState, roastDisplay: string,
                         lines: seq<string>, top: int, bubbleH: int): seq<Op> {
    if ReplyCaretShown(st, roastDisplay) then
      var lastLine := if lines == [] then "" else lines[|lines| - 1];
      var caretX := Margin(scale) + 10 * scale + 5 * scale + font.textWidth(lastLine, scale, 1) + 2 * scale;
      [Rect(caretX, top + bubbleH - (font.h * scale + 5 * scale), 2 * scale, font.h * scale, Color(TEXT_DIM))]
    else []
  }

  /** The top of the reply bubble: below the user bubble when that is shown. */
  function ReplyTop(font: Font, width: int, scale: int, st: FrameState, msgDisplay: string): int {
    var userLines := WrapLines(font, msgDisplay, WrapWidth(width, scale), scale, 1);
    ChatTop(scale) + (if st.showUserBubble then BubbleH(font, userLines, scale) + 8 * scale else 0)
  }

  /** The chat area: the user bubble once sent, then the reply bubble while there is reply text. */
  function ChatOps(font: Font, width: int, scale: int, st: FrameState, msgDisplay: string): seq<Op> {
    var wrapW := WrapWidth(width, scale);
    (if st.showUserBubble then UserOps(font, width, scale, WrapLines(font, msgDisplay, wrapW, scale, 1)) else [])
      + (if st.aiText != "" then
           ReplyOps(font, width, scale, ReplyTop(font, width, scale, st, msgDisplay), WrapLines(font, st.aiText, wrapW, scale, 1))
         else [])
  }

  /** Both carets, the reply caret placed by the reply bubble. */
  function CaretOps(font: Font, width: int, height: int, scale: int, st: FrameState,
                    msgDisplay: string, roastDisplay: string): seq<Op> {
    var replyLines := WrapLines(font, st.aiText, WrapWidth(width, scale), scale, 1);
    InputCaretOps(font, height, scale, st)
      + ReplyCaretOps(font, scale, st, roastDisplay, replyLines,
                      ReplyTop(font, width, scale, st, msgDisplay), BubbleH(font, replyLines, scale))
  }

  /** Every primitive call `renderFrame` makes for the frame state `st`, in order. */
  function FrameOps(font: Font, width: int, height: int, scale: int, st: FrameState,
                    msgDisplay: string, roastDisplay: string): seq<Op> {
    PanelOps(width, height, scale)
      + ChatOps(font, width, scale, st, msgDisplay)
      + InputOps(width, height, scale, st)
      + CaretOps(font, width, height, scale, st, msgDisplay, roastDisplay)
  }

  /** The colour of pixel (x, y) once the calls `ops` are done on a zeroed canvas. */
  function FramePixel(font: Font, ops: seq<Op>, x: int, y: int): Rgba {
    Shade(font, ops, x, y, Rgba(0, 0, 0, 0))
  }

  // ----- renderFrame -----

  /** The "USER" caption and the user bubble holding `lines`; returns the cursor below the bubble. */
  method DrawUserBubble(r: Renderer, font: Font, scale: int, lines: seq<string>,
                        ghost done: seq<Op>, ghost start: seq<byte>) returns (yCursor: int)
    requires Shows(r, font, done, start)
    modifies r.data
    ensures Shows(r, font, done + UserOps(font, r.width, scale, lines), start)
    ensures yCursor == ChatTop(scale) + BubbleH(font, lines, scale) + 8 * scale
  {
    var margin := 12 * scale;
    var bubbleMaxW := r.width - margin * 2;
    var chatTop := margin + 22 * scale;
    var textH, maxTextW := MeasureLines(font, lines, scale);
    var pad := scale * 5;
    var bubbleW := Min(bubbleMaxW, maxTextW + pad * 2);
    var bubbleH := textH + pad * 2;
    var bubbleX := r.width - margin - 10 * scale - bubbleW;
    var labelW := font.textWidth("USER", scale, 1);
    var caption := Text(bubbleX + bubbleW - labelW, chatTop - 10 * scale - font.h * scale, "USER", scale, Color(TEXT_DIM), 1);
    Paint(r, font, caption, done, start);
    ghost var painted := done + [caption];
    var _, _ := DrawBubble(r, font, bubbleX, chatTop, lines, scale, Color(USER_BUBBLE), Color(WHITE), bubbleMaxW, painted, start);
    assert painted + BubbleOps(font, bubbleX, chatTop, lines, scale, Color(USER_BUBBLE), Color(WHITE), bubbleMaxW)
        == done + UserOps(font, r.width, scale, lines);
    yCursor := chatTop + bubbleH + 8 * scale;
  }

  /** The "ASSISTANT" caption and the reply bubble holding `lines` at `yCursor`; returns the bubble's height. */
  method DrawReplyBubble(r: Renderer, font: Font, scale: int, lines: seq<string>, yCursor: int,
                         ghost done: seq<Op>, ghost start: seq<byte>) returns (bubbleH: int)
    requires Shows(r, font, done, start)
    modifies r.data
    ensures Shows(r, font, done + ReplyOps(font, r.width, scale, yCursor, lines), start)
    ensures bubbleH == BubbleH(font, lines, scale)
  {
    var margin := 12 * scale;
    var bubbleMaxW := r.width - margin * 2;
    var caption := Text(margin + 10 * scale, yCursor - 10 * scale - font.h * scale, "ASSISTANT", scale, Color(TEXT_DIM), 1);
    Paint(r, font, caption, done, start);
    ghost var painted := done + [caption];
    var _, h := DrawBubble(r, font, margin + 10 * scale, yCursor, lines, scale, Color(AI_BUBBLE), Color(TEXT), bubbleMaxW, painted, start);
    assert painted + BubbleOps(font, margin + 10 * scale, yCursor, lines, scale, Color(AI_BUBBLE), Color(TEXT), bubbleMaxW)
        == done + ReplyOps(font, r.width, scale, yCursor, lines);
    bubbleH := h;
  }

  /** The input bar, the send button with its caption, and the typed input. */
  method DrawInputBar(r: Renderer, font: Font, st: FrameState, scale: int, ghost done: seq<Op>, ghost start: seq<byte>)
    requires Shows(r, font, done, start)
    modifies r.data
    ensures Shows(r, font, done + InputOps(r.width, r.height, scale, st), start)
  {
    var margin := 12 * scale;
    var inputH := 42 * scale;
    var inputY := r.height - margin - inputH;
    var bar := Round(margin + 8 * scale, inputY, r.width - margin * 2 - 16 * scale, inputH, 8 * scale, Color(INPUT));
    Paint(r, font, bar, done, start);
    ghost var painted := done + [bar];
    var btnW := 56 * scale;
    var btnH := 26 * scale;
    var btnX := r.width - margin - 8 * scale - btnW;
    var btnY := inputY + (inputH - btnH) / 2;
    var btnColor := if st.sendPressed then ACCENT else SEND;
    var button := Round(btnX, btnY, btnW, btnH, 6 * scale, Color(btnColor));
    Paint(r, font, button, painted, start);
    painted := painted + [button];
    var send := Text(btnX + 8 * scale, btnY + 7 * scale, "SEND", scale, Color(WHITE), 1);
    Paint(r, font, send, painted, start);
    painted := painted + [send];
    var inputText := st.userInput;
    if inputText != "" {
      var typed := Text(margin + 16 * scale, inputY + 12 * scale, inputText, scale, Color(TEXT), 1);
      Paint(r, font, typed, painted, start);
      painted := painted + [typed];
    }
    assert painted == done + InputOps(r.width, r.height, scale, st);
  }

  /**
   * The chat area, with the wrapped lines looked up in (or added to) the
   * cache; returns the reply bubble's top and height.
   */
  method DrawChat(r: Renderer, font: Font, st: FrameState, scale: int, msgDisplay: string, cache: WrapCache,
                  ghost done: seq<Op>, ghost start: seq<byte>) returns (aiBubbleTop: int, aiBubbleH: int)
    requires Shows(r, font, done, start)
    requires cache.Coherent(font, WrapWidth(r.width, scale), scale)
    modifies r.data, cache
    ensures Shows(r, font, done + ChatOps(font, r.width, scale, st, msgDisplay), start)
    ensures st.aiText != "" ==>
      && aiBubbleTop == ReplyTop(font, r.width, scale, st, msgDisplay)
      && aiBubbleH == BubbleH(font, WrapLines(font, st.aiText, WrapWidth(r.width, scale), scale, 1), scale)
    ensures cache.Coherent(font, WrapWidth(r.width, scale), scale)
    ensures old(cache.entries).Keys <= cache.entries.Keys
    ensures cache.entries.Keys <= old(cache.entries).Keys + {"u:" + msgDisplay, "a:" + st.aiText}
  {
    var margin := 12 * scale;
    var wrapW := r.width - margin * 2 - 30 * scale;
    assert wrapW == WrapWidth(r.width, scale);
    var chatTop := margin + 22 * scale;
    var yCursor := chatTop;
    aiBubbleTop := yCursor;
    aiBubbleH := 0;

    ghost var userPart: seq<Op> := [];
    if st.showUserBubble {
      var lines := cache.Lines(font, "u:", msgDisplay, wrapW, scale);
      yCursor := DrawUserBubble(r, font, scale, lines, done, start);
      userPart := UserOps(font, r.width, scale, lines);
    } else {
      assert done + userPart == done;
    }
    ghost var wrapped := WrapLines(font, msgDisplay, WrapWidth(r.width, scale), scale, 1);
    assert userPart == if st.showUserBubble then UserOps(font, r.width, scale, wrapped) else [];
    assert yCursor == ReplyTop(font, r.width, scale, st, msgDisplay);
    ghost var painted := done + userPart;

    ghost var replyPart: seq<Op> := [];
    if st.aiText != "" {
      var lines := cache.Lines(font, "a:", st.aiText, wrapW, scale);
      aiBubbleTop := yCursor;
      aiBubbleH := DrawReplyBubble(r, font, scale, lines, yCursor, painted, start);
      replyPart := ReplyOps(font, r.width, scale, yCursor, lines);
      yCursor := yCursor + aiBubbleH + 8 * scale;
    } else {
      assert painted + replyPart == painted;
    }
    assert userPart + replyPart == ChatOps(font, r.width, scale, st, msgDisplay);
    Regroup(done, userPart, replyPart);
  }

  /**
   * The blinking carets; `top` and `bubbleH` place the reply bubble. The
   * cache is only read here.
   */
  method DrawCarets(r: Renderer, font: Font, st: FrameState, scale: int, msgDisplay: string, roastDisplay: string,
                    cache: WrapCache, top: int, bubbleH: int, ghost done: seq<Op>, ghost start: seq<byte>)
    requires Shows(r, font, done, start)
    requires cache.Coherent(font, WrapWidth(r.width, scale), scale)
    requires st.aiText != "" ==>
      && top == ReplyTop(font, r.width, scale, st, msgDisplay)
      && bubbleH == BubbleH(font, WrapLines(font, st.aiText, WrapWidth(r.width, scale), scale, 1), scale)
    modifies r.data
    ensures Shows(r, font, done + CaretOps(font, r.width, r.height, scale, st, msgDisplay, roastDisplay), start)
  {
    var margin := 12 * scale;
    var wrapW := r.width - margin * 2 - 30 * scale;
    assert wrapW == WrapWidth(r.width, scale);
    var inputY := r.height - margin - 42 * scale;
    var blinkOn := st.frameIndex % 10 < 5;
    ghost var inputPart: seq<Op> := [];
    if blinkOn && !st.showUserBubble {
      var caretX := margin + 16 * scale + font.textWidth(st.userInput, scale, 1) + 2 * scale;
      var caret := Rect(caretX, inputY + 12 * scale, 2 * scale, font.h * scale, Color(TEXT));
      Paint(r, font, caret, done, start);
      inputPart := [caret];
    } else {
      assert done + inputPart == done;
    }
    assert inputPart == InputCaretOps(font, r.height, scale, st);
    ghost var painted := done + inputPart;
    ghost var replyPart: seq<Op> := [];
    if blinkOn && st.showUserBubble && st.aiText != "" && st.aiText != roastDisplay {
      var aiLines := cache.Peek(font, "a:", st.aiText, wrapW, scale);
      var lastLine := if |aiLines| > 0 then aiLines[|aiLines| - 1] else "";
      var caretX := margin + 10 * scale + 5 * scale + font.textWidth(lastLine, scale, 1) + 2 * scale;
      var caret := Rect(caretX, top + bubbleH - (font.h * scale + 5 * scale), 2 * scale, font.h * scale, Color(TEXT_DIM));
      Paint(r, font, caret, painted, start);
      replyPart := [caret];
    } else {
      assert painted + replyPart == painted;
    }
    ghost var replyLines := WrapLines(font, st.aiText, WrapWidth(r.width, scale), scale, 1);
    assert replyPart == ReplyCaretOps(font, scale, st, roastDisplay, replyLines,
      ReplyTop(font, r.width, scale, st, msgDisplay), BubbleH(font, replyLines, scale));
    assert inputPart + replyPart == CaretOps(font, r.width, r.height, scale, st, msgDisplay, roastDisplay);
    Regroup(done, inputPart, replyPart);
  }

  lemma Regroup(a: seq<Op>, b: seq<Op>, c: seq<Op>)
    ensures a + b + c == a + (b + c)
  {
  }

  /** A call list that starts with a clear leaves each pixel as on a zeroed canvas. */
  lemma ShowsFrame(r: Renderer, font: Font, ops: seq<Op>, start: seq<byte>)
    requires Shows(r, font, ops, start)
    requires ops != [] && ops[0].Fill?
    ensures forall x, y :: r.InCanvas(x, y) ==> r.Pixel(x, y) == FramePixel(font, ops, x, y)
  {
    forall x, y | r.InCanvas(x, y)
      ensures r.Pixel(x, y) == FramePixel(font, ops, x, y)
    {
      ShadeAfterFill(font, ops, x, y, PixelIn(start, r.width, r.height, x, y), Rgba(0, 0, 0, 0));
    }
  }

  /**
   * `renderFrame`: paints the scene of `st` on the framebuffer. Every pixel
   * ends up as the calls `FrameOps` leave it, which depend neither on the
   * previous frame nor on the entries the wrap cache held; the cache stays
   * coherent and gains at most the keys of the two texts it wrapped.
   */
  method RenderFrame(r: Renderer, font: Font, st: FrameState, scale: int, msgDisplay: string,
                     roastDisplay: string, cache: WrapCache)
    requires r.Valid()
    requires cache.Coherent(font, WrapWidth(r.width, scale), scale)
    modifies r.data, cache
    ensures cache.Coherent(font, WrapWidth(r.width, scale), scale)
    ensures old(cache.entries).Keys <= cache.entries.Keys
    ensures cache.entries.Keys <= old(cache.entries).Keys + {"u:" + msgDisplay, "a:" + st.aiText}
    ensures forall x, y :: r.InCanvas(x, y) ==>
      r.Pixel(x, y) == FramePixel(font, FrameOps(font, r.width, r.height, scale, st, msgDisplay, roastDisplay), x, y)
  {
    ghost var start := r.data[..];
    assert Shows(r, font, [], start);
    var margin := 12 * scale;
    var fill := Fill(Color(BG));
    Paint(r, font, fill, [], start);
    var panel := Round(margin, margin, r.width - margin * 2, r.height - margin * 2, 10 * scale, Color(PANEL));
    Paint(r, font, panel, [fill], start);
    ghost var done := PanelOps(r.width, r.height, scale);
    assert [] + [fill] + [panel] == done;
    var aiBubbleTop, aiBubbleH := DrawChat(r, font, st, scale, msgDisplay, cache, done, start);
    done := done + ChatOps(font, r.width, scale, st, msgDisplay);
    DrawInputBar(r, font, st, scale, done, start);
    done := done + InputOps(r.width, r.height, scale, st);
    DrawCarets(r, font, st, scale, msgDisplay, roastDisplay, cache, aiBubbleTop, aiBubbleH, done, start);
    done := done + CaretOps(font, r.width, r.height, scale, st, msgDisplay, roastDisplay);
    assert done == FrameOps(font, r.width, r.height, scale, st, msgDisplay, roastDisplay);
    assert done[0] == fill;
    ShowsFrame(r, font, done, start);
  }

  // ----- the blinking carets -----

  /**
   * Carets show only in the first five frames of every ten, and at most one
   * at a time: the input caret while the message is unsent, the reply caret
   * while the reply is visible and not yet complete.
   */
  lemma CaretRules(font: Font, width: int, height: int, scale: int, st: FrameState,
                   msgDisplay: string, roastDisplay: string)
    ensures var carets := CaretOps(font, width, height, scale, st, msgDisplay, roastDisplay);
      && |carets| <= 1
      && (carets != [] <==>
            BlinkOn(st) && (!st.showUserBubble || (st.aiText != "" && st.aiText != roastDisplay)))
  {
  }

  /**
   * Over the animation script: once the message is sent no input caret is
   * drawn, and in the idle tail, where the whole reply shows, no caret at all.
   */
  lemma ScriptCarets(font: Font, width: int, height: int, scale: int, msgDisplay: string, msg: string, roast: string)
    ensures var frames := Script(msg, roast);
      && (forall k :: SendStart(msg) <= k < |frames| ==> InputCaretOps(font, height, scale, frames[k]) == [])
      && (forall k :: IdleStart(msg, roast) <= k < |frames| ==>
            CaretOps(font, width, height, scale, frames[k], msgDisplay, roast) == [])
  {
    SendPress(msg, roast);
    ReplyShown(msg, roast);
  }

  // ----- every painted colour is a palette colour -----

  /** Every call of `ops` paints a palette colour. */
  predicate PaletteOps(ops: seq<Op>) {
    forall i :: 0 <= i < |ops| ==> InPalette(ops[i].c)
  }

  lemma PaletteConcat(a: seq<Op>, b: seq<Op>)
    requires PaletteOps(a) && PaletteOps(b)
    ensures PaletteOps(a + b)
  {
    forall i | 0 <= i < |a + b|
      ensures InPalette((a + b)[i].c)
    {
      if i >= |a| {
        assert (a + b)[i] == b[i - |a|];
      }
    }
  }

  /** Every slot's triple is a palette colour. */
  lemma ColorIn(slot: nat)
    requires slot < |PALETTE|
    ensures InPalette(Color(slot))
  {
    assert PaletteColors()[slot] == Color(slot);
  }

  /** A bubble in palette colours with palette-coloured text paints palette colours only. */
  lemma BubblePalette(font: Font, x: int, y: int, lines: seq<string>, scale: int, color: Rgb, textColor: Rgb, maxWidth: int)
    requires InPalette(color) && InPalette(textColor)
    ensures PaletteOps(BubbleOps(font, x, y, lines, scale, color, textColor, maxWidth))
  {
    var pad := scale * 5;
    LineOpsAt(x + pad, y + pad, lines, scale, textColor, font.h * scale + scale * 2);
    PaletteConcat([Round(x, y, BubbleW(font, lines, scale, maxWidth), BubbleH(font, lines, scale), scale * 4, color)],
                  LineOps(x + pad, y + pad, lines, scale, textColor, font.h * scale + scale * 2));
  }

  lemma UserPalette(font: Font, width: int, scale: int, lines: seq<string>)
    ensures PaletteOps(UserOps(font, width, scale, lines))
  {
    ColorIn(TEXT_DIM); ColorIn(USER_BUBBLE); ColorIn(WHITE);
    var maxW := BubbleMaxW(width, scale);
    var bubbleX := width - Margin(scale) - 10 * scale - BubbleW(font, lines, scale, maxW);
    var bubble := BubbleOps(font, bubbleX, ChatTop(scale), lines, scale, Color(USER_BUBBLE), Color(WHITE), maxW);
    var bubbleW := BubbleW(font, lines, scale, maxW);
    var head := Text(bubbleX + bubbleW - font.textWidth("USER", scale, 1), ChatTop(scale) - 10 * scale - font.h * scale,
                     "USER", scale, Color(TEXT_DIM), 1);
    BubblePalette(font, bubbleX, ChatTop(scale), lines, scale, Color(USER_BUBBLE), Color(WHITE), maxW);
    PaletteConcat([head], bubble);
    assert UserOps(font, width, scale, lines) == [head] + bubble;
  }

  lemma ReplyPalette(font: Font, width: int, scale: int, top: int, lines: seq<string>)
    ensures PaletteOps(ReplyOps(font, width, scale, top, lines))
  {
    ColorIn(TEXT_DIM); ColorIn(AI_BUBBLE); ColorIn(TEXT);
    var left := Margin(scale) + 10 * scale;
    var maxW := BubbleMaxW(width, scale);
    var bubble := BubbleOps(font, left, top, lines, scale, Color(AI_BUBBLE), Color(TEXT), maxW);
    var head := Text(left, top - 10 * scale - font.h * scale, "ASSISTANT", scale, Color(TEXT_DIM), 1);
    BubblePalette(font, left, top, lines, scale, Color(AI_BUBBLE), Color(TEXT), maxW);
    PaletteConcat([head], bubble);
    assert ReplyOps(font, width, scale, top, lines) == [head] + bubble;
  }

  lemma ChatPalette(font: Font, width: int, scale: int, st: FrameState, msgDisplay: string)
    ensures PaletteOps(ChatOps(font, width, scale, st, msgDisplay))
  {
    var wrapW := WrapWidth(width, scale);
    var userLines := WrapLines(font, msgDisplay, wrapW, scale, 1);
    var replyLines := WrapLines(font, st.aiText, wrapW, scale, 1);
    var top := ReplyTop(font, width, scale, st, msgDisplay);
    UserPalette(font, width, scale, userLines);
    ReplyPalette(font, width, scale, top, replyLines);
    var user := if st.showUserBubble then UserOps(font, width, scale, userLines) else [];
    var reply := if st.aiText != "" then ReplyOps(font, width, scale, top, replyLines) else [];
    PaletteConcat(user, reply);
  }

  lemma InputPalette(font: Font, width: int, height: int, scale: int, st: FrameState,
                     msgDisplay: string, roastDisplay: string)
    ensures PaletteOps(InputOps(width, height, scale, st))
    ensures PaletteOps(CaretOps(font, width, height, scale, st, msgDisplay, roastDisplay))
  {
    ColorIn(INPUT); ColorIn(ACCENT); ColorIn(SEND); ColorIn(WHITE); ColorIn(TEXT); ColorIn(TEXT_DIM);
  }

  /** Every colour `renderFrame` paints is taken from the palette. */
  lemma FramePalette(font: Font, width: int, height: int, scale: int, st: FrameState,
                     msgDisplay: string, roastDisplay: string)
    ensures PaletteOps(FrameOps(font, width, height, scale, st, msgDisplay, roastDisplay))
  {
    var panel := PanelOps(width, height, scale);
    var chat := ChatOps(font, width, scale, st, msgDisplay);
    var input := InputOps(width, height, scale, st);
    var carets := CaretOps(font, width, height, scale, st, msgDisplay, roastDisplay);
    ColorIn(BG); ColorIn(PANEL);
    ChatPalette(font, width, scale, st, msgDisplay);
    InputPalette(font, width, height, scale, st, msgDisplay, roastDisplay);
    PaletteConcat(panel, chat);
    PaletteConcat(panel + chat, input);
    PaletteConcat(panel + chat + input, carets);
  }

  function RgbOf(p: Rgba): Rgb {
    Rgb(p.r, p.g, p.b)
  }

  /**
   * After palette-coloured calls that start with a clear, every pixel is
   * opaque and of a palette colour.
   */
  lemma {:induction false} ShadePalette(font: Font, ops: seq<Op>, x: int, y: int, under: Rgba)
    requires PaletteOps(ops) && ops != [] && ops[0].Fill?
    ensures var p := Shade(font, ops, x, y, under); p.a == 255 && InPalette(RgbOf(p))
    decreases |ops|
  {
    var n := |ops| - 1;
    if !Covers(font, ops[n], x, y) {
      assert n > 0;
      ShadePalette(font, ops[..n], x, y, under);
    }
  }

  /**
   * In a rendered frame every pixel is opaque and the slot the quantiser
   * picks for it holds exactly its colour: the fallback to slot 0 for
   * unknown colours is never taken.
   */
  lemma FrameQuantizesExactly(font: Font, width: int, height: int, scale: int, st: FrameState,
                              msgDisplay: string, roastDisplay: string, x: int, y: int)
    ensures var p := FramePixel(font, FrameOps(font, width, height, scale, st, msgDisplay, roastDisplay), x, y);
      && p.a == 255
      && InPalette(RgbOf(p))
      && Color(SlotOf(Key(RgbOf(p)))) == RgbOf(p)
  {
    var ops := FrameOps(font, width, height, scale, st, msgDisplay, roastDisplay);
    FramePalette(font, width, height, scale, st, msgDisplay, roastDisplay);
    assert ops[0].Fill?;
    ShadePalette(font, ops, x, y, Rgba(0, 0, 0, 0));
    QuantizeExact(RgbOf(FramePixel(font, ops, x, y)));
  }

  // ----- rgbaToIndexed -----

  /** `map.get(key) ?? 0`: the slot the colour map holds for `key`, or 0. */
  function Lookup(m: map<int, nat>, key: int): nat {
    if key in m then m[key] else 0
  }

  /** Looking a key up in the map `makeColorIndexMap` builds is `SlotOf`. */
  lemma LookupIsSlot(m: map<int, nat>, key: int)
    requires m.Keys == set i | 0 <= i < |PALETTE| :: PALETTE[i]
    requires forall i :: 0 <= i < |PALETTE| ==> m[PALETTE[i]] == i
    ensures Lookup(m, key) == SlotOf(key)
  {
    if key in m {
      var i :| 0 <= i < |PALETTE| && PALETTE[i] == key;
      SlotOfPalette(i);
    } else {
      forall i | 0 <= i < |PALETTE|
        ensures PALETTE[i] != key
      {
        assert PALETTE[i] in m.Keys;
      }
    }
  }

  /** The colour key of the pixel whose bytes start at offset `4 * i` of an RGBA buffer. */
  function PixelKey(data: seq<byte>, i: nat): int
    requires 4 * i + 2 < |data|
  {
    RgbToKey(data[4 * i], data[4 * i + 1], data[4 * i + 2])
  }

  /**
   * `rgbaToIndexed`: one palette slot per pixel, row by row: the slot of the
   * pixel's colour, or 0 for a colour outside the palette.
   */
  method RgbaToIndexed(r: Renderer) returns (out: array<byte>)
    requires r.Valid()
    ensures fresh(out) && out.Length == r.width * r.height
    ensures forall i :: 0 <= i < out.Length ==> out[i] == SlotOf(PixelKey(r.data[..], i))
    ensures forall x, y :: r.InCanvas(x, y) ==>
      0 <= Cell(r.width, x, y) < out.Length && out[Cell(r.width, x, y)] == SlotOf(Key(RgbOf(r.Pixel(x, y))))
  {
    var m := MakeColorIndexMap();
    out := new byte[r.width * r.height];
    ghost var data := r.data[..];
    for i := 0 to out.Length
      invariant forall j :: 0 <= j < i ==> out[j] == Lookup(m, PixelKey(data, j))
    {
      var key := RgbToKey(r.data[4 * i], r.data[4 * i + 1], r.data[4 * i + 2]);
      assert key == PixelKey(data, i);
      var idx := if key in m then m[key] else 0;
      assert idx == Lookup(m, key);
      out[i] := idx;
    }
    forall j | 0 <= j < out.Length
      ensures out[j] == SlotOf(PixelKey(data, j))
    {
      LookupIsSlot(m, PixelKey(data, j));
    }
    forall x, y | r.InCanvas(x, y)
      ensures 0 <= Cell(r.width, x, y) < out.Length && out[Cell(r.width, x, y)] == SlotOf(Key(RgbOf(r.Pixel(x, y))))
    {
      CellBound(r.width, r.height, x, y);
    }
  }
}
