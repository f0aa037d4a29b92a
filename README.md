# Chat-roast GIF frame pipeline in Dafny

This project models the core of a generator of animated "chat roast" GIFs. A
user message is typed into a fake chat window, sent, and answered by a
mocking reply that is typed out in turn. The model covers the frame pipeline
behind the animation:

- `Palette` (palette.dfy): the fixed 16-colour palette, the packing of a
  byte triple into a 24-bit key and back, the colour → slot map, and the
  slot lookup with its fallback to 0.
- `Raster` (renderer.dfy): the software framebuffer, a `Renderer` class over
  an RGBA byte array. It has `clear`, a bounds-checked `setPixel`, a clipped
  `fillRect`, the squared-distance `fillRoundRect` and glyph-blitting
  `drawText`. Each primitive is specified per pixel: a pixel takes the
  drawing colour exactly when the call covers it and keeps its value
  otherwise. `Shade` folds a sequence of calls into the colour each pixel
  ends up with.
- `Strings` and `Wrap` (strings.dfy, wrap.dfy): splitting on whitespace and
  the greedy word wrap `wrapText`. Wrapping is both a pure recursive
  function and the accumulator loop proved equal to it.
- `Frames` (frames.dfy): `buildFrames`, the five-phase frame script.
  The phases are the intro, the message typed out, the send press, the
  reply typed out and the idle tail.
- `Roast` (roast.dfy): `sanitizeMessage`, the ten reply templates, the
  `xmur3` and `mulberry32` generators on 32-bit words (classes whose state
  the calls update), and `pickRoast`.
- `Compose` (compose.dfy): `renderFrame` with its wrap cache, `measureLines`,
  `drawBubble` and `rgbaToIndexed`. A frame is described as the sequence of
  drawing calls `FrameOps` it makes. `RenderFrame` is proved to leave every
  pixel equal to `Shade` of that sequence.
- `Generate` (generate.dfy): `generateGif`. It clamps the scale, chooses the
  texts, builds the script and keeps its first 120 frames. Each frame is
  rendered and quantised, and the indexed frames are handed to the encoder.

The main results:

- `RenderFrame` paints exactly the scene `FrameOps` describes, whatever the
  wrap cache holds, as long as every cached entry is what `wrapText` would
  compute.
- Every colour a frame paints is a palette colour (`FramePalette`). So the
  quantiser never falls back to slot 0, and every indexed pixel decodes to
  the exact rendered colour (`FrameQuantizesExactly`, `RenderIndexed`).
- `GenerateGif` hands over `min(120, |script|)` frames. Frame `k` decodes to
  frame `k` of the script.

Two consequences of the typing loops that are easy to miss:

- A 2-character message and a 66-character reply give 6 + 2 + 3 + 66 + 24
  = 101 frames: a reply of at most 70 characters is typed one character per
  frame (`ExampleLength`).
- With a step of 2 and an even-length reply, the loop stops one character
  short: the last typing frame lacks the final character, and only the idle
  frames show the whole reply (`LastReplyFrameShort`).

## Model

| member | source | states |
|---|---|---|
| Palette.PaletteShape | lib/palette.ts:1-18 | the palette has 16 slots and every slot holds a key in [0, 2^24) |
| Palette.PaletteDistinct | lib/palette.ts:1-18 | no two slots hold the same colour |
| Palette.RgbToKey | lib/palette.ts:28-30 | the key of a byte triple lies in [0, 2^24), and `keyToRgb` of it gives back (r, g, b) |
| Palette.RgbToKeyInjective | lib/palette.ts:28-30 | two byte triples with the same key are equal |
| Palette.KeyRoundTrip | lib/generate.ts:42-44 | for a key below 2^24, unpacking it with `keyToRgb` and packing the three bytes again gives the key back |
| Palette.MakeColorIndexMap | lib/palette.ts:20-26 | the map's keys are exactly the palette colours, and `PALETTE[i]` maps to `i` |
| Palette.SlotOf | lib/generate.ts:213-215 | the slot is below 16; a palette key gets the slot holding it; any other key gets 0 |
| Palette.SlotOfPalette | lib/palette.ts:20-26 | the colour of slot `i` is looked up as `i` |
| Palette.PaletteToArray | lib/palette.ts:32-34 | a freshly allocated array equal to the palette, so writes to it cannot reach `PALETTE` |
| Raster.CellBound | lib/renderer.ts:28 | the pixel index of an in-canvas pixel lies in [0, width*height) |
| Raster.CellInjective | lib/renderer.ts:28 | distinct pixels of a row-major grid have distinct indices |
| Raster.ShadeAppend | lib/renderer.ts:26-33 | painting `a` then `b` gives the same pixels as painting `a + b`: a later write wins |
| Raster.ShadeAfterFill | lib/generate.ts:124-125 | once a frame starts with `clear`, its pixels do not depend on the previous frame |
| Raster.RoundZeroIsRect | lib/renderer.ts:52-63 | `fillRoundRect` with radius 0 covers exactly the pixels `fillRect` covers |
| Raster.TextWithin | lib/renderer.ts:65-83 | `drawText` with non-negative spacing only covers pixels in [x, x + n*(FONT_W+spacing)*scale) × [y, y + FONT_H*scale) |
| Raster.Renderer.constructor | lib/renderer.ts:10-14 | a fresh array of width*height*4 zero bytes |
| Raster.Renderer.Clear | lib/renderer.ts:16-24 | every byte is the matching channel of the colour, alpha 255; every pixel is the opaque colour |
| Raster.Renderer.SetPixel | lib/renderer.ts:26-33 | off-canvas: no byte changes; on canvas: bytes 4i..4i+3 get (r, g, b, 255) and no other byte changes |
| Raster.Renderer.FillRect | lib/renderer.ts:35-50 | a pixel becomes the colour iff it lies in the rectangle (clipped to the canvas); every other pixel is unchanged |
| Raster.Renderer.FillRoundRect | lib/renderer.ts:52-63 | a pixel becomes the colour iff it is in the box and dx²+dy² ≤ r² with the corner offsets of lines 56-57; others unchanged |
| Raster.Renderer.Block | lib/renderer.ts:73-77 | the scale × scale block of one glyph bit is painted, nothing else |
| Raster.Renderer.Glyph | lib/renderer.ts:69-80 | exactly the blocks of the glyph's set bits are painted |
| Raster.Renderer.DrawText | lib/renderer.ts:65-83 | exactly the pixels of the glyphs of the text, advancing (FONT_W+spacing)*scale per character, take the colour |
| Strings.Words | lib/renderer.ts:87 | every piece of the split is a non-empty run without whitespace; `Roast.CleanIsJoinedWords` pins down which runs |
| Strings.WordsOfBlank | lib/renderer.ts:87 | whitespace-only text has no words |
| Strings.WordsEmptyOnlyIfBlank | lib/renderer.ts:87 | text with no words is whitespace only |
| Wrap.WrapText | lib/renderer.ts:86-106 | the loop returns the greedy wrap; no word is lost; lines are non-empty, multi-word lines fit, at most one line per word |
| Wrap.WrapJoin | lib/renderer.ts:87-105 | the lines joined with single spaces equal the words joined with single spaces |
| Wrap.WrapShape | lib/renderer.ts:90-104 | no line is empty, every line with a space fits the width, and there are no more lines than words |
| Wrap.WrapBlank | lib/renderer.ts:87-104 | whitespace-only input wraps to no lines |
| Wrap.WidthMono | lib/renderer.ts:90 | with a non-negative advance, a longer string is at least as wide |
| Wrap.OverwideAlone | lib/renderer.ts:96-101 | a word wider than the target is emitted whole as a line of its own |
| Frames.TypingStep | lib/generate.ts:57 | at least one character is revealed per typing frame |
| Frames.PrefixesGrow | lib/generate.ts:58-60 | typing frames show non-empty prefixes of the text, each strictly longer than the one before |
| Frames.PrefixCount | lib/generate.ts:58 | a typing loop pushes ceil((len + 1 - from) / step) frames |
| Frames.PrefixAt | lib/generate.ts:68-69 | typing frame `j` shows the first `from + j*step` characters |
| Frames.TypingCapped | lib/generate.ts:56-58 | a typing phase has at most `cap` frames |
| Frames.OneAtATime | lib/generate.ts:57-59 | text no longer than the cap is typed one character per frame |
| Frames.TypeOut | lib/generate.ts:68-70 | the loop appends the typing phase to the frames so far |
| Frames.BuildFrames | lib/generate.ts:46-77 | the frames are intro, typing, send, reply typing and idle phases, in order |
| Frames.ScriptLength | lib/generate.ts:46-77 | length is 6 + T(msg, 40) + 3 + T(roast, 70) + 24, between 33 and 143 |
| Frames.EmptyScript | lib/generate.ts:46-77 | two empty texts give 33 frames with no text shown |
| Frames.ExampleLength | lib/generate.ts:46-77 | a 2-character message and a 66-character reply give 101 frames |
| Frames.LastReplyFrameShort | lib/generate.ts:66-70 | for an even reply length in 72..140 the last reply-typing frame shows all but the last character |
| Frames.ScriptIndexed | lib/generate.ts:53-73 | frame `k` has `frameIndex == k` |
| Frames.BeforeSend | lib/generate.ts:52-60 | before the send, no bubble, no reply and no press; the typed input grows strictly and is a prefix of the message |
| Frames.SendPress | lib/generate.ts:62-64 | from the send on, the bubble shows and the input is empty; the button is pressed in the first two send frames only |
| Frames.ReplyShown | lib/generate.ts:66-74 | reply frames show growing non-empty prefixes of the reply; the idle frames show the whole reply |
| Roast.SanitizeMessage | lib/roast.ts:45-49 | the cleaned text if short enough; else `maxLen` characters ending in "..." (or just "..." when `maxLen < 3`); always trimmed with no double whitespace |
| Roast.CleanNormal | lib/roast.ts:46 | collapsing and trimming leaves no edge whitespace and no two whitespace characters in a row |
| Roast.CleanFixed | lib/roast.ts:46 | cleaning an already clean text changes nothing |
| Roast.SanitizeIdempotent | lib/roast.ts:45-49 | sanitising twice with the same `maxLen` equals sanitising once |
| Roast.CollapseWords | lib/roast.ts:46 | collapsing the whitespace of a text with a non-whitespace character gives its words joined by single spaces, plus one space at each end that was whitespace |
| Roast.CleanIsJoinedWords | lib/renderer.ts:87 | the words of the split, joined with single spaces, are exactly the text with whitespace runs collapsed and trimmed: every non-whitespace character kept, in order, broken only at whitespace |
| Roast.SanitizeNoDollar | lib/roast.ts:45-49 | sanitising a message without `$` gives a text without `$` |
| Roast.IndexFrom | lib/roast.ts:42 | the search returns the first position where the pattern matches, or -1 when there is none |
| Roast.ReplaceFirst | lib/roast.ts:42 | the first occurrence of the pattern is replaced by the text, taken literally; the rest is kept |
| Roast.SubstitutionPlain | lib/roast.ts:42 | a replacement without `$` is inserted unchanged |
| Roast.ReplaceAgrees | lib/roast.ts:42 | without `$` in the replacement, the JavaScript replacement and the literal one agree |
| Roast.ReplaceContains | lib/roast.ts:42 | when the pattern occurs, the literal replacement's result contains the replacement text |
| Roast.Templates | lib/roast.ts:1-12 | each template is its two parts joined around "{msg}" |
| Roast.TemplatesHavePlaceholder | lib/roast.ts:1-12 | there are ten templates, and each contains "{msg}" |
| Roast.Xmur3.constructor | lib/roast.ts:14-19 | the captured state is the seed word mixed with every code unit of the string |
| Roast.Xmur3.Next | lib/roast.ts:20-25 | one call finalises the state and returns it as an unsigned 32-bit word |
| Roast.Mulberry32.constructor | lib/roast.ts:28 | the captured state is the seed |
| Roast.Mulberry32.Next | lib/roast.ts:29-34 | the state advances by 0x6d2b79f5 and the tempered word of the new state is returned |
| Roast.Digits | lib/roast.ts:38 | decimal digits only, no leading zero |
| Roast.DigitsRoundTrip | lib/roast.ts:38 | reading the digits of `n` back gives `n` |
| Roast.IndexOfDraw | lib/roast.ts:40 | the template index is below the number of templates |
| Roast.FloorIsQuotient | lib/roast.ts:33-40 | floor(x / 2^32 * 10) in exact arithmetic is (x*10) div 2^32, below 10 |
| Roast.PickIndex | lib/roast.ts:37-41 | the index drawn for a message and seed is a valid template index |
| Roast.HashWord | lib/roast.ts:38 | `xmur3(str)()` is the finalised hash state of the string |
| Roast.FirstDraw | lib/roast.ts:39 | the first call of a fresh `mulberry32` returns the output for its seed |
| Roast.DrawWord | lib/roast.ts:38-39 | the drawn word is `mulberry32(xmur3(str)())()` |
| Roast.ScaleToIndex | lib/roast.ts:40 | the floating-point index computation equals the integer quotient and is a valid index |
| Roast.PickRoast | lib/roast.ts:37-43 | the result is the drawn template with the message in place of "{msg}", and it contains the message |
| Roast.DollarAmpersandEchoes | lib/roast.ts:42 | as written, replacing with "$&" gives back the original string |
| Roast.DollarMessageLost | lib/roast.ts:37-43 | as written, the message "$&" leaves the template unchanged, unlike the literal replacement |
| Compose.ColorSlot | lib/generate.ts:124 | the colour of a slot is a palette colour and quantises back to that slot |
| Compose.QuantizeExact | lib/generate.ts:207-217 | a palette colour is quantised to the slot that holds exactly that colour |
| Compose.ButtonYExact | lib/generate.ts:180 | (inputH − btnH) / 2 is exact, and btnY = inputY + 8·scale |
| Compose.WidestIsMax | lib/generate.ts:82-85 | the running maximum is 0 or some line's width, and no line is wider |
| Compose.MeasureLines | lib/generate.ts:79-87 | the text height is n lines with gaps between them; the width is the widest line's |
| Compose.LineOpsAt | lib/generate.ts:105-109 | line `i` is drawn at y + i·(FONT_H·scale + 2·scale) |
| Compose.DrawBubble | lib/generate.ts:89-111 | paints the rounded box and then each line; returns the box size |
| Compose.WrapCache.constructor | lib/generate.ts:251 | the cache starts empty |
| Compose.WrapCache.Lines | lib/generate.ts:140-145 | returns the `wrapText` result; the entry is inserted on a miss and kept on a hit; every entry stays equal to `wrapText` |
| Compose.WrapCache.Peek | lib/generate.ts:199 | returns the `wrapText` result without inserting |
| Compose.TagsNeverCollide | lib/generate.ts:140-160 | the user key and the reply key never coincide, and each key gives back its text |
| Compose.DrawUserBubble | lib/generate.ts:139-157 | paints the "USER" caption and the right-aligned user bubble |
| Compose.DrawReplyBubble | lib/generate.ts:159-171 | paints the "ASSISTANT" caption and the reply bubble |
| Compose.DrawInputBar | lib/generate.ts:173-188 | paints the input bar, the send button (accent while pressed) and the typed text |
| Compose.DrawChat | lib/generate.ts:134-171 | paints the chat area; the cache only gains the user and reply keys and stays coherent |
| Compose.DrawCarets | lib/generate.ts:190-204 | paints the carets; the reply caret sits in the reply bubble's bottom row |
| Compose.ShowsFrame | lib/generate.ts:125 | after a frame that starts with `clear`, every pixel is the frame's colour on a blank canvas |
| Compose.RenderFrame | lib/generate.ts:113-205 | every pixel equals the frame's scene; the cache stays coherent and gains at most the two keys of this frame |
| Compose.CaretRules | lib/generate.ts:190-204 | at most one caret; one shows iff blinking and either the message is unsent or the reply is shown but incomplete |
| Compose.ScriptCarets | lib/generate.ts:190-204 | over the script, no input caret from the send on, and no caret at all in the idle frames |
| Compose.FramePalette | lib/generate.ts:124-194 | every drawing call of a frame uses a palette colour |
| Compose.ShadePalette | lib/generate.ts:125-194 | after palette-coloured calls that start with `clear`, each pixel is opaque and in the palette |
| Compose.FrameQuantizesExactly | lib/generate.ts:207-217 | every pixel of a rendered frame is opaque, and its slot holds exactly its colour, so the fallback to 0 is never used |
| Compose.LookupIsSlot | lib/generate.ts:213-215 | the map lookup with fallback 0 is the slot lookup |
| Compose.RgbaToIndexed | lib/generate.ts:207-217 | width*height entries, entry `i` the slot of pixel `i`'s colour (0 if not in the palette) |
| Generate.ClampScale | lib/generate.ts:220 | the scale is in 1..4: the floor when that is in range, 1 below, 4 above |
| Generate.DefaultIndex | lib/generate.ts:227 | a valid pair index, `|seed| mod n` when a seed is given |
| Generate.Conversation | lib/generate.ts:223-232 | the given message and template, or the chosen pair's message with its reply mentioning it |
| Generate.ChooseTexts | lib/generate.ts:233-236 | typed text ≤ 40, bubble text ≤ 80, reply ≤ 140 characters, all cleaned; a given message is sanitised directly |
| Generate.ConversationAsWritten | lib/generate.ts:224-231 | as written: the same message, and for a built-in pair its reply filled with JavaScript's `$`-expanding `replace` |
| Generate.ChooseTextsAsWritten | lib/generate.ts:233-236 | as written: the same typed and bubble texts, the reply filled with JavaScript's `replace` |
| Generate.TextsAgree | lib/generate.ts:224-236 | for a message without `$`, the texts of the code as written equal the model's |
| Generate.WrapKeepsText | lib/renderer.ts:86-106 | wrapping a cleaned text (every text the bubbles show) loses nothing: the lines joined with spaces give the text back |
| Generate.PickedRoastShowsMessage | lib/generate.ts:236 | without a reply template, the picked reply contains the bubble text |
| Generate.TypedOneAtATime | lib/generate.ts:234 | the typed message is short enough to be typed one character per frame |
| Generate.RenderIndexed | lib/generate.ts:252-254 | the indexed frame decodes, pixel by pixel, to the rendered colours |
| Generate.GenerateGif | lib/generate.ts:219-260 | width and height are scaled; min(120, script length) frames are produced, frame `k` decoding to script frame `k` |

## Left out

- The GIF encoder (`omggif`), the output buffer sizing and `gif.end()`. `Generate.GenerateGif` returns the indexed frames and the scaled size that would be handed to the encoder. The frame delay and the palette array passed with each frame are not modelled.
- The glyph table and `textWidth` of the font module are not part of this model. A `Font` value carries FONT_W, FONT_H (positive), the glyph bits and the width measure. Every operation that draws or measures takes it as a parameter.
- The built-in conversations (`DEFAULT_PAIRS`) are not part of this model. They are a parameter, assumed non-empty. `Math.random()` is a parameter `rand` in [0, 1).
- Generate.DefaultIndex: a non-integer seed, or a NaN scale, is not modelled. Seeds are integers and the scale is a real number.
- Generate.Options: width and height are natural numbers. Non-integer or negative sizes, which the options type admits, are not modelled.
- Roast.DecimalString: `String(seed)` is modelled for integer seeds with |seed| < 10^21 only. From 10^21 on JavaScript writes exponential notation ("1e+21"), which `DecimalString` does not, so the hashed string and the picked template differ there.
- The HTTP handler and the script that writes the default conversations to disk are I/O glue.
- Strings are sequences of characters. `wrapText` and `textWidth` count UTF-16 code units while `drawText` iterates code points; the model does not claim the two agree for characters outside the Basic Multilingual Plane. `Roast.CodeUnit` is the character's code, which is the UTF-16 unit only inside that plane.
- The framebuffer is an array of bytes. `Uint8ClampedArray` clamping never triggers because only palette bytes and 255 are written.
- Roast.Mulberry32.Next: the captured seed is kept as a 32-bit word. JavaScript adds in doubles, which is exact while the sum stays below 2^53, far beyond the single call `pickRoast` makes.
- Roast.Xmur3.Next: the finalisation is stated as the function it computes. No inverse is claimed.
- Compose.RenderFrame: the renderer's own width and height stand for the options' width and height. `generateGif` creates the renderer with exactly those values.
- Compose.RenderFrame: the drawing sections (`DrawChat`, `DrawInputBar`, `DrawCarets`) are a split of the one `renderFrame` body, and each drawing call goes through `Raster.Renderer.Draw`, which dispatches to the primitive.
- Compose.DrawCarets: it requires the reply bubble's top and height from the chat section when a reply is shown. Those are the values `renderFrame` passes along.
- The colour slots `border` and `shadow` are declared and never painted.
- Generate.Conversation: lib/generate.ts:230 fills a built-in reply with JavaScript's `replace`, which expands `$&`, `$$`, `` $` `` and `$'` in the pair's message. The model uses the literal `ReplaceFirst`, the corrected behaviour described under Findings, so its containment clause is not the code's behaviour for a message holding such a pattern. `Generate.ConversationAsWritten` is the code as written, and `Generate.TextsAgree` shows the two agree for messages without `$`.
- Generate.ChooseTexts: lib/generate.ts:235-236 use the literal replacement in the same way, including inside `pickRoast`; `Generate.ChooseTextsAsWritten` and `Generate.TextsAgree` relate it to the code as written.
- Generate.GenerateGif: it renders the texts of `Generate.ChooseTexts`, so it inherits the literal replacement.

## Findings

| source | as written | input that shows it | evidently intended | confidence | as-written member | corrected member |
|---|---|---|---|---|---|---|
| lib/roast.ts:42 | `template.replace("{msg}", msg)` treats `$&`, `$$`, `` $` `` and `$'` in the message as substitution patterns | msg = "$&": the result is the template unchanged, still holding "{msg}" and not the message | the message inserted literally, so the reply always contains it | not executed | Roast.DollarMessageLost | Roast.PickRoast |
