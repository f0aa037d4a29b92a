/**
 * `generateGif`: the options are normalised (scale clamped, a default
 * conversation when no message is given), the three display texts are
 * prepared, the frame script is built and cut to 120 frames, and every frame
 * is rendered on one framebuffer and quantised to palette slots for the
 * GIF encoder, which here is only the receiver of the indexed frames.
 */
module Generate {
  import opened Arith
  import opened Pixels
  import opened Palette
  import opened Glyphs
  import opened Strings
  import opened Wrap
  import opened Raster
  import opened Frames
  import opened Roast
  import opened Compose

  datatype Option<T> = None | Some(value: T)

  /** `GenerateOptions`; an absent or empty `aiMsg` is the empty string. */
  datatype Options = Options(msg: string, seed: Option<int>, width: nat, height: nat, scale: real, aiMsg: string)

  /** One built-in conversation: a user message and its reply template. */
  datatype Pair = Pair(user: string, ai: string)

  /** The texts a run shows: the typed message, the message in its bubble and the reply. */
  datatype Texts = Texts(typing: string, display: string, roast: string)

  /** The frame cap. */
  const MAX_FRAMES: nat := 120

  /** `Math.max(1, Math.min(4, Math.floor(opts.scale || 1)))`. */
  function ClampScale(s: real): (k: int)
    ensures 1 <= k <= 4
    ensures 1.0 <= s < 5.0 ==> k == s.Floor
    ensures s < 1.0 ==> k == 1
    ensures s >= 5.0 ==> k == 4
  {
    var f := if s == 0.0 then 1 else s.Floor;
    Max(1, Min(4, f))
  }

  /**
   * The built-in conversation picked when no message is given:
   * `Math.floor(rand * n)` for the draw `rand` of `Math.random()` without a
   * seed, `Math.abs(seed) % n` with one.
   */
  function DefaultIndex(seed: Option<int>, rand: real, count: nat): (i: nat)
    requires count > 0 && 0.0 <= rand < 1.0
    ensures i < count
    ensures seed.Some? ==> i == (if seed.value < 0 then -seed.value else seed.value) % count
  {
    match seed
    case None =>
      FloorIndex(rand, count);
      var f := (rand * count as real).Floor;
      f
    case Some(v) => (if v < 0 then -v else v) % count
  }

  /** `opts.seed || 0`. */
  function SeedOrZero(seed: Option<int>): int {
    match seed
    case None => 0
    case Some(v) => v
  }

  /**
   * The message and the reply template of a run: the options' own, or the
   * chosen built-in pair with its placeholder filled with its own message.
   */
  function Conversation(opts: Options, pairs: seq<Pair>, rand: real): (c: (string, string))
    requires |pairs| > 0 && 0.0 <= rand < 1.0
    ensures opts.msg != "" ==> c == (opts.msg, opts.aiMsg)
    ensures opts.msg == "" ==>
      var p := pairs[DefaultIndex(opts.seed, rand, |pairs|)];
      c.0 == p.user && (IndexOf(p.ai, PLACEHOLDER) >= 0 ==> Contains(c.1, p.user))
  {
    if opts.msg != "" then (opts.msg, opts.aiMsg)
    else
      var p := pairs[DefaultIndex(opts.seed, rand, |pairs|)];
      var ai := ReplaceFirst(p.ai, PLACEHOLDER, p.user);
      assert IndexOf(p.ai, PLACEHOLDER) >= 0 ==> Contains(ai, p.user) by {
        if IndexOf(p.ai, PLACEHOLDER) >= 0 {
          ReplaceContains(p.ai, PLACEHOLDER, p.user);
        }
      }
      (p.user, ai)
  }

  /**
   * The texts of a run: the message cleaned to 40 characters for typing and
   * to 80 for its bubble, and the reply, picked from the roasts when there
   * is no reply template, with the bubble message in place of its
   * placeholder, cleaned to 140 characters.
   */
  function ChooseTexts(opts: Options, pairs: seq<Pair>, rand: real): (t: Texts)
    requires |pairs| > 0 && 0.0 <= rand < 1.0
    ensures |t.typing| <= 40 && |t.display| <= 80 && |t.roast| <= 140
    ensures Normal(t.typing) && Normal(t.display) && Normal(t.roast)
    ensures opts.msg != "" ==>
      t.typing == SanitizeMessage(opts.msg, 40) && t.display == SanitizeMessage(opts.msg, 80)
  {
    var (userMsg, aiMsg) := Conversation(opts, pairs, rand);
    var display := SanitizeMessage(userMsg, 80);
    var base := if aiMsg != "" then aiMsg
      else ReplaceFirst(ROASTS[PickIndex(display, SeedOrZero(opts.seed))], PLACEHOLDER, display);
    Texts(SanitizeMessage(userMsg, 40), display, SanitizeMessage(ReplaceFirst(base, PLACEHOLDER, display), 140))
  }

  /**
   * Lines 224-236 as written: both fillings of the placeholder use
   * JavaScript's `replace`, which expands `$` patterns in the message.
   */
  function ConversationAsWritten(opts: Options, pairs: seq<Pair>, rand: real): (c: (string, string))
    requires |pairs| > 0 && 0.0 <= rand < 1.0
    ensures c.0 == Conversation(opts, pairs, rand).0
    ensures opts.msg != "" ==> c == (opts.msg, opts.aiMsg)
  {
    if opts.msg != "" then (opts.msg, opts.aiMsg)
    else
      var p := pairs[DefaultIndex(opts.seed, rand, |pairs|)];
      (p.user, JsReplace(p.ai, PLACEHOLDER, p.user))
  }

  function ChooseTextsAsWritten(opts: Options, pairs: seq<Pair>, rand: real): (t: Texts)
    requires |pairs| > 0 && 0.0 <= rand < 1.0
    ensures t.typing == ChooseTexts(opts, pairs, rand).typing
    ensures t.display == ChooseTexts(opts, pairs, rand).display
  {
    var (userMsg, aiMsg) := ConversationAsWritten(opts, pairs, rand);
    var display := SanitizeMessage(userMsg, 80);
    var base := if aiMsg != "" then aiMsg
      else JsReplace(ROASTS[PickIndex(display, SeedOrZero(opts.seed))], PLACEHOLDER, display);
    Texts(SanitizeMessage(userMsg, 40), display, SanitizeMessage(JsReplace(base, PLACEHOLDER, display), 140))
  }

  /**
   * For a message without `$` the literal replacement changes nothing: the
   * texts are those of the code as written.
   */
  lemma TextsAgree(opts: Options, pairs: seq<Pair>, rand: real)
    requires |pairs| > 0 && 0.0 <= rand < 1.0
    requires '$' !in Conversation(opts, pairs, rand).0
    ensures ConversationAsWritten(opts, pairs, rand) == Conversation(opts, pairs, rand)
    ensures ChooseTextsAsWritten(opts, pairs, rand) == ChooseTexts(opts, pairs, rand)
  {
    var (userMsg, aiMsg) := Conversation(opts, pairs, rand);
    if opts.msg == "" {
      var p := pairs[DefaultIndex(opts.seed, rand, |pairs|)];
      ReplaceAgrees(p.ai, PLACEHOLDER, p.user);
    }
    var display := SanitizeMessage(userMsg, 80);
    SanitizeNoDollar(userMsg, 80);
    var template := ROASTS[PickIndex(display, SeedOrZero(opts.seed))];
    ReplaceAgrees(template, PLACEHOLDER, display);
    var base := if aiMsg != "" then aiMsg else ReplaceFirst(template, PLACEHOLDER, display);
    ReplaceAgrees(base, PLACEHOLDER, display);
  }

  /**
   * Wrapping a cleaned text loses nothing: its lines joined with single
   * spaces give the text back. The bubbles wrap the sanitised message and
   * reply, which are cleaned texts.
   */
  lemma WrapKeepsText(font: Font, text: string, maxWidthPx: int, scale: int, spacing: int)
    requires Normal(text)
    ensures JoinSpace(WrapLines(font, text, maxWidthPx, scale, spacing)) == text
  {
    WrapJoin(font, maxWidthPx, scale, spacing, Words(text), "");
    CleanIsJoinedWords(text);
    CleanFixed(text);
  }

  /** A reply picked from the roasts for a message shows that message in full. */
  lemma PickedRoastShowsMessage(opts: Options, pairs: seq<Pair>, rand: real)
    requires |pairs| > 0 && 0.0 <= rand < 1.0
    requires opts.msg != "" && opts.aiMsg == ""
    ensures var t := ChooseTexts(opts, pairs, rand);
      var picked := ReplaceFirst(ROASTS[PickIndex(t.display, SeedOrZero(opts.seed))], PLACEHOLDER, t.display);
      Contains(picked, t.display)
  {
    var t := ChooseTexts(opts, pairs, rand);
    TemplatesHavePlaceholder();
    ReplaceContains(ROASTS[PickIndex(t.display, SeedOrZero(opts.seed))], PLACEHOLDER, t.display);
  }

  /**
   * The typed message is at most 40 characters long, so it is typed one
   * character per frame: typing frame `j` shows its first `j + 1` characters.
   */
  lemma TypedOneAtATime(opts: Options, pairs: seq<Pair>, rand: real)
    requires |pairs| > 0 && 0.0 <= rand < 1.0
    ensures var typing := ChooseTexts(opts, pairs, rand).typing;
      && TypingStep(|typing|, USER_TYPING_MAX) == 1
      && |UserTyping(typing)| == |typing|
      && forall j :: 0 <= j < |typing| ==> UserTyping(typing)[j] == typing[..j + 1]
  {
    var typing := ChooseTexts(opts, pairs, rand).typing;
    OneAtATime(typing, USER_TYPING_MAX);
  }

  /**
   * An indexed frame that decodes, pixel by pixel, to the colours of the
   * frame `st` as `renderFrame` draws it.
   */
  ghost predicate EncodesFrame(f: seq<byte>, font: Font, width: nat, height: nat, scale: int, st: FrameState,
                               display: string, roast: string)
  {
    && |f| == width * height
    && forall x, y :: 0 <= x < width && 0 <= y < height ==>
         && 0 <= Cell(width, x, y) < |f|
         && f[Cell(width, x, y)] < |PALETTE|
         && Color(f[Cell(width, x, y)]) == RgbOf(FramePixel(font, FrameOps(font, width, height, scale, st, display, roast), x, y))
  }

  /**
   * One iteration of the frame loop: `renderFrame` then `rgbaToIndexed`.
   * The indexed frame decodes exactly to the rendered colours.
   */
  method RenderIndexed(r: Renderer, font: Font, st: FrameState, scale: int, display: string, roast: string,
                       cache: WrapCache) returns (f: seq<byte>)
    requires r.Valid()
    requires cache.Coherent(font, WrapWidth(r.width, scale), scale)
    modifies r.data, cache
    ensures cache.Coherent(font, WrapWidth(r.width, scale), scale)
    ensures EncodesFrame(f, font, r.width, r.height, scale, st, display, roast)
  {
    RenderFrame(r, font, st, scale, display, roast, cache);
    var indexed := RgbaToIndexed(r);
    f := indexed[..];
    forall x, y | 0 <= x < r.width && 0 <= y < r.height
      ensures 0 <= Cell(r.width, x, y) < |f|
      ensures f[Cell(r.width, x, y)] < |PALETTE|
      ensures Color(f[Cell(r.width, x, y)])
           == RgbOf(FramePixel(font, FrameOps(font, r.width, r.height, scale, st, display, roast), x, y))
    {
      assert r.InCanvas(x, y);
      FrameQuantizesExactly(font, r.width, r.height, scale, st, display, roast, x, y);
    }
  }

  /** Frame `k` of `frames` decodes to frame `k` of `script`, for every `k`. */
  ghost predicate EncodesScript(frames: seq<seq<byte>>, font: Font, width: nat, height: nat, scale: int,
                                script: seq<FrameState>, display: string, roast: string)
  {
    && |frames| <= |script|
    && forall k :: 0 <= k < |frames| ==> EncodesFrame(frames[k], font, width, height, scale, script[k], display, roast)
  }

  lemma EncodesSnoc(frames: seq<seq<byte>>, f: seq<byte>, font: Font, width: nat, height: nat, scale: int,
                    script: seq<FrameState>, display: string, roast: string)
    requires EncodesScript(frames, font, width, height, scale, script, display, roast)
    requires |frames| < |script| && EncodesFrame(f, font, width, height, scale, script[|frames|], display, roast)
    ensures EncodesScript(frames + [f], font, width, height, scale, script, display, roast)
  {
    forall k | 0 <= k < |frames| + 1
      ensures EncodesFrame((frames + [f])[k], font, width, height, scale, script[k], display, roast)
    {
      if k < |frames| {
        assert (frames + [f])[k] == frames[k];
      }
    }
  }

  /**
   * `generateGif`: the frames handed to the GIF encoder, each the size of
   * the scaled canvas. There are as many as the script has, at most 120, and
   * frame `k` decodes to frame `k` of the script rendered with the run's texts.
   */
  method GenerateGif(opts: Options, pairs: seq<Pair>, rand: real, font: Font)
    returns (width: nat, height: nat, frames: seq<seq<byte>>)
    requires |pairs| > 0 && 0.0 <= rand < 1.0
    ensures var scale := ClampScale(opts.scale);
      && width == opts.width * scale && height == opts.height * scale
    ensures var t := ChooseTexts(opts, pairs, rand);
      var script := Script(t.typing, t.roast);
      && |frames| == Min(MAX_FRAMES, |script|)
      && EncodesScript(frames, font, width, height, ClampScale(opts.scale), script, t.display, t.roast)
  {
    var scale := ClampScale(opts.scale);
    width, height := opts.width * scale, opts.height * scale;
    var t := ChooseTexts(opts, pairs, rand);
    var all := BuildFrames(t.typing, t.roast);
    var count := Min(MAX_FRAMES, |all|);
    var r := new Renderer(width, height);
    var cache := new WrapCache();
    frames := [];
    for k := 0 to count
      invariant r.Valid() && r.width == width && r.height == height
      invariant cache.Coherent(font, WrapWidth(width, scale), scale)
      invariant |frames| == k
      invariant EncodesScript(frames, font, width, height, scale, all, t.display, t.roast)
    {
      var f := RenderIndexed(r, font, all[k], scale, t.display, t.roast, cache);
      EncodesSnoc(frames, f, font, width, height, scale, all, t.display, t.roast);
      frames := frames + [f];
    }
  }
}
