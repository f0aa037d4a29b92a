/**
 * The animation script (`buildFrames`): an intro, the user's message typed
 * out, the send press, the reply typed out, and an idle tail, as one
 * ordered sequence of frame states.
 */
module Frames {
  import opened Arith

  /** One animation tick, as the compositor consumes it. */
  datatype FrameState = FrameState(
    userInput: string,
    showUserBubble: bool,
    aiText: string,
    sendPressed: bool,
    frameIndex: nat)

  const INTRO: nat := 6
  const SEND_FRAMES: nat := 3
  const IDLE: nat := 24
  const USER_TYPING_MAX: nat := 40
  const AI_TYPING_MAX: nat := 70

  /** `Math.ceil(a / b)` for naturals (the quotient of two small integers is exact in doubles). */
  function CeilDiv(a: nat, b: nat): nat
    requires b > 0
  {
    (a + b - 1) / b
  }

  /** `Math.max(1, Math.ceil(len / cap))`: characters revealed per typing frame. */
  function TypingStep(len: nat, cap: nat): (step: nat)
    requires cap > 0
    ensures step >= 1
  {
    Max(1, CeilDiv(len, cap))
  }

  /**
   * The prefixes a typing loop `for (i = from; i <= |text|; i += step)`
   * reveals, in order: `text[..from]`, `text[..from + step]`, ...
   */
  function Prefixes(text: string, step: nat, from: nat): (ps: seq<string>)
    requires step > 0 && from > 0
    ensures ps != [] ==> from <= |text| && ps[0] == text[..from]
    decreases if from <= |text| then |text| + 1 - from else 0
  {
    if from > |text| then []
    else [text[..from]] + Prefixes(text, step, from + step)
  }

  /** Every revealed prefix is non-empty and at least `from` long, and each is longer than the one before. */
  predicate Growing(text: string, from: nat, ps: seq<string>) {
    && (forall j :: 0 <= j < |ps| ==> ps[j] != "" && ps[j] <= text && from <= |ps[j]|)
    && (forall j, j' :: 0 <= j < j' < |ps| ==> |ps[j]| < |ps[j']|)
  }

  lemma {:induction false} PrefixesGrow(text: string, step: nat, from: nat)
    requires step > 0 && from > 0
    ensures Growing(text, from, Prefixes(text, step, from))
    decreases if from <= |text| then |text| + 1 - from else 0
  {
    if from <= |text| {
      var ps, rest := Prefixes(text, step, from), Prefixes(text, step, from + step);
      PrefixesGrow(text, step, from + step);
      assert ps == [text[..from]] + rest;
      assert text[..from] <= text;
      forall j | 0 < j < |ps| ensures ps[j] == rest[j - 1] { }
    }
  }

  /** The prefixes of the user's message, 40 frames at most. */
  function UserTyping(msg: string): seq<string> {
    Prefixes(msg, TypingStep(|msg|, USER_TYPING_MAX), 1)
  }

  /** The prefixes of the reply, 70 frames at most. */
  function ReplyTyping(roast: string): seq<string> {
    Prefixes(roast, TypingStep(|roast|, AI_TYPING_MAX), 1)
  }

  /** Where the send phase starts. */
  function SendStart(msg: string): nat {
    INTRO + |UserTyping(msg)|
  }

  /** Where the reply-typing phase starts. */
  function ReplyStart(msg: string): nat {
    SendStart(msg) + SEND_FRAMES
  }

  /** Where the idle tail starts. */
  function IdleStart(msg: string, roast: string): nat {
    ReplyStart(msg) + |ReplyTyping(roast)|
  }

  /** The six intro frames: empty input, no bubble. */
  function IntroPhase(): seq<FrameState> {
    seq(INTRO, k requires 0 <= k => FrameState("", false, "", false, k))
  }

  /**
   * A typing frame: before the send the prefix is in the input field with no
   * bubble; after it, the prefix is the reply under the user's bubble.
   */
  function TypingFrame(prefix: string, replying: bool, index: nat): FrameState {
    if replying then FrameState("", true, prefix, false, index)
    else FrameState(prefix, false, "", false, index)
  }

  /** One frame per revealed prefix of `text`, numbered from `start`. */
  function TypingPhase(text: string, cap: nat, replying: bool, start: nat): seq<FrameState>
    requires cap > 0
  {
    var typed := Prefixes(text, TypingStep(|text|, cap), 1);
    seq(|typed|, j requires 0 <= j < |typed| => TypingFrame(typed[j], replying, start + j))
  }

  /** The three send frames: the bubble shows, the button is pressed for the first two. */
  function SendPhase(msg: string): seq<FrameState> {
    seq(SEND_FRAMES, j requires 0 <= j => FrameState("", true, "", j < SEND_FRAMES - 1, SendStart(msg) + j))
  }

  /** The 24 idle frames: the whole reply. */
  function IdlePhase(msg: string, roast: string): seq<FrameState> {
    seq(IDLE, j requires 0 <= j => FrameState("", true, roast, false, IdleStart(msg, roast) + j))
  }

  /** The whole script, phase after phase. */
  function Script(msg: string, roast: string): (frames: seq<FrameState>)
    ensures |frames| == IdleStart(msg, roast) + IDLE
  {
    IntroPhase() + TypingPhase(msg, USER_TYPING_MAX, false, INTRO) + SendPhase(msg)
      + TypingPhase(roast, AI_TYPING_MAX, true, ReplyStart(msg)) + IdlePhase(msg, roast)
  }

  /** Pushing the next element of `b` extends the prefix of `b` after `a` by one. */
  lemma Extend(a: seq<FrameState>, b: seq<FrameState>, n: nat)
    requires n < |b|
    ensures a + b[..n] + [b[n]] == a + b[..n + 1]
  {
    assert b[..n + 1] == b[..n] + [b[n]];
  }

  /** The loop's remaining prefixes are the rest of the phase's prefixes. */
  lemma Advance(all: seq<string>, n: nat, x: string, rest: seq<string>)
    requires n <= |all| && all[n..] == [x] + rest
    ensures n < |all| && all[n] == x && all[n + 1..] == rest
  {
    assert all[n..][0] == all[n];
    assert all[n + 1..] == all[n..][1..];
  }

  /**
   * One typing loop of `buildFrames`: `for (i = 1; i <= |text|; i += step)`
   * pushes the frame showing `text[..i]`.
   */
  method TypeOut(frames: seq<FrameState>, text: string, cap: nat, replying: bool) returns (out: seq<FrameState>)
    requires cap > 0
    ensures out == frames + TypingPhase(text, cap, replying, |frames|)
  {
    ghost var phase, typed := TypingPhase(text, cap, replying, |frames|), Prefixes(text, TypingStep(|text|, cap), 1);
    var step := Max(1, CeilDiv(|text|, cap));
    out := frames;
    var i := 1;
    while i <= |text|
      invariant i >= 1 && |frames| <= |out| <= |frames| + |typed|
      invariant out == frames + phase[..|out| - |frames|]
      invariant typed[|out| - |frames|..] == Prefixes(text, step, i)
      decreases |text| + 1 - i
    {
      Advance(typed, |out| - |frames|, text[..i], Prefixes(text, step, i + step));
      Extend(frames, phase, |out| - |frames|);
      out := out + [TypingFrame(text[..i], replying, |out|)];
      i := i + step;
    }
    assert phase[..|phase|] == phase;
  }

  /** `buildFrames`: the intro, the message typed out, the send press, the reply typed out, the idle tail. */
  method BuildFrames(msg: string, roast: string) returns (frames: seq<FrameState>)
    ensures frames == Script(msg, roast)
  {
    frames := [];
    var i := 0;
    while i < INTRO
      invariant 0 <= i <= INTRO && frames == IntroPhase()[..i]
    {
      Extend([], IntroPhase(), i);
      frames := frames + [FrameState("", false, "", false, |frames|)];
      i := i + 1;
    }
    assert frames == IntroPhase();

    frames := TypeOut(frames, msg, USER_TYPING_MAX, false);

    ghost var done, phase := frames, SendPhase(msg);
    assert |done| == SendStart(msg);
    i := 0;
    while i < SEND_FRAMES
      invariant 0 <= i <= SEND_FRAMES && frames == done + phase[..i]
    {
      Extend(done, phase, i);
      frames := frames + [FrameState("", true, "", i < SEND_FRAMES - 1, |frames|)];
      i := i + 1;
    }
    assert phase[..SEND_FRAMES] == phase;

    frames := TypeOut(frames, roast, AI_TYPING_MAX, true);

    done, phase := frames, IdlePhase(msg, roast);
    assert |done| == IdleStart(msg, roast);
    i := 0;
    while i < IDLE
      invariant 0 <= i <= IDLE && frames == done + phase[..i]
    {
      Extend(done, phase, i);
      frames := frames + [FrameState("", true, roast, false, |frames|)];
      i := i + 1;
    }
    assert phase[..IDLE] == phase;
  }

  /** The typing loop from `from` runs `ceil((|text| - from + 1) / step)` times. */
  lemma {:induction false} PrefixCount(text: string, step: nat, from: nat)
    requires step > 0 && from > 0
    ensures |Prefixes(text, step, from)| == if from > |text| then 0 else CeilDiv(|text| + 1 - from, step)
    decreases if from <= |text| then |text| + 1 - from else 0
  {
    if from <= |text| {
      var d := |text| + 1 - from;
      PrefixCount(text, step, from + step);
      if from + step > |text| {
        DivBlock(d + step - 1, 1, step);
      } else {
        var c' := CeilDiv(d - step, step);
        DivBlock(d - step + step - 1, c', step);
        DivBlock(d + step - 1, c' + 1, step);
      }
    }
  }

  /** The j-th prefix is `text[..from + j * step]`. */
  lemma {:induction false} PrefixAt(text: string, step: nat, from: nat, j: nat)
    requires step > 0 && from > 0 && j < |Prefixes(text, step, from)|
    ensures from + j * step <= |text|
    ensures Prefixes(text, step, from)[j] == text[..from + j * step]
    decreases j
  {
    if j > 0 {
      PrefixAt(text, step, from + step, j - 1);
      assert from + step + (j - 1) * step == from + j * step;
    }
  }

  /** A typing phase has at most `cap` frames, however long the text. */
  lemma TypingCapped(text: string, cap: nat)
    requires cap > 0
    ensures |Prefixes(text, TypingStep(|text|, cap), 1)| <= cap
  {
    var len, s := |text|, TypingStep(|text|, cap);
    PrefixCount(text, s, 1);
    if len > 0 {
      var c := CeilDiv(len, cap);
      DivBlock(len + cap - 1, c, cap);
      var n := CeilDiv(len, s);
      DivBlock(len + s - 1, n, s);
      if n > cap {
        MulMono(cap + 1, n, s);
        MulMono(c, s, cap);
        assert false;
      }
    }
  }

  /** Texts of at most `cap` characters are typed one character per frame. */
  lemma OneAtATime(text: string, cap: nat)
    requires 0 < cap && |text| <= cap
    ensures TypingStep(|text|, cap) == 1
    ensures |Prefixes(text, 1, 1)| == |text|
    ensures forall j :: 0 <= j < |text| ==> Prefixes(text, 1, 1)[j] == text[..j + 1]
  {
    if |text| > 0 {
      DivBlock(|text| + cap - 1, 1, cap);
    }
    PrefixCount(text, 1, 1);
    forall j | 0 <= j < |text| ensures Prefixes(text, 1, 1)[j] == text[..j + 1] {
      PrefixAt(text, 1, 1, j);
    }
  }

  /**
   * The number of frames is `6 + ceil(|msg| / s) + 3 + ceil(|roast| / t) + 24`
   * for the user step `s` and the reply step `t`, with at most 40 and 70
   * typing frames.
   */
  lemma ScriptLength(msg: string, roast: string)
    ensures var s, t := TypingStep(|msg|, USER_TYPING_MAX), TypingStep(|roast|, AI_TYPING_MAX);
      |Script(msg, roast)| == 6 + CeilDiv(|msg|, s) + 3 + CeilDiv(|roast|, t) + 24
    ensures |UserTyping(msg)| <= 40 && |ReplyTyping(roast)| <= 70
    ensures 33 <= |Script(msg, roast)| <= 143
  {
    var s, t := TypingStep(|msg|, USER_TYPING_MAX), TypingStep(|roast|, AI_TYPING_MAX);
    PrefixCount(msg, s, 1);
    PrefixCount(roast, t, 1);
    if msg == [] { DivBlock(s - 1, 0, s); }
    if roast == [] { DivBlock(t - 1, 0, t); }
    TypingCapped(msg, USER_TYPING_MAX);
    TypingCapped(roast, AI_TYPING_MAX);
  }

  /** Two empty strings give the 33 frames of the fixed phases alone. */
  lemma EmptyScript()
    ensures |Script("", "")| == 33
    ensures forall k :: 0 <= k < 33 ==> Script("", "")[k].userInput == "" && Script("", "")[k].aiText == ""
  {
  }

  /**
   * A two-character message and a 66-character reply give
   * 6 + 2 + 3 + 66 + 24 = 101 frames.
   */
  lemma ExampleLength(msg: string, roast: string)
    requires |msg| == 2 && |roast| == 66
    ensures |Script(msg, roast)| == 101
  {
    OneAtATime(msg, USER_TYPING_MAX);
    OneAtATime(roast, AI_TYPING_MAX);
  }

  /**
   * A reply of even length from 72 to 140 is typed two characters at a time
   * from one character on, so its last typing frame shows all but its last
   * character; only the idle frames show it whole.
   */
  lemma LastReplyFrameShort(msg: string, roast: string)
    requires 72 <= |roast| <= 140 && |roast| % 2 == 0
    ensures |ReplyTyping(roast)| == |roast| / 2
    ensures Script(msg, roast)[IdleStart(msg, roast) - 1].aiText == roast[..|roast| - 1]
  {
    var t := TypingStep(|roast|, AI_TYPING_MAX);
    assert t == 2;
    PrefixCount(roast, 2, 1);
    var n := |ReplyTyping(roast)|;
    PrefixAt(roast, 2, 1, n - 1);
    assert 1 + (n - 1) * 2 == |roast| - 1;
  }

  /** Every frame carries its own position in the script. */
  lemma ScriptIndexed(msg: string, roast: string)
    ensures var frames := Script(msg, roast);
      forall k :: 0 <= k < |frames| ==> frames[k].frameIndex == k
  {
  }

  /**
   * Before the send: no bubble, no reply, no press; the intro shows an empty
   * input and the typing frames show non-empty prefixes of the message, each
   * longer than the one before.
   */
  lemma BeforeSend(msg: string, roast: string)
    ensures var frames, s := Script(msg, roast), SendStart(msg);
      && (forall k :: 0 <= k < s ==> !frames[k].showUserBubble && frames[k].aiText == "" && !frames[k].sendPressed)
      && (forall k :: 0 <= k < INTRO ==> frames[k].userInput == "")
      && (forall k :: INTRO <= k < s ==> frames[k].userInput != "" && frames[k].userInput <= msg)
      && (forall k, k' :: INTRO <= k < k' < s ==> |frames[k].userInput| < |frames[k'].userInput|)
  {
    PrefixesGrow(msg, TypingStep(|msg|, USER_TYPING_MAX), 1);
  }

  /**
   * From the send on: the bubble shows and the input is empty; the three send
   * frames have no reply yet and are pressed for the first two only.
   */
  lemma SendPress(msg: string, roast: string)
    ensures var frames, s := Script(msg, roast), SendStart(msg);
      && (forall k :: s <= k < |frames| ==> frames[k].showUserBubble && frames[k].userInput == "")
      && (forall k :: s <= k < s + SEND_FRAMES ==>
            frames[k].aiText == "" && (frames[k].sendPressed <==> k < s + SEND_FRAMES - 1))
  {
  }

  /**
   * The reply: its typing frames show non-empty prefixes of it, each longer
   * than the one before, never pressed; the last 24 frames show it whole.
   */
  lemma ReplyShown(msg: string, roast: string)
    ensures var frames, r, e := Script(msg, roast), ReplyStart(msg), IdleStart(msg, roast);
      && (forall k :: r <= k < |frames| ==> !frames[k].sendPressed)
      && (forall k :: r <= k < e ==> frames[k].aiText != "" && frames[k].aiText <= roast)
      && (forall k, k' :: r <= k < k' < e ==> |frames[k].aiText| < |frames[k'].aiText|)
      && (forall k :: e <= k < |frames| ==> frames[k].aiText == roast)
  {
    PrefixesGrow(roast, TypingStep(|roast|, AI_TYPING_MAX), 1);
  }
}
