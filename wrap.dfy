/**
 * Greedy word wrap (`wrapText`): words are appended to the current line
 * while the line, measured with the fixed glyph advance, stays within the
 * target width; a word that does not fit starts a new line. Words are never
 * split, so a word wider than the target is a line of its own.
 */
module Wrap {
  import opened Strings
  import opened Glyphs

  /** `wordWidth`: (FONT_W + spacing) * scale * length - spacing * scale. */
  function WordWidth(font: Font, scale: int, spacing: int, word: string): int {
    (font.w + spacing) * scale * |word| - spacing * scale
  }

  /**
   * The lines produced from the remaining `words` when the line being built
   * is `current` (empty before the first word).
   */
  function WrapFrom(font: Font, maxWidthPx: int, scale: int, spacing: int, words: seq<string>, current: string): seq<string>
    decreases |words|
  {
    if words == [] then
      if current == "" then [] else [current]
    else if current == "" then
      WrapFrom(font, maxWidthPx, scale, spacing, words[1..], words[0])
    else
      var candidate := current + " " + words[0];
      if WordWidth(font, scale, spacing, candidate) <= maxWidthPx then
        WrapFrom(font, maxWidthPx, scale, spacing, words[1..], candidate)
      else
        [current] + WrapFrom(font, maxWidthPx, scale, spacing, words[1..], words[0])
  }

  /** The lines `wrapText(text, maxWidthPx, scale, spacing)` returns. */
  function WrapLines(font: Font, text: string, maxWidthPx: int, scale: int, spacing: int): seq<string> {
    WrapFrom(font, maxWidthPx, scale, spacing, Words(text), "")
  }

  /** A line that holds more than one word fits the target width. */
  predicate Fits(font: Font, maxWidthPx: int, scale: int, spacing: int, line: string) {
    ' ' in line ==> WordWidth(font, scale, spacing, line) <= maxWidthPx
  }

  predicate AllWords(words: seq<string>) {
    forall i :: 0 <= i < |words| ==> IsWord(words[i])
  }

  /** `wrapText`, as the accumulator loop over the words. */
  method WrapText(font: Font, text: string, maxWidthPx: int, scale: int, spacing: int) returns (lines: seq<string>)
    ensures lines == WrapLines(font, text, maxWidthPx, scale, spacing)
    ensures JoinSpace(lines) == JoinSpace(Words(text))
    ensures forall i :: 0 <= i < |lines| ==> lines[i] != "" && Fits(font, maxWidthPx, scale, spacing, lines[i])
    ensures |lines| <= |Words(text)|
  {
    var words := Words(text);
    lines := [];
    var current := "";
    var i := 0;
    while i < |words|
      invariant 0 <= i <= |words|
      invariant lines + WrapFrom(font, maxWidthPx, scale, spacing, words[i..], current)
             == WrapFrom(font, maxWidthPx, scale, spacing, words, "")
    {
      var word := words[i];
      assert words[i..][1..] == words[i + 1..];
      if current == "" {
        current := word;
      } else {
        var candidate := current + " " + word;
        if WordWidth(font, scale, spacing, candidate) <= maxWidthPx {
          current := candidate;
        } else {
          lines := lines + [current];
          current := word;
        }
      }
      i := i + 1;
    }
    if current != "" {
      lines := lines + [current];
    }
    assert lines == WrapLines(font, text, maxWidthPx, scale, spacing);
    WrapJoin(font, maxWidthPx, scale, spacing, words, "");
    WrapShape(font, maxWidthPx, scale, spacing, words, "");
  }

  lemma JoinCons(a: string, rest: seq<string>)
    ensures JoinSpace([a] + rest) == if rest == [] then a else a + " " + JoinSpace(rest)
  {
    assert ([a] + rest)[1..] == rest;
  }

  /**
   * No word is lost or duplicated: joining the lines with single spaces gives
   * the words joined with single spaces (after `current`, if any).
   */
  lemma {:induction false} WrapJoin(font: Font, maxWidthPx: int, scale: int, spacing: int, words: seq<string>, current: string)
    requires AllWords(words)
    ensures var lines := WrapFrom(font, maxWidthPx, scale, spacing, words, current);
      && (current != "" ==> lines != [])
      && JoinSpace(lines) == JoinSpace(if current == "" then words else [current] + words)
    decreases |words|
  {
    if words == [] {
      assert [current] + words == [current];
    } else {
      var w, rest := words[0], words[1..];
      assert words == [w] + rest;
      if current == "" {
        WrapJoin(font, maxWidthPx, scale, spacing, rest, w);
      } else {
        var candidate := current + " " + w;
        JoinCons(current, words);
        JoinCons(w, rest);
        if WordWidth(font, scale, spacing, candidate) <= maxWidthPx {
          WrapJoin(font, maxWidthPx, scale, spacing, rest, candidate);
          JoinCons(candidate, rest);
        } else {
          var tail := WrapFrom(font, maxWidthPx, scale, spacing, rest, w);
          WrapJoin(font, maxWidthPx, scale, spacing, rest, w);
          JoinCons(current, tail);
        }
      }
    }
  }

  /**
   * Every line is non-empty, every line holding a space fits, and there are
   * no more lines than words (plus the pending line `current`).
   */
  lemma {:induction false} WrapShape(font: Font, maxWidthPx: int, scale: int, spacing: int, words: seq<string>, current: string)
    requires AllWords(words)
    requires Fits(font, maxWidthPx, scale, spacing, current)
    ensures var lines := WrapFrom(font, maxWidthPx, scale, spacing, words, current);
      && (forall i :: 0 <= i < |lines| ==> lines[i] != "" && Fits(font, maxWidthPx, scale, spacing, lines[i]))
      && |lines| <= |words| + (if current == "" then 0 else 1)
    decreases |words|
  {
    if words != [] {
      var w, rest := words[0], words[1..];
      assert ' ' !in w by {
        assert IsWord(words[0]);
        assert IsSpace(' ');
      }
      if current == "" {
        WrapShape(font, maxWidthPx, scale, spacing, rest, w);
      } else {
        var candidate := current + " " + w;
        if WordWidth(font, scale, spacing, candidate) <= maxWidthPx {
          WrapShape(font, maxWidthPx, scale, spacing, rest, candidate);
        } else {
          WrapShape(font, maxWidthPx, scale, spacing, rest, w);
        }
      }
    }
  }

  /** Whitespace-only text wraps to no lines at all. */
  lemma WrapBlank(font: Font, text: string, maxWidthPx: int, scale: int, spacing: int)
    requires forall i :: 0 <= i < |text| ==> IsSpace(text[i])
    ensures WrapLines(font, text, maxWidthPx, scale, spacing) == []
  {
    WordsOfBlank(text);
  }

  /** Measured width grows with length when the advance is non-negative. */
  lemma WidthMono(font: Font, scale: int, spacing: int, a: string, b: string)
    requires (font.w + spacing) * scale >= 0 && |a| <= |b|
    ensures WordWidth(font, scale, spacing, a) <= WordWidth(font, scale, spacing, b)
  {
    var k := (font.w + spacing) * scale;
    assert k * |b| - k * |a| == k * (|b| - |a|);
  }

  /** A line starting from a word too wide for the target is that word alone. */
  lemma {:induction false} OverwideFirst(font: Font, maxWidthPx: int, scale: int, spacing: int, words: seq<string>, w: string)
    requires (font.w + spacing) * scale >= 0
    requires w != "" && WordWidth(font, scale, spacing, w) > maxWidthPx
    ensures var lines := WrapFrom(font, maxWidthPx, scale, spacing, words, w); lines != [] && lines[0] == w
  {
    if words != [] {
      WidthMono(font, scale, spacing, w, w + " " + words[0]);
    }
  }

  /**
   * A word wider than the target width is never joined to another word:
   * it is emitted whole, as a line of its own.
   */
  lemma {:induction false} OverwideAlone(font: Font, maxWidthPx: int, scale: int, spacing: int, words: seq<string>, current: string, w: string)
    requires (font.w + spacing) * scale >= 0
    requires AllWords(words) && w in words && WordWidth(font, scale, spacing, w) > maxWidthPx
    ensures w in WrapFrom(font, maxWidthPx, scale, spacing, words, current)
    decreases |words|
  {
    var v, rest := words[0], words[1..];
    assert IsWord(v);
    if v == w {
      if current == "" {
        OverwideFirst(font, maxWidthPx, scale, spacing, rest, w);
      } else {
        WidthMono(font, scale, spacing, w, current + " " + w);
        OverwideFirst(font, maxWidthPx, scale, spacing, rest, w);
      }
    } else {
      assert w in rest;
      var next := if current == "" then v
        else if WordWidth(font, scale, spacing, current + " " + v) <= maxWidthPx then current + " " + v
        else v;
      OverwideAlone(font, maxWidthPx, scale, spacing, rest, next, w);
    }
  }
}
