/**
 * The reply line: the user's message is cleaned up (`sanitizeMessage`), and
 * when no reply is given one of ten templates is picked by hashing the
 * message and the seed (`xmur3`, `mulberry32`, `pickRoast`) and the message
 * is put in place of its `{msg}` placeholder.
 */
module Roast {
  import opened Arith
  import opened Strings

  // ---------------------------------------------------------------------
  // Whitespace clean-up and truncation
  // ---------------------------------------------------------------------

  /** The length of the run of whitespace that starts `s`. */
  function SpaceEnd(s: string): (n: nat)
    ensures n <= |s|
    ensures forall i :: 0 <= i < n ==> IsSpace(s[i])
    ensures n < |s| ==> !IsSpace(s[n])
    decreases |s|
  {
    if s == [] || !IsSpace(s[0]) then 0 else 1 + SpaceEnd(s[1..])
  }

  /** `s.replace(/\s+/g, " ")`: every maximal run of whitespace becomes one space. */
  function Collapse(s: string): string
    decreases |s|
  {
    if s == [] then ""
    else if IsSpace(s[0]) then " " + Collapse(s[SpaceEnd(s)..])
    else
      var n := RunEnd(s);
      s[..n] + Collapse(s[n..])
  }

  /** Drops the leading whitespace. */
  function TrimStart(s: string): (r: string)
    ensures |r| <= |s| && r == s[|s| - |r|..]
    ensures forall i :: 0 <= i < |s| - |r| ==> IsSpace(s[i])
    ensures r != [] ==> !IsSpace(r[0])
    decreases |s|
  {
    if s != [] && IsSpace(s[0]) then TrimStart(s[1..]) else s
  }

  /** Drops the trailing whitespace. */
  function TrimEnd(s: string): (r: string)
    ensures |r| <= |s| && r == s[..|r|]
    ensures forall i :: |r| <= i < |s| ==> IsSpace(s[i])
    ensures r != [] ==> !IsSpace(r[|r| - 1])
    decreases |s|
  {
    if s != [] && IsSpace(s[|s| - 1]) then TrimEnd(s[..|s| - 1]) else s
  }

  /** `msg.replace(/\s+/g, " ").trim()`. */
  function Clean(msg: string): string {
    TrimEnd(TrimStart(Collapse(msg)))
  }

  /** Every whitespace character is a plain space. */
  ghost predicate Blanks(s: string) {
    forall i :: 0 <= i < |s| && IsSpace(s[i]) ==> s[i] == ' '
  }

  /** No two whitespace characters are adjacent. */
  ghost predicate NoDoubleSpace(s: string) {
    forall i, j :: 0 <= i < j < |s| && j == i + 1 ==> !(IsSpace(s[i]) && IsSpace(s[j]))
  }

  /** The shape of a cleaned message: single plain spaces between non-space runs, none at the ends. */
  ghost predicate Normal(s: string) {
    && Blanks(s)
    && NoDoubleSpace(s)
    && (s != [] ==> !IsSpace(s[0]) && !IsSpace(s[|s| - 1]))
  }

  /** `sanitizeMessage(msg, maxLen)`: the cleaned message, cut to `maxLen` with a trailing "...". */
  function SanitizeMessage(msg: string, maxLen: int): (r: string)
    ensures Normal(r)
    ensures |Clean(msg)| <= maxLen ==> r == Clean(msg)
    ensures |Clean(msg)| > maxLen && maxLen >= 3 ==>
      |r| == maxLen && r[..maxLen - 3] == Clean(msg)[..maxLen - 3] && r[maxLen - 3..] == "..."
    ensures |Clean(msg)| > maxLen && maxLen < 3 ==> r == "..."
  {
    var cleaned := Clean(msg);
    CleanNormal(msg);
    if |cleaned| <= maxLen then cleaned
    else
      var k := Max(0, maxLen - 3);
      TruncatedNormal(cleaned, k);
      cleaned[..k] + "..."
  }

  lemma ConcatBlanks(a: string, b: string)
    requires Blanks(a) && Blanks(b)
    ensures Blanks(a + b)
  {
    forall i | 0 <= i < |a + b| && IsSpace((a + b)[i]) ensures (a + b)[i] == ' ' {
      if i >= |a| { assert (a + b)[i] == b[i - |a|]; }
    }
  }

  lemma ConcatNoDouble(a: string, b: string)
    requires NoDoubleSpace(a) && NoDoubleSpace(b)
    requires a != [] && b != [] ==> !(IsSpace(a[|a| - 1]) && IsSpace(b[0]))
    ensures NoDoubleSpace(a + b)
  {
    var s := a + b;
    forall i, j | 0 <= i < j < |s| && j == i + 1 ensures !(IsSpace(s[i]) && IsSpace(s[j])) {
      if j < |a| {
        assert s[i] == a[i] && s[j] == a[j];
      } else if i >= |a| {
        assert s[i] == b[i - |a|] && s[j] == b[j - |a|];
      } else {
        assert s[i] == a[|a| - 1] && s[j] == b[0];
      }
    }
  }

  lemma SliceShape(s: string, lo: nat, hi: nat)
    requires lo <= hi <= |s| && Blanks(s) && NoDoubleSpace(s)
    ensures Blanks(s[lo..hi]) && NoDoubleSpace(s[lo..hi])
  {
    var t := s[lo..hi];
    forall i, j | 0 <= i < j < |t| && j == i + 1 ensures !(IsSpace(t[i]) && IsSpace(t[j])) {
      assert t[i] == s[lo + i] && t[j] == s[lo + j];
    }
  }

  /** Collapsing leaves only plain single spaces, and keeps a leading non-space character. */
  lemma {:induction false} CollapseShape(s: string)
    ensures Blanks(Collapse(s)) && NoDoubleSpace(Collapse(s))
    ensures s != [] ==> Collapse(s) != [] && (IsSpace(s[0]) <==> IsSpace(Collapse(s)[0]))
    decreases |s|
  {
    if s != [] {
      if IsSpace(s[0]) {
        var t := s[SpaceEnd(s)..];
        CollapseShape(t);
        ConcatBlanks(" ", Collapse(t));
        ConcatNoDouble(" ", Collapse(t));
      } else {
        var n := RunEnd(s);
        var w, t := s[..n], s[n..];
        CollapseShape(t);
        assert !IsSpace(w[n - 1]);
        ConcatBlanks(w, Collapse(t));
        ConcatNoDouble(w, Collapse(t));
      }
    }
  }

  /** A cleaned message is `Normal`. */
  lemma CleanNormal(msg: string)
    ensures Normal(Clean(msg))
  {
    var c := Collapse(msg);
    CollapseShape(msg);
    var t := TrimStart(c);
    TrimStartShape(c);
    TrimEndShape(t);
  }

  lemma TrimStartShape(s: string)
    requires Blanks(s) && NoDoubleSpace(s)
    ensures Blanks(TrimStart(s)) && NoDoubleSpace(TrimStart(s))
  {
    var t := TrimStart(s);
    assert t == s[|s| - |t|..|s|];
    SliceShape(s, |s| - |t|, |s|);
  }

  lemma TrimEndShape(t: string)
    requires Blanks(t) && NoDoubleSpace(t)
    ensures var r := TrimEnd(t); Blanks(r) && NoDoubleSpace(r) && (r != [] ==> r[0] == t[0])
  {
    var r := TrimEnd(t);
    assert r == t[0..|r|];
    SliceShape(t, 0, |r|);
  }

  /** Cutting a normal string and appending "..." keeps it normal. */
  lemma TruncatedNormal(s: string, k: nat)
    requires Normal(s) && k <= |s|
    ensures Normal(s[..k] + "...")
  {
    SliceShape(s, 0, k);
    ConcatBlanks(s[..k], "...");
    ConcatNoDouble(s[..k], "...");
    if k > 0 {
      assert (s[..k] + "...")[0] == s[0];
    }
  }

  /** Collapsing a string whose spaces are already single and plain changes nothing. */
  lemma {:induction false} CollapseFixed(s: string)
    requires Blanks(s) && NoDoubleSpace(s)
    ensures Collapse(s) == s
    decreases |s|
  {
    if s != [] {
      if IsSpace(s[0]) {
        SingleSpace(s);
        SliceShape(s, 1, |s|);
        CollapseFixed(s[1..]);
        CollapseSpaceStep(s);
      } else {
        var n := RunEnd(s);
        SliceShape(s, n, |s|);
        CollapseFixed(s[n..]);
        CollapseWordStep(s);
      }
    }
  }

  lemma CollapseSpaceStep(s: string)
    requires s != [] && s[0] == ' ' && SpaceEnd(s) == 1 && Collapse(s[1..]) == s[1..]
    ensures Collapse(s) == s
  {
    assert s == " " + s[1..];
  }

  lemma CollapseWordStep(s: string)
    requires s != [] && !IsSpace(s[0]) && Collapse(s[RunEnd(s)..]) == s[RunEnd(s)..]
    ensures Collapse(s) == s
  {
    var n := RunEnd(s);
    assert Collapse(s) == s[..n] + Collapse(s[n..]);
    SplitAt(s, n);
  }

  lemma SplitAt(s: string, n: nat)
    requires n <= |s|
    ensures s[..n] + s[n..] == s
  {
  }

  /** In a string with single plain spaces, a leading whitespace run is one space. */
  lemma SingleSpace(s: string)
    requires Blanks(s) && NoDoubleSpace(s) && s != [] && IsSpace(s[0])
    ensures SpaceEnd(s) == 1 && s[0] == ' '
  {
    if |s| > 1 {
      assert !(IsSpace(s[0]) && IsSpace(s[1]));
    }
  }

  /** Cleaning a normal string changes nothing. */
  lemma CleanFixed(s: string)
    requires Normal(s)
    ensures Clean(s) == s
  {
    CollapseFixed(s);
  }

  /** Sanitising twice with the same limit is sanitising once. */
  lemma SanitizeIdempotent(msg: string, maxLen: int)
    ensures SanitizeMessage(SanitizeMessage(msg, maxLen), maxLen) == SanitizeMessage(msg, maxLen)
  {
    var r := SanitizeMessage(msg, maxLen);
    CleanFixed(r);
  }

  // ----- the clean-up and the split into words -----

  /** Skipping leading whitespace does not change the words. */
  lemma {:induction false} WordsSkip(s: string, e: nat)
    requires e <= |s| && forall i :: 0 <= i < e ==> IsSpace(s[i])
    ensures Words(s) == Words(s[e..])
    decreases e
  {
    if e > 0 {
      WordsSkip(s[1..], e - 1);
      assert s[1..][e - 1..] == s[e..];
    }
  }

  /** Whitespace only (or empty). */
  predicate AllSpace(s: string) {
    forall i :: 0 <= i < |s| ==> IsSpace(s[i])
  }

  /** Collapsing a non-empty whitespace-only text gives one space. */
  lemma CollapseBlank(s: string)
    requires s != [] && AllSpace(s)
    ensures Collapse(s) == " "
  {
    assert SpaceEnd(s) == |s|;
  }

  /** `j` with one space in front when `front` holds and one behind when `back` holds. */
  function Framed(front: bool, j: string, back: bool): string {
    (if front then " " else "") + j + (if back then " " else "")
  }

  /** How `Framed` texts are built up from a leading space or a leading word. */
  lemma FramedSteps(w: string, j: string, back: bool)
    ensures Framed(true, j, back) == " " + Framed(false, j, back)
    ensures Framed(false, w + " " + j, back) == w + Framed(true, j, back)
    ensures Framed(false, w, false) == w
    ensures Framed(false, w, true) == w + " "
  {
    var tail := if back then " " else "";
    assert Framed(false, w + " " + j, back) == w + (" " + j + tail);
  }

  /** `CollapseWords` for a text that starts with whitespace, given it for the rest. */
  lemma CollapseLeadSpace(s: string)
    requires s != [] && IsSpace(s[0])
    requires var t := s[SpaceEnd(s)..];
      && t != [] && !IsSpace(t[0]) && Words(t) != []
      && Collapse(t) == Framed(false, JoinSpace(Words(t)), IsSpace(t[|t| - 1]))
    ensures Words(s) != []
    ensures Collapse(s) == Framed(true, JoinSpace(Words(s)), IsSpace(s[|s| - 1]))
  {
    var e := SpaceEnd(s);
    var t := s[e..];
    var back := IsSpace(s[|s| - 1]);
    assert Words(s) == Words(t) by { WordsSkip(s, e); }
    assert IsSpace(t[|t| - 1]) == back by { assert t[|t| - 1] == s[|s| - 1]; }
    assert Collapse(s) == " " + Collapse(t);
    FramedSteps("", JoinSpace(Words(t)), back);
  }

  /** `CollapseWords` for a text that is one word, possibly followed by whitespace. */
  lemma CollapseLastWord(s: string)
    requires s != [] && !IsSpace(s[0]) && AllSpace(s[RunEnd(s)..])
    ensures Words(s) == [s[..RunEnd(s)]]
    ensures Collapse(s) == Framed(false, JoinSpace(Words(s)), IsSpace(s[|s| - 1]))
  {
    var n := RunEnd(s);
    var w, t := s[..n], s[n..];
    assert w[n - 1] == s[n - 1];
    WordsOfBlank(t);
    if t == [] {
      assert s == w;
    } else {
      CollapseBlank(t);
      assert t[|t| - 1] == s[|s| - 1];
    }
    FramedSteps(w, "", IsSpace(s[|s| - 1]));
  }

  /** `CollapseWords` for a text that starts with a word followed by more words, given it for the rest. */
  lemma CollapseLeadWord(s: string)
    requires s != [] && !IsSpace(s[0])
    requires var t := s[RunEnd(s)..];
      && t != [] && Words(t) != []
      && Collapse(t) == Framed(true, JoinSpace(Words(t)), IsSpace(t[|t| - 1]))
    ensures Words(s) != []
    ensures Collapse(s) == Framed(false, JoinSpace(Words(s)), IsSpace(s[|s| - 1]))
  {
    var n := RunEnd(s);
    var w, t := s[..n], s[n..];
    assert t[|t| - 1] == s[|s| - 1];
    var ws := [w] + Words(t);
    assert ws[1..] == Words(t);
    var j := JoinSpace(Words(t));
    assert JoinSpace(ws) == w + " " + j;
    FramedSteps(w, j, IsSpace(s[|s| - 1]));
  }

  /**
   * Collapsing a text that holds a non-whitespace character gives its words
   * joined with single spaces, with one space in front when the text starts
   * with whitespace and one behind when it ends with whitespace.
   */
  lemma {:induction false} CollapseWords(s: string, k: nat)
    requires k < |s| && !IsSpace(s[k])
    ensures Words(s) != []
    ensures Collapse(s) == Framed(IsSpace(s[0]), JoinSpace(Words(s)), IsSpace(s[|s| - 1]))
    decreases |s|
  {
    if IsSpace(s[0]) {
      var e := SpaceEnd(s);
      var t := s[e..];
      assert e <= k && t[k - e] == s[k];
      CollapseWords(t, k - e);
      CollapseLeadSpace(s);
    } else {
      var n := RunEnd(s);
      var t := s[n..];
      if AllSpace(t) {
        CollapseLastWord(s);
      } else {
        var i :| 0 <= i < |t| && !IsSpace(t[i]);
        assert t[0] == s[n];
        CollapseWords(t, i);
        CollapseLeadWord(s);
      }
    }
  }

  /** Trimming a framed text whose ends are not whitespace removes the frame. */
  lemma TrimFramed(front: bool, j: string, back: bool)
    requires j != [] && !IsSpace(j[0]) && !IsSpace(j[|j| - 1])
    ensures TrimEnd(TrimStart(Framed(front, j, back))) == j
  {
    var x := j + (if back then " " else "");
    assert x[0] == j[0];
    assert TrimStart(x) == x;
    if front {
      assert Framed(front, j, back) == " " + x;
      assert (" " + x)[1..] == x;
    } else {
      assert Framed(front, j, back) == x;
    }
    if back {
      assert x[..|j|] == j;
    }
  }

  /** Words joined with single spaces start and end with a non-whitespace character. */
  lemma {:induction false} JoinEnds(ws: seq<string>)
    requires ws != [] && forall i :: 0 <= i < |ws| ==> IsWord(ws[i])
    ensures var j := JoinSpace(ws); j != [] && !IsSpace(j[0]) && !IsSpace(j[|j| - 1])
    decreases |ws|
  {
    if |ws| > 1 {
      JoinEnds(ws[1..]);
      var rest := JoinSpace(ws[1..]);
      assert JoinSpace(ws) == ws[0] + " " + rest;
      assert ws[0][0] != ' ' && !IsSpace(ws[0][0]);
    }
  }

  /**
   * `msg.replace(/\s+/g, " ").trim()` is `msg.split(/\s+/).filter(Boolean).join(" ")`:
   * the split keeps every non-whitespace character in order and breaks
   * exactly at the whitespace runs.
   */
  lemma CleanIsJoinedWords(s: string)
    ensures Clean(s) == JoinSpace(Words(s))
  {
    if AllSpace(s) {
      WordsOfBlank(s);
      if s != [] {
        CollapseBlank(s);
        assert TrimStart(" ") == TrimStart("");
      }
    } else {
      var k :| 0 <= k < |s| && !IsSpace(s[k]);
      CollapseWords(s, k);
      JoinEnds(Words(s));
      TrimFramed(IsSpace(s[0]), JoinSpace(Words(s)), IsSpace(s[|s| - 1]));
    }
  }

  /** A slice of a text without `$` has no `$`. */
  lemma SliceNoDollar(s: string, lo: nat, hi: nat)
    requires lo <= hi <= |s| && '$' !in s
    ensures '$' !in s[lo..hi]
  {
    forall i | 0 <= i < hi - lo ensures s[lo..hi][i] != '$' {
      assert s[lo..hi][i] == s[lo + i];
    }
  }

  /** The clean-up introduces no `$`: its characters come from the text, or are spaces. */
  lemma {:induction false} CollapseNoDollar(s: string)
    requires '$' !in s
    ensures '$' !in Collapse(s)
    decreases |s|
  {
    if s != [] {
      if IsSpace(s[0]) {
        SliceNoDollar(s, SpaceEnd(s), |s|);
        CollapseNoDollar(s[SpaceEnd(s)..]);
      } else {
        var n := RunEnd(s);
        SliceNoDollar(s, 0, n);
        SliceNoDollar(s, n, |s|);
        CollapseNoDollar(s[n..]);
      }
    }
  }

  /** A message without `$` is sanitised to a text without `$`. */
  lemma SanitizeNoDollar(msg: string, maxLen: int)
    requires '$' !in msg
    ensures '$' !in SanitizeMessage(msg, maxLen)
  {
    var c := Collapse(msg);
    CollapseNoDollar(msg);
    var t := TrimStart(c);
    SliceNoDollar(c, |c| - |t|, |c|);
    var r := TrimEnd(t);
    SliceNoDollar(t, 0, |r|);
    assert r == Clean(msg);
    if |r| > maxLen {
      SliceNoDollar(r, 0, Max(0, maxLen - 3));
    }
  }

  // ---------------------------------------------------------------------
  // Literal search and replacement
  // ---------------------------------------------------------------------

  /** `t` occurs in `s` at position `k`. */
  predicate MatchAt(s: string, t: string, k: int) {
    0 <= k && k + |t| <= |s| && s[k..k + |t|] == t
  }

  /** `t` occurs in `s`. */
  ghost predicate Contains(s: string, t: string) {
    exists k :: MatchAt(s, t, k)
  }

  /** The first position at or after `from` where `pat` occurs in `s`, or -1. */
  function IndexFrom(s: string, pat: string, from: nat): (k: int)
    ensures k == -1 || (from <= k && MatchAt(s, pat, k))
    ensures k == -1 ==> forall j :: from <= j ==> !MatchAt(s, pat, j)
    ensures k != -1 ==> forall j :: from <= j < k ==> !MatchAt(s, pat, j)
    decreases |s| - from
  {
    if from + |pat| > |s| then -1
    else if s[from..from + |pat|] == pat then from
    else IndexFrom(s, pat, from + 1)
  }

  /** `s.indexOf(pat)`. */
  function IndexOf(s: string, pat: string): int {
    IndexFrom(s, pat, 0)
  }

  /**
   * The replacement the code means by `s.replace(pat, rep)`: the first
   * occurrence of `pat` becomes `rep`, taken literally.
   */
  function ReplaceFirst(s: string, pat: string, rep: string): (r: string)
    ensures IndexOf(s, pat) < 0 ==> r == s
    ensures IndexOf(s, pat) >= 0 ==>
      var k := IndexOf(s, pat);
      && |r| == |s| - |pat| + |rep|
      && r[..k] == s[..k] && r[k..k + |rep|] == rep && r[k + |rep|..] == s[k + |pat|..]
  {
    var k := IndexOf(s, pat);
    if k < 0 then s else s[..k] + rep + s[k + |pat|..]
  }

  /**
   * ECMAScript GetSubstitution with no capture groups: in the replacement
   * string `$$` stands for "$", `$&` for the matched text, `` $` `` for the
   * text before the match and `$'` for the text after it; any other `$` is
   * kept as it is.
   */
  function Substitution(rep: string, matched: string, before: string, after: string): string
    decreases |rep|
  {
    if rep == [] then ""
    else if rep[0] == '$' && |rep| >= 2 && rep[1] in "$&`'" then
      var expansion :=
        if rep[1] == '$' then "$"
        else if rep[1] == '&' then matched
        else if rep[1] == '`' then before
        else after;
      expansion + Substitution(rep[2..], matched, before, after)
    else [rep[0]] + Substitution(rep[1..], matched, before, after)
  }

  /** `s.replace(pat, rep)` as ECMAScript evaluates it for a string pattern. */
  function JsReplace(s: string, pat: string, rep: string): string {
    var k := IndexOf(s, pat);
    if k < 0 then s
    else s[..k] + Substitution(rep, s[k..k + |pat|], s[..k], s[k + |pat|..]) + s[k + |pat|..]
  }

  /** Without a `$` in the replacement, substitution is the replacement itself. */
  lemma {:induction false} SubstitutionPlain(rep: string, matched: string, before: string, after: string)
    requires '$' !in rep
    ensures Substitution(rep, matched, before, after) == rep
    decreases |rep|
  {
    if rep != [] {
      assert '$' !in rep[1..];
      SubstitutionPlain(rep[1..], matched, before, after);
    }
  }

  /** The two replacements agree whenever the replacement text holds no `$`. */
  lemma ReplaceAgrees(s: string, pat: string, rep: string)
    requires '$' !in rep
    ensures JsReplace(s, pat, rep) == ReplaceFirst(s, pat, rep)
  {
    var k := IndexOf(s, pat);
    if k >= 0 {
      var before, matched, after := s[..k], s[k..k + |pat|], s[k + |pat|..];
      SubstitutionPlain(rep, matched, before, after);
      assert JsReplace(s, pat, rep) == before + rep + after;
    }
  }

  /** The corrected replacement puts the whole of `rep` into the result when `pat` occurs. */
  lemma ReplaceContains(s: string, pat: string, rep: string)
    requires IndexOf(s, pat) >= 0
    ensures Contains(ReplaceFirst(s, pat, rep), rep)
  {
    var r, k := ReplaceFirst(s, pat, rep), IndexOf(s, pat);
    assert MatchAt(r, rep, k);
  }

  // ---------------------------------------------------------------------
  // Templates
  // ---------------------------------------------------------------------

  const PLACEHOLDER: string := "{msg}"

  /** The ten templates of `ROASTS`, each as its text before and after the placeholder. */
  const ROAST_PARTS: seq<(string, string)> := [
    ("That's cute. Even my error handler has better logic than: ", "."),
    ("I've seen prettier output from a broken printer than: ", "."),
    ("You call that a message? My lint warnings are more coherent than: ", "."),
    ("Bold take. Unfortunately, ", " reads like a TODO you never finished."),
    ("If ", " were a commit, it would be 'fix stuff' without tests."),
    ("I'm not saying ", " is bad, but it should come with a rollback plan."),
    ("", "? That's a feature request from someone who never read the docs."),
    ("I've parsed JSON with fewer errors than ", "."),
    ("", " looks like it was typed with a rubber duck on the keyboard."),
    ("That was brave. And by brave, I mean questionable: ", ".")
  ]

  /** Each pair of parts joined around the placeholder. */
  function Templates(parts: seq<(string, string)>): (ts: seq<string>)
    ensures |ts| == |parts|
    ensures forall i :: 0 <= i < |parts| ==> ts[i] == parts[i].0 + PLACEHOLDER + parts[i].1
  {
    if parts == [] then [] else [parts[0].0 + PLACEHOLDER + parts[0].1] + Templates(parts[1..])
  }

  /** `ROASTS`. */
  const ROASTS: seq<string> := Templates(ROAST_PARTS)

  lemma MatchInMiddle(before: string, pat: string, after: string)
    ensures MatchAt(before + pat + after, pat, |before|)
  {
    assert (before + pat + after)[|before|..|before| + |pat|] == pat;
  }

  /** A string in which `pat` occurs at some position is one `indexOf` finds `pat` in. */
  lemma FoundWhereMatched(s: string, pat: string, k: int)
    requires MatchAt(s, pat, k)
    ensures 0 <= IndexOf(s, pat) <= k
  {
  }

  /** There are ten templates, and `indexOf` finds the placeholder in each. */
  lemma TemplatesHavePlaceholder()
    ensures |ROASTS| == 10
    ensures forall i :: 0 <= i < |ROASTS| ==> IndexOf(ROASTS[i], PLACEHOLDER) >= 0
  {
    forall i | 0 <= i < |ROASTS| ensures IndexOf(ROASTS[i], PLACEHOLDER) >= 0 {
      var before, after := ROAST_PARTS[i].0, ROAST_PARTS[i].1;
      MatchInMiddle(before, PLACEHOLDER, after);
      FoundWhereMatched(ROASTS[i], PLACEHOLDER, |before|);
    }
  }

  // ---------------------------------------------------------------------
  // Hashing on 32-bit words
  // ---------------------------------------------------------------------

  const TWO_32: int := 0x1_0000_0000

  /** ECMAScript ToUint32 of an integer: the value modulo 2^32, as a 32-bit word. */
  function ToUint32(n: int): bv32 {
    (n % TWO_32) as bv32
  }

  /** `str.charCodeAt(i)` for a character of the Basic Multilingual Plane. */
  function CodeUnit(c: char): bv32 {
    (c as int) as bv32
  }

  /** One round of `xmur3`'s loop: `h = imul(h ^ c, 3432918353)`, then rotate left by 13. */
  function Mix(h: bv32, c: char): bv32 {
    var m := (h ^ CodeUnit(c)) * 3432918353;
    (m << 13) | (m >> 19)
  }

  /** The loop over the characters of `s`, from state `h`. */
  function Absorb(h: bv32, s: string): bv32
    decreases |s|
  {
    if s == [] then h else Absorb(Mix(h, s[0]), s[1..])
  }

  /** The state `xmur3(str)` closes over: `1779033703 ^ str.length`, then the loop. */
  function XmurState(str: string): bv32 {
    Absorb(1779033703 ^ ToUint32(|str|), str)
  }

  /** The generator `xmur3` returns: two multiply-xorshift rounds and a final xorshift. */
  function Finalize(h: bv32): bv32 {
    var a := (h ^ (h >> 16)) * 2246822507;
    var b := (a ^ (a >> 13)) * 3266489909;
    b ^ (b >> 16)
  }

  /** `mulberry32`'s output function on the incremented seed `t`. */
  function Temper(t: bv32): bv32 {
    var a := (t ^ (t >> 15)) * (t | 1);
    var b := a ^ (a + (a ^ (a >> 7)) * (a | 61));
    b ^ (b >> 14)
  }

  /** The closure returned by `xmur3(str)`, with its captured state `h`. */
  class Xmur3 {
    var h: bv32

    constructor (str: string)
      ensures h == XmurState(str)
    {
      var state: bv32 := 1779033703 ^ ToUint32(|str|);
      var i := 0;
      while i < |str|
        invariant 0 <= i <= |str|
        invariant Absorb(state, str[i..]) == XmurState(str)
      {
        assert str[i..][1..] == str[i + 1..];
        state := Mix(state, str[i]);
        i := i + 1;
      }
      h := state;
    }

    /** One call of the generator; it returns `h >>> 0`. */
    method Next() returns (x: bv32)
      modifies this
      ensures h == Finalize(old(h)) && x == h
    {
      h := Finalize(h);
      x := h;
    }
  }

  /**
   * The closure returned by `mulberry32(seed)`. The captured seed is a
   * JavaScript number that grows by 0x6d2b79f5 per call and is used modulo
   * 2^32; kept as a 32-bit word, it is exact while the number stays below
   * 2^53.
   */
  class Mulberry32 {
    var seed: bv32

    constructor (seed: bv32)
      ensures this.seed == seed
    {
      this.seed := seed;
    }

    /** One call; the result is `x / 2^32` for the returned word `x`. */
    method Next() returns (x: bv32)
      modifies this
      ensures seed == old(seed) + 0x6d2b79f5
      ensures x == Output(old(seed))
    {
      x := Output(seed);
      seed := seed + 0x6d2b79f5;
    }
  }

  // ---------------------------------------------------------------------
  // Decimal rendering of the seed
  // ---------------------------------------------------------------------

  function Digit(d: nat): char
    requires d < 10
  {
    "0123456789"[d]
  }

  /** The decimal digits of `n`, most significant first, without leading zeros. */
  function Digits(n: nat): (s: string)
    ensures |s| >= 1
    ensures forall i :: 0 <= i < |s| ==> '0' <= s[i] <= '9'
    ensures n > 0 ==> s[0] != '0'
    decreases n
  {
    if n < 10 then [Digit(n)] else Digits(n / 10) + [Digit(n % 10)]
  }

  /** `String(n)` for an integer `n`. */
  function DecimalString(n: int): string {
    if n < 0 then "-" + Digits(-n) else Digits(n)
  }

  /** The value of a string of decimal digits. */
  function DigitsValue(s: string): int
    decreases |s|
  {
    if s == [] then 0 else 10 * DigitsValue(s[..|s| - 1]) + (s[|s| - 1] as int - '0' as int)
  }

  /** The digit character of `d` has code `'0' + d`. */
  lemma DigitCode(d: nat)
    requires d < 10
    ensures Digit(d) as int - '0' as int == d
  {
  }

  /** Reading the digits back gives the number. */
  lemma {:induction false} DigitsRoundTrip(n: nat)
    ensures DigitsValue(Digits(n)) == n
    decreases n
  {
    var s := Digits(n);
    if n < 10 {
      DigitCode(n);
      assert s == [Digit(n)] && s[..0] == [];
    } else {
      DigitsRoundTrip(n / 10);
      DigitCode(n % 10);
      assert s[..|s| - 1] == Digits(n / 10) && s[|s| - 1] == Digit(n % 10);
    }
  }

  // ---------------------------------------------------------------------
  // The pick
  // ---------------------------------------------------------------------

  /** The seed `mulberry32` gets: the first output of `xmur3(str)`. */
  function HashOf(str: string): bv32 {
    Finalize(XmurState(str))
  }

  /** What a `mulberry32` generator returns when its captured seed is `seed`. */
  function Output(seed: bv32): bv32 {
    Temper(seed + 0x6d2b79f5)
  }

  /** The word `pickRoast` draws for the hashed string. */
  function Draw(str: string): bv32 {
    Output(HashOf(str))
  }

  /**
   * The template index for the drawn word `x`: `floor(x / 2^32 * 10)`,
   * which is the integer quotient of `x * 10` by 2^32.
   */
  function IndexOfDraw(x: bv32): (i: nat)
    ensures i < |ROASTS|
  {
    var n := x as int;
    FloorIsQuotient(n);
    (n * 10) / TWO_32
  }

  /**
   * `n / 2^32 * 10` is exact for `n < 2^32`, so its floor is the integer
   * quotient of `n * 10` by 2^32, which is below 10.
   */
  lemma FloorIsQuotient(n: int)
    requires 0 <= n < TWO_32
    ensures ((n as real / 4294967296.0) * 10.0).Floor == (n * 10) / TWO_32
    ensures 0 <= (n * 10) / TWO_32 < 10
  {
    var d, m := (n * 10) / TWO_32, (n * 10) % TWO_32;
    assert n * 10 == d * TWO_32 + m;
    DivBlock(n * 10, d, TWO_32);
    var u := (n as real / 4294967296.0) * 10.0;
    assert u == d as real + m as real / 4294967296.0;
  }

  /** The index `pickRoast(msg, seed)` uses. */
  function PickIndex(msg: string, seed: int): (i: nat)
    ensures i < |ROASTS|
  {
    IndexOfDraw(Draw(msg + DecimalString(seed)))
  }

  /** `xmur3(str)()`: a fresh generator, called once. */
  method HashWord(str: string) returns (h: bv32)
    ensures h == HashOf(str)
  {
    var hasher := new Xmur3(str);
    h := hasher.Next();
  }

  /** `mulberry32(seed)()`: a fresh generator, called once. */
  method FirstDraw(seed: bv32) returns (x: bv32)
    ensures x == Output(seed)
  {
    var rng := new Mulberry32(seed);
    x := rng.Next();
  }

  /** The word `pickRoast` draws: `mulberry32(xmur3(str)())()`. */
  method DrawWord(str: string) returns (x: bv32)
    ensures x == Draw(str)
  {
    var h := HashWord(str);
    x := FirstDraw(h);
  }

  /**
   * `Math.floor(rand() * ROASTS.length) % ROASTS.length` for the draw
   * `rand() = x / 2^32`, in exact real arithmetic: it is the integer
   * quotient of `x * 10` by 2^32, already below 10, so the remainder
   * leaves it as it is.
   */
  method ScaleToIndex(x: bv32) returns (idx: nat)
    ensures idx == IndexOfDraw(x) && idx < |ROASTS|
  {
    var n := x as int;
    FloorIsQuotient(n);
    var q := ((n as real / 4294967296.0) * 10.0).Floor;
    assert q == IndexOfDraw(x);
    ModSmall(q, |ROASTS|);
    idx := q % |ROASTS|;
  }

  /**
   * `pickRoast(msg, seed)` with the literal replacement: template
   * `PickIndex(msg, seed)` with the message in place of its placeholder.
   */
  method PickRoast(msg: string, seed: int) returns (r: string)
    ensures r == ReplaceFirst(ROASTS[PickIndex(msg, seed)], PLACEHOLDER, msg)
    ensures Contains(r, msg)
  {
    var x := DrawWord(msg + DecimalString(seed));
    var idx := ScaleToIndex(x);
    assert idx == PickIndex(msg, seed);
    r := ReplaceFirst(ROASTS[idx], PLACEHOLDER, msg);
    TemplatesHavePlaceholder();
    ReplaceContains(ROASTS[idx], PLACEHOLDER, msg);
  }

  /**
   * As written, `s.replace(pat, "$&")` puts the matched text back: the
   * string comes back unchanged, where the literal replacement differs from
   * it whenever `pat` is not two characters long.
   */
  lemma DollarAmpersandEchoes(s: string, pat: string)
    requires IndexOf(s, pat) >= 0
    ensures JsReplace(s, pat, "$&") == s
    ensures |pat| != 2 ==> JsReplace(s, pat, "$&") != ReplaceFirst(s, pat, "$&")
  {
    var k := IndexOf(s, pat);
    var matched := s[k..k + |pat|];
    assert Substitution("$&", matched, s[..k], s[k + |pat|..]) == matched by {
      assert "$&"[2..] == "";
    }
    assert s == s[..k] + matched + s[k + |pat|..];
  }

  /**
   * So `pickRoast` as written, given the message "$&", returns the template
   * unchanged, placeholder and all, and not the template with the message.
   */
  lemma DollarMessageLost(i: nat)
    requires i < |ROASTS|
    ensures JsReplace(ROASTS[i], PLACEHOLDER, "$&") == ROASTS[i]
    ensures JsReplace(ROASTS[i], PLACEHOLDER, "$&") != ReplaceFirst(ROASTS[i], PLACEHOLDER, "$&")
  {
    TemplatesHavePlaceholder();
    DollarAmpersandEchoes(ROASTS[i], PLACEHOLDER);
  }
}
