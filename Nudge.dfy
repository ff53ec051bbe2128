/**
 * The text shown after a distraction is logged. The remote reply (whose
 * retrieval is not modelled) is trimmed, cut to its first line and to at
 * most 120 code points; when there is no usable reply one of the fixed
 * fallback lines is shown instead.
 */
module Nudge {
  import opened Wrappers
  import Inputs

  const MaxNudgeLength := 120

  const FallbackLines: seq<string> := [
    "Ah yes, the sacred ritual of “just one scroll.”",
    "Congratulations, you unlocked: distraction (again).",
    "Your future self called. It sounded disappointed.",
    "Plot twist: the video will still be there in 20 minutes.",
    "Breaking news: scrolling has not solved your task."
  ]

  /** `s.split("\n")[0]`: the longest prefix of `s` without a line feed. */
  function FirstLine(s: string): (r: string)
    ensures |r| <= |s| && r == s[..|r|]
    ensures '\n' !in r
    ensures r == s || s[|r|] == '\n'
  {
    if s == [] || s[0] == '\n' then []
    else [s[0]] + FirstLine(s[1..])
  }

  /** `s.slice(0, n)`. */
  function Slice(s: string, n: nat): (r: string)
    ensures |r| <= n && |r| <= |s| && r == s[..|r|]
    ensures |r| == n || r == s
  {
    if |s| <= n then s else s[..n]
  }

  /**
   * The nudge made from reply text `text` (already trimmed): a prefix of it,
   * free of line feeds, at most 120 code points, and as long as those two
   * limits allow.
   */
  function NudgeLine(text: string): (r: string)
    ensures |r| <= MaxNudgeLength && |r| <= |text| && r == text[..|r|]
    ensures '\n' !in r
    ensures |r| == MaxNudgeLength || r == text || text[|r|] == '\n'
  {
    var line := FirstLine(text);
    var r := Slice(line, MaxNudgeLength);
    assert forall i :: 0 <= i < |r| ==> r[i] == line[i];
    r
  }

  /** A text that starts with something other than a line feed gives a non-empty nudge. */
  lemma NudgeLineNonEmpty(text: string)
    requires text != [] && text[0] != '\n'
    ensures NudgeLine(text) != []
  {
    var line := FirstLine(text);
    assert line != [] by {
      assert FirstLine(text) == [text[0]] + FirstLine(text[1..]);
    }
  }

  /**
   * `showWittyLine`: `reply` is the raw text at the reply's first candidate,
   * `None` when there was no key, the request failed or the text is absent;
   * `pick` is the index the random draw chose among the fallback lines.
   */
  function Hint(reply: Option<string>, pick: nat): (r: string)
    requires pick < |FallbackLines|
    ensures r != []
    ensures r in FallbackLines ||
            (reply.Some? && r == NudgeLine(Inputs.Trim(reply.value)))
    ensures reply.None? ==> r == FallbackLines[pick]
  {
    var line := match reply
      case Some(t) => if Inputs.Trim(t) == [] then [] else NudgeLine(Inputs.Trim(t))
      case None => [];
    if line == [] then FallbackLines[pick] else line
  }

  /** A non-blank reply is always used (white space never starts a trimmed text). */
  lemma NonBlankReplyIsShown(t: string, pick: nat)
    requires pick < |FallbackLines|
    requires !Inputs.AllSpace(t)
    ensures Hint(Some(t), pick) == NudgeLine(Inputs.Trim(t))
  {
    Inputs.TrimEmptyIff(t);
    var tt := Inputs.Trim(t);
    assert !Inputs.IsSpace(tt[0]);
    NudgeLineNonEmpty(tt);
  }

  /** A blank reply falls back to the chosen local line. */
  lemma BlankReplyFallsBack(t: string, pick: nat)
    requires pick < |FallbackLines|
    requires Inputs.AllSpace(t)
    ensures Hint(Some(t), pick) == FallbackLines[pick]
  {
    Inputs.TrimEmptyIff(t);
  }
}
