/**
 * How the mini quiz grades its two answers (script.js:159-166).
 */
module Quiz {
  import opened JsText

  /** Question 1 is right when the trimmed answer is exactly "1992". */
  predicate YearRight(q1: string) {
    Trim(q1) == "1992"
  }

  /** Question 2 is right when the lower-cased answer mentions "native" anywhere. */
  predicate ActRight(q2: string) {
    Includes(ToLower(q2), "native")
  }

  /** The score out of 2: one point per right answer. */
  function Score(q1: string, q2: string): (score: nat)
    ensures score <= 2
    ensures score == 2 <==> YearRight(q1) && ActRight(q2)
    ensures score == 0 <==> !YearRight(q1) && !ActRight(q2)
  {
    (if YearRight(q1) then 1 else 0) + (if ActRight(q2) then 1 else 0)
  }

  /** White space around "1992" (spaces, tabs, line breaks, ...) still earns the point. */
  lemma PaddedYearIsRight(pre: string, post: string)
    requires AllWhiteSpace(pre) && AllWhiteSpace(post)
    ensures YearRight(pre + "1992" + post)
  {
    TrimPadded(pre, "1992", post);
  }

  /** Any text containing "native", in whatever letter case ("Native Title Act"),
      earns the second point. */
  lemma MentioningNativeIsRight(pre: string, w: string, post: string)
    requires ToLower(w) == "native"
    ensures ActRight(pre + w + post)
  {
    ToLowerConcat(pre, w, post);
    IncludesInContext(ToLower(pre), "native", ToLower(post));
  }

  /** The sample answer the quiz suggests earns the second point. */
  lemma SampleAnswerIsRight()
    ensures ActRight("Native Title Act")
  {
    assert ToLower("Native") == "native";
    assert "Native Title Act" == "" + "Native" + " Title Act";
    MentioningNativeIsRight("", "Native", " Title Act");
  }

  /** Only the letter case of the second answer is ignored: lower-casing it first
      does not change the score. */
  lemma ScoreIgnoresCase(q1: string, q2: string)
    ensures Score(q1, ToLower(q2)) == Score(q1, q2)
  {
  }
}
