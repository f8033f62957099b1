/** The scorer of answer-comparison-scorer.py: only the first line of the
    judge's text is read, the number after its first colon is normalised by
    10 (the similarity score is used instead when that fails), and the result
    is blended 0.4/0.6 with the embedding similarity. The similarity and the
    judge's text come from outside (the embedding model with cosine
    similarity, and the language model). */
module AnswerComparison {
  import opened Wrappers
  import opened PyStr
  import opened PyFloat
  import opened Fusion

  /** The weight of the similarity score in the blend; the judge's score
      gets the rest. */
  const SimilarityWeight: real := 0.4

  /** The number on the first line, before normalisation:
      `float(text.split('\n')[0].split(':')[1].strip())`, with the
      `IndexError` of a first line without a colon and the `ValueError` of a
      non-numeral as `None`. */
  function FirstLineNumber(text: string): (r: Option<real>)
    ensures ':' !in Split(text, '\n')[0] ==> r.None?
  {
    var fields := Split(Split(text, '\n')[0], ':');
    if |fields| < 2 then None
    else ParseFloat(Strip(fields[1]))
  }

  /** `llm_score`: the first line's number divided by 10, or the similarity
      score when that number cannot be read. A first line without a colon
      always falls back, and a score that differs from the similarity is a
      tenth of a number read from the first line. */
  function LlmScore(text: string, similarity: real): (r: real)
    ensures ':' !in Split(text, '\n')[0] ==> r == similarity
    ensures r != similarity ==> FirstLineNumber(text).Some? && 10.0 * r == FirstLineNumber(text).value
  {
    match FirstLineNumber(text)
    case Some(v) => v / 10.0
    case None => similarity
  }

  /** Later lines never matter: the score of a text is the score of its first
      line alone. */
  lemma FirstLineOnly(line: string, rest: string, similarity: real)
    requires '\n' !in line
    ensures LlmScore(line + "\n" + rest, similarity) == LlmScore(line, similarity)
  {
    SplitCons(line, '\n', rest);
  }

  /** Whatever stands before the first colon, the number is the text between
      the first and the second colon (or the end of the line), trimmed; a
      text that is no numeral falls back to the similarity score. */
  lemma FirstLineFields(head: string, field: string, tail: string, similarity: real)
    requires ':' !in head && ':' !in field
    requires '\n' !in head && '\n' !in field && '\n' !in tail
    requires tail == "" || tail[0] == ':'
    ensures '\n' !in head + ":" + field + tail
    ensures ParseFloat(Strip(field)).None? ==> LlmScore(head + ":" + field + tail, similarity) == similarity
    ensures ParseFloat(Strip(field)).Some? ==>
              LlmScore(head + ":" + field + tail, similarity) == ParseFloat(Strip(field)).value / 10.0
  {
    var line := head + ":" + field + tail;
    assert '\n' !in line;
    SplitFields(head, ':', field, tail);
    StripIdempotent(field);
  }

  /** A first line carrying a numeral after its first colon, padded with any
      whitespace and optionally followed by more colon-separated text, scores
      that numeral divided by 10, whatever its head and whatever follows on
      later lines. */
  lemma WellFormedFirstLine(head: string, w1: string, n: Numeral, w2: string,
                            tail: string, rest: string, similarity: real)
    requires ':' !in head && '\n' !in head
    requires AllSpace(w1) && AllSpace(w2) && WellFormed(n)
    requires '\n' !in w1 && '\n' !in w2 && '\n' !in tail
    requires tail == "" || tail[0] == ':'
    ensures LlmScore(head + ":" + (w1 + Render(n) + w2) + tail + "\n" + rest, similarity)
            == Value(n) / 10.0
  {
    var field := w1 + Render(n) + w2;
    assert ':' !in field && '\n' !in field by {
      NumeralText(n);
      NotInSpace(w1, ':');
      NotInSpace(w2, ':');
    }
    assert ParseFloat(Strip(field)) == Some(Value(n)) by {
      RenderEnds(n);
      StripPadded(w1, Render(n), w2);
      ParseRender(n);
    }
    FirstLineFields(head, field, tail, similarity);
    FirstLineOnly(head + ":" + field + tail, rest, similarity);
  }

  /** A first line whose field after the first colon holds no number falls
      back to the similarity score, whatever the later lines hold. */
  lemma UnreadableFirstLine(head: string, field: string, tail: string, rest: string,
                            similarity: real)
    requires ':' !in head && ':' !in field
    requires '\n' !in head && '\n' !in field && '\n' !in tail
    requires tail == "" || tail[0] == ':'
    requires ParseFloat(Strip(field)).None?
    ensures LlmScore(head + ":" + field + tail, similarity) == similarity
    ensures LlmScore(head + ":" + field + tail + "\n" + rest, similarity) == similarity
  {
    FirstLineFields(head, field, tail, similarity);
    FirstLineOnly(head + ":" + field + tail, rest, similarity);
  }

  /** A numeral followed by '/' is no number as a whole. */
  lemma SlashedNumeral(w1: string, n: Numeral, denominator: string)
    requires AllSpace(w1) && WellFormed(n)
    requires denominator == "" || !IsSpace(denominator[|denominator| - 1])
    ensures ParseFloat(Strip(w1 + (Render(n) + "/" + denominator))) == None
  {
    var r := Render(n);
    var slashed := r + "/";
    var t := slashed + denominator;
    RenderEnds(n);
    ConcatEnds(r, "/");
    ConcatEnds(slashed, denominator);
    assert t[|r|] == slashed[|r|] == '/';
    assert !NumeralChar('/') && !IsSpace('/');
    assert !IsSpace(t[|t| - 1]) by {
      if denominator == "" {
        assert t[|t| - 1] == slashed[|slashed| - 1] == '/';
      }
    }
    StripLead(w1, t);
    NotNumeralText(t, |r|);
  }

  /** A "/10" denominator is not cut off here, unlike in the interview
      scorer, so a first line such as "Score: 7/10" falls back to the
      similarity score. */
  lemma DenominatorNotCut(head: string, w1: string, n: Numeral, denominator: string,
                          tail: string, rest: string, similarity: real)
    requires ':' !in head && '\n' !in head
    requires AllSpace(w1) && '\n' !in w1 && WellFormed(n)
    requires ':' !in denominator && '\n' !in denominator
    requires denominator == "" || !IsSpace(denominator[|denominator| - 1])
    requires tail == "" || tail[0] == ':'
    requires '\n' !in tail
    ensures LlmScore(head + ":" + (w1 + (Render(n) + "/" + denominator)) + tail, similarity) == similarity
    ensures LlmScore(head + ":" + (w1 + (Render(n) + "/" + denominator)) + tail + "\n" + rest, similarity)
            == similarity
  {
    var field := w1 + (Render(n) + "/" + denominator);
    SlashedNumeral(w1, n, denominator);
    assert ':' !in field && '\n' !in field by {
      NumeralText(n);
      NotInSpace(w1, ':');
    }
    var line := head + ":" + field + tail;
    assert line == head + ":" + (w1 + (Render(n) + "/" + denominator)) + tail;
    UnreadableFirstLine(head, field, tail, rest, similarity);
    assert LlmScore(line, similarity) == similarity;
    assert LlmScore(line + "\n" + rest, similarity) == similarity;
  }

  /** A first line without a colon falls back to the similarity score,
      whatever the later lines hold. */
  lemma FirstLineWithoutColon(line: string, rest: string, similarity: real)
    requires ':' !in line && '\n' !in line
    ensures LlmScore(line, similarity) == similarity
    ensures LlmScore(line + "\n" + rest, similarity) == similarity
  {
    FirstLineOnly(line, rest, similarity);
  }

  /** The record `score_answer` returns. */
  datatype Comparison = Comparison(finalScore: real, similarityScore: real, llmEvaluation: string)

  /** `score_answer` once the similarity and the judge's text are known: both
      are returned unchanged, and the final score moves 60% of the way from
      the similarity to the judge's score. On the fallback path the two
      coincide, so the final score is exactly the similarity. */
  function ScoreAnswer(similarity: real, llmEvaluation: string): (r: Comparison)
    ensures r.similarityScore == similarity && r.llmEvaluation == llmEvaluation
    ensures r.finalScore - similarity == 0.6 * (LlmScore(llmEvaluation, similarity) - similarity)
    ensures Min(similarity, LlmScore(llmEvaluation, similarity)) <= r.finalScore
            <= Max(similarity, LlmScore(llmEvaluation, similarity))
    ensures FirstLineNumber(llmEvaluation).None? ==> r.finalScore == similarity
  {
    var llmScore := LlmScore(llmEvaluation, similarity);
    Comparison(Blend(SimilarityWeight, similarity, llmScore), similarity, llmEvaluation)
  }
}
