# Interview answer scorers: score parsing and fusion

This project models the two answer scorers of the interview-evaluation
repository in Dafny. Each scorer asks a language model to judge a candidate's
answer. It reads a score out of 10 from the judge's free text and blends that
score with a lexical or semantic similarity.

- `intervieweval.py`, method `parse_llm_score`. It takes the first line of the
  judge's text that starts with `Score`. The number is `split(':')[1]` of that
  line: the text between its first and second colons (or the end of the
  line). That text is stripped and cut at the first `/`. The result is the
  number divided by 10, or 0.5 when anything fails.
- `intervieweval.py`, method `score_answer`. Its final score is the midpoint
  of the mean of the three ROUGE F-values and the judge's score. The record it
  returns also carries the ROUGE values, the judge's text and the parsed
  `llm_score`.
- `answer-comparison-scorer.py`, method `score_answer`. It reads only the first
  line of the judge's text. The number is `split(':')[1]` of that line,
  stripped, with no cut at `/`. When that fails (`IndexError` or `ValueError`)
  it uses the embedding similarity instead. The final score is
  `0.4 * similarity + 0.6 * llm_score`, returned with the similarity and the
  judge's text.

The judge's text, the ROUGE values and the cosine similarity come from outside
the model, so they are parameters.

Modules:

- `Wrappers`: `Option`.
- `PyStr`: Python's `str.split`, `str.startswith` and `str.strip`, with
  Python's whitespace set.
- `PyFloat`: the decimal numerals `float()` accepts, and the whitespace it
  skips around them. A `Numeral` datatype is paired with its rendering, and
  the lexer is proved to be the inverse of that rendering.
- `Fusion`: the weighted blend both scorers end with.
- `InterviewEval`: `intervieweval.py`.
- `AnswerComparison`: `answer-comparison-scorer.py`.
- `ScorerExamples`: concrete judge texts and the scores they yield.

Scores are mathematical reals. Neither scorer clamps the judge's number, so
"Score: 15" yields 1.5. `InterviewEval.ScoreAnswer` therefore promises a final
score in [0, 1] only when all of its inputs lie there. The weights are 0.5/0.5
in `intervieweval.py` and 0.4/0.6 in `answer-comparison-scorer.py`, and no
score has a lower floor.

Python has two whitespace sets here. `str.strip()` removes every character for
which `str.isspace()` holds. `float()` maps non-ASCII whitespace to a space
and then skips ASCII whitespace only, so it does not skip the four
information separators U+001C to U+001F. The difference shows in
`intervieweval.py`: whitespace between the number and the `/` reaches
`float()` unstripped, so "Score: 7\x1c/10" scores 0.5 while "Score: 7 /10"
scores 0.7.

## Model

| member | source | states |
|---|---|---|
| PyStr.Split | intervieweval.py:51-52 | `str.split(sep)` yields at least one piece. There is exactly one piece iff the separator does not occur. No piece contains the separator. Joining the pieces with the separator gives back the input. |
| PyStr.SplitJoin | intervieweval.py:51 | The other half of the round trip: splitting a join of separator-free pieces gives back those pieces. |
| PyStr.SplitCons | intervieweval.py:52 | Splitting `p + sep + t` with `p` separator-free gives `p` followed by the pieces of `t`. |
| PyStr.SplitFields | intervieweval.py:52 | For `a + sep + b + rest`, where `rest` is empty or starts with the separator, the first two fields are exactly `a` and `b`. This is the `[1]` that `split(':')[1]` picks. |
| PyStr.SplitFirstField | intervieweval.py:52 | Field `[0]` of `a + rest` is `a` when `rest` is empty or starts with the separator. This is the cut `split('/')[0]` makes. |
| PyStr.StartsWith | intervieweval.py:51 | `line.startswith(p)` holds iff `p` is no longer than the line and every character of `p` stands at the same position in the line. |
| PyStr.StartsWithExtend | intervieweval.py:51 | A line that starts with the marker still starts with it whatever follows. |
| PyStr.NotStartsWith | intervieweval.py:51 | A line that differs from the marker at some position within both does not start with it. |
| PyStr.StripStart | intervieweval.py:52 | Left strip: the result is a suffix of the input. Everything removed is whitespace. The result does not start with whitespace. |
| PyStr.StripEnd | intervieweval.py:52 | Right strip: the result is a prefix of the input. Everything removed is whitespace. The result does not end with whitespace. |
| PyStr.Strip | intervieweval.py:52 | `strip()` never lengthens the text, and the result neither starts nor ends with whitespace. |
| PyStr.StripIsInfix | answer-comparison-scorer.py:51 | `strip()` removes only whitespace, and only from the two ends: the result is a contiguous slice whose surroundings are all whitespace. |
| PyStr.StripPadded | answer-comparison-scorer.py:51 | Stripping text padded with whitespace on both sides gives back the text, provided its own ends are not whitespace. |
| PyStr.StripIdempotent | answer-comparison-scorer.py:51 | Stripping twice is the same as stripping once. |
| PyStr.StripBlank | intervieweval.py:52 | An all-whitespace field strips to the empty string. |
| PyFloat.DigitsValue | intervieweval.py:52 | The value of a digit string is below 10 raised to its length. |
| PyFloat.Value | intervieweval.py:52 | The number a numeral denotes has the numeral's sign (zero may carry either). Its magnitude is below 10 raised to the number of whole digits. |
| PyFloat.FloatStripStart | intervieweval.py:52 | `float()`'s leading-whitespace skip: the result is a suffix of the input, everything removed is float whitespace (whitespace other than U+001C to U+001F), and the result does not start with float whitespace. |
| PyFloat.FloatStripEnd | intervieweval.py:52 | The trailing skip: the result is a prefix, everything removed is float whitespace, and the result does not end with it. |
| PyFloat.FloatStrip | intervieweval.py:52 | The text `float()` reads never lengthens the input and neither starts nor ends with float whitespace. |
| PyFloat.FloatStripPadded | intervieweval.py:52 | Float whitespace on both sides of a text without float whitespace at its ends is removed exactly. |
| PyFloat.FloatStripOfStripped | answer-comparison-scorer.py:51 | After `str.strip()`, `float()` has nothing left to skip. |
| PyFloat.SeparatorKept | intervieweval.py:52 | A character `float()` does not skip survives its stripping at its own position. |
| PyFloat.ParseFloat | intervieweval.py:52 | `float()` succeeds only when the text, with float whitespace removed from its ends, is the rendering of a well-formed numeral. The result is then that numeral's value. |
| PyFloat.Lex | intervieweval.py:52 | The lexer accepts only well-formed numerals, and what it accepts renders back to the exact input text. |
| PyFloat.LexRender | intervieweval.py:52 | The other direction: every well-formed numeral's text lexes back to that numeral. |
| PyFloat.ParseFloatExactly | intervieweval.py:52 | `float()` succeeds exactly when the text, with float whitespace removed from its ends, is the rendering of a well-formed numeral. It then yields that numeral's value. It fails for every other text. |
| PyFloat.ParseFloatPadded | answer-comparison-scorer.py:51 | `float()` of a numeral surrounded by float whitespace is the numeral's value. |
| PyFloat.NumeralThenSpace | intervieweval.py:52 | A numeral followed by `str` whitespace reads as its value iff that whitespace holds no information separator (U+001C to U+001F); otherwise `float()` fails. |
| PyFloat.NumeralThenFloatSpace | intervieweval.py:52 | A numeral followed by float whitespace reads as its value. |
| PyFloat.NumeralThenSeparator | intervieweval.py:52 | A numeral followed by whitespace that holds an information separator is rejected. |
| PyFloat.NotNumeral | intervieweval.py:52 | A text that, after `float()`'s own whitespace skip, contains any character outside digits, sign and point is rejected with `ValueError`. |
| PyFloat.SeparatorNotNumeral | intervieweval.py:52 | An information separator left inside the text `float()` reads makes it fail. |
| PyFloat.NotNumeralText | answer-comparison-scorer.py:51 | A text without float whitespace at its ends that holds a non-numeral character is rejected. |
| PyFloat.BlankNotNumeral | intervieweval.py:52 | `float()` of text that is all float whitespace (`float('')` among it) is rejected. |
| InterviewEval.Lines | intervieweval.py:51 | `split('\n')` gives at least one line, no line holds a newline, and joining the lines with newlines gives back the text. |
| InterviewEval.FirstWithPrefix | intervieweval.py:51 | The `next(...)` generator: a found index is the first line with the prefix, so no earlier line has it. The result is `StopIteration` iff no line has the prefix. |
| InterviewEval.FirstWithPrefixAt | intervieweval.py:51 | The converse: the first line with the prefix is the one found. |
| InterviewEval.LineNumber | intervieweval.py:52 | A score line without a colon has no number (the `IndexError` of `split(':')[1]`). |
| InterviewEval.ParseLlmScore | intervieweval.py:49-56 | When no line starts with "Score", the result is the default 0.5. |
| InterviewEval.LinesOfJoin | intervieweval.py:51 | Splitting newline-joined, newline-free lines gives back those lines. |
| InterviewEval.FirstScoreLineDecides | intervieweval.py:51-56 | Only the first line that starts with "Score" matters. When its number reads, the result is that number divided by 10; otherwise it is 0.5. Earlier non-score lines and all later lines are irrelevant. |
| InterviewEval.LineNumberFields | intervieweval.py:52 | The number read from a line is `float()` of the stripped text between its first and second colons, cut at the first `/`. |
| InterviewEval.NumeralBeforeSlash | intervieweval.py:52 | A numeral padded with whitespace and followed by a `/` and anything else reads as that numeral's value iff the whitespace between the numeral and the `/` holds no information separator; otherwise `float()` fails. |
| InterviewEval.NumeralAlone | intervieweval.py:52 | A padded numeral with no `/` reads as that numeral's value. |
| InterviewEval.LineNumberOfNumeral | intervieweval.py:52 | A line `head: numeral[/denominator][:tail]`, with any whitespace around the numeral, reads as the numeral's value. The one exception is an information separator between the numeral and a `/`, which makes the line unreadable. |
| InterviewEval.ScoreLineOfNumeral | intervieweval.py:51-52 | Such a line with the marker in front is one line, starts with "Score", and reads as stated for `LineNumberOfNumeral`. |
| InterviewEval.WellFormedVerdict | intervieweval.py:51-56 | A text whose first score line carries a numeral (optionally `/denominator`, optionally more colons) scores that numeral divided by 10, whatever other lines surround it. When an information separator stands between the numeral and the `/`, it scores 0.5 instead. |
| InterviewEval.UnreadableScoreLine | intervieweval.py:51-56 | When the first score line's field does not read as a number, the score is 0.5. This holds even when later score lines would read. |
| InterviewEval.WordBeforeCut | intervieweval.py:52 | A field made of whitespace, then a word, then nothing or a `/...` part that does not end in whitespace, is rejected by `float()`. The word holds no `/`, has no whitespace at its ends, and holds a character no numeral has. |
| InterviewEval.WordForNumber | intervieweval.py:51-56 | A first score line carrying a word instead of a number scores 0.5. |
| InterviewEval.BlankBeforeCut | intervieweval.py:52 | An all-whitespace field is rejected by `float()`. |
| InterviewEval.BlankScore | intervieweval.py:51-56 | A first score line with nothing after its colon scores 0.5. |
| InterviewEval.ScoreLineWithoutColon | intervieweval.py:51-56 | A first score line without a colon scores 0.5: the `IndexError` is caught. |
| InterviewEval.RougeMean | intervieweval.py:64 | The ROUGE mean lies between the smallest and the largest of the three F-values. It equals their common value when they agree. |
| InterviewEval.ScoreAnswer | intervieweval.py:58-72 | The record returns the judge's text and the ROUGE values unchanged, with the score parsed from that text. The final score is equidistant from the ROUGE mean and the judge's score. It lies in [0, 1] when all inputs do. |
| Fusion.ShareOfGap | intervieweval.py:65 | A share in [0, 1] of a gap lies between zero and the gap. |
| Fusion.Blend | answer-comparison-scorer.py:56 | `w*a + (1-w)*b` with `w` in [0, 1] lies between `a` and `b`. It is `b` when `w` is 0 or when `a` and `b` agree, and `a` when `w` is 1. |
| Fusion.BlendInRange | intervieweval.py:65 | Blending two scores from a common range stays in that range. |
| AnswerComparison.FirstLineNumber | answer-comparison-scorer.py:51 | A first line without a colon has no number (the `IndexError`). |
| AnswerComparison.LlmScore | answer-comparison-scorer.py:50-54 | A first line without a colon gives the similarity. A score other than the similarity is a tenth of the number read from the first line. |
| AnswerComparison.FirstLineOnly | answer-comparison-scorer.py:51 | Lines after the first never affect the judge's score. |
| AnswerComparison.FirstLineFields | answer-comparison-scorer.py:50-54 | The score is `float()` of the stripped text between the first line's first and second colons, divided by 10. When that text does not read, the score is the similarity. |
| AnswerComparison.WellFormedFirstLine | answer-comparison-scorer.py:50-54 | A first line `head: numeral[:tail]` scores the numeral divided by 10, whatever follows. |
| AnswerComparison.UnreadableFirstLine | answer-comparison-scorer.py:50-54 | A first line whose field does not read falls back to the similarity. |
| AnswerComparison.SlashedNumeral | answer-comparison-scorer.py:51 | Without the cut at `/`, a field `numeral/denominator` is rejected by `float()`. |
| AnswerComparison.DenominatorNotCut | answer-comparison-scorer.py:50-54 | A first line `Score: 7/10` falls back to the similarity. This is the `intervieweval.py` format, which this scorer does not read. |
| AnswerComparison.FirstLineWithoutColon | answer-comparison-scorer.py:50-54 | A first line without a colon falls back to the similarity, even when a later line holds a well-formed score. |
| AnswerComparison.ScoreAnswer | answer-comparison-scorer.py:46-62 | The record returns the similarity and the judge's text unchanged. The final score moves 60% of the way from the similarity to the judge's score and stays between them. On the fallback path it is exactly the similarity. |
| ScorerExamples.RubricAnswer | intervieweval.py:25-28 | The answer shape the prompt asks for, "Score (out of 10): 7" followed by an explanation line, scores 0.7. |
| ScorerExamples.SlashDenominator | intervieweval.py:52 | "Score: 8/10" scores 0.8. |
| ScorerExamples.SecondColon | intervieweval.py:52 | "Score: 7: good" scores 0.7. |
| ScorerExamples.Unclamped | intervieweval.py:53 | "Score: 15" scores 1.5: nothing clamps. |
| ScorerExamples.FractionalScore | intervieweval.py:52-53 | "Score: 7.5/10" scores 0.75. |
| ScorerExamples.SpaceBeforeSlash | intervieweval.py:52-53 | "Score: 7 /10" scores 0.7: `float()` skips the space before the `/`. |
| ScorerExamples.SeparatorBeforeSlash | intervieweval.py:52-56 | "Score: 7\x1c/10" scores 0.5: `float()` does not skip U+001C. |
| ScorerExamples.ScoreOnSecondLine | intervieweval.py:51 | A score line after another line is still found: the score is 0.9. |
| ScorerExamples.WordScore | intervieweval.py:52-56 | "Score: seven" scores 0.5. |
| ScorerExamples.EmptyScore | intervieweval.py:52-56 | "Score: " scores 0.5. |
| ScorerExamples.NoColon | intervieweval.py:52-56 | "Score 7" scores 0.5. |
| ScorerExamples.FirstScoreLineWins | intervieweval.py:51-56 | "Score: n/a" followed by "Score: 9" scores 0.5: the second score line is never consulted. |
| ScorerExamples.LowerCaseMarker | intervieweval.py:51 | "score: 9" scores 0.5, because `startswith` is case-sensitive. |
| ScorerExamples.RubricEvaluation | intervieweval.py:64-65 | ROUGE values 0.3, 0.6 and 0.9 with a judge's 7 give a final score of 0.65. |
| ScorerExamples.RubricFirstLine | answer-comparison-scorer.py:24-27 | The prompt's answer shape scores 0.7 here as well. |
| ScorerExamples.SlashIsNotCut | answer-comparison-scorer.py:51-54 | "Score: 7/10" falls back to the similarity. |
| ScorerExamples.NoColonOnFirstLine | answer-comparison-scorer.py:51-54 | An explanation first and the score on line two falls back to the similarity. |
| ScorerExamples.FallbackComparison | answer-comparison-scorer.py:50-56 | With similarity 0.83 and "Score: 7/10", the final score is 0.83. |
| ScorerExamples.RubricComparison | answer-comparison-scorer.py:56 | With similarity 0.5 and the rubric answer, the final score is 0.62. |

## Left out

- The language-model calls (`llm_evaluation`, both prompts, the model
  clients): I/O. The judge's text is a parameter.
- `compute_rouge_scores` (the `rouge` library) and `compute_similarity` (the
  embeddings and `cosine_similarity`): foreign code. Their results are
  parameters.
- The `except` of `intervieweval.py` `score_answer` (lines 73-75). It logs the
  error and re-raises; an exception from the foreign code above leaves the
  model.
- `score_answer_sync` (`intervieweval.py` lines 77-79): only an `asyncio.run`
  wrapper.
- Logging and the warning `print`: output only.
- IEEE-754 rounding: scores are reals, so `0.4 * s + 0.6 * l` and the division
  by 10 are exact here.
- PyFloat.ParseFloat: models the decimal numerals `float()` accepts (optional
  sign, digits, optional point, at least one digit). It rejects what Python
  would also accept: `inf`, `nan`, exponents, `_` separators and non-ASCII
  digits.
- `parse_llm_score` catches every exception. The only exceptions the modelled
  expressions can raise are the `StopIteration`, `IndexError` and `ValueError`
  covered here.
- `answer-comparison-scorer.py` catches only `IndexError` and `ValueError`.
  Every other exception is outside this model.
- The other repository files (`app.py`, `main.py`, `rag.py`,
  `rag-answer-generator.py`, `speechrec.py`,
  `interview-evaluation-pipeline.py`, templates): outside the scoring core.
