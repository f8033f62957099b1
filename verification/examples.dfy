/** Judge outputs worked through both score parsers: the rubric's own answer
    shape, a "/10" denominator, a second colon, out-of-range and non-numeric
    scores, and the lines each parser does or does not look at. Each example
    has a companion `...Text` lemma that writes its judge text in the shape
    the general lemma it uses takes apart. */
module ScorerExamples {
  import opened Wrappers
  import opened PyStr
  import opened PyFloat
  import InterviewEval
  import AnswerComparison

  const Seven := Numeral(Unsigned, "7", false, "")
  const Eight := Numeral(Unsigned, "8", false, "")
  const Nine := Numeral(Unsigned, "9", false, "")
  const Fifteen := Numeral(Unsigned, "15", false, "")
  const SevenAndAHalf := Numeral(Unsigned, "7", true, "5")

  // intervieweval.py

  lemma RubricText()
    ensures Join([] + [InterviewEval.ScoreMarker + " (out of 10)" + ":" + (" " + Render(Seven) + "" + "") + ""]
                    + ["Explanation: solid answer"], '\n')
            == "Score (out of 10): 7\nExplanation: solid answer"
  {
    var line := "Score (out of 10): 7";
    var explanation := "Explanation: solid answer";
    assert Render(Seven) == "7";
    assert InterviewEval.ScoreMarker + " (out of 10)" + ":" + (" " + Render(Seven) + "" + "") + "" == line;
    assert [] + [line] + [explanation] == [line, explanation];
    assert Join([line, explanation], '\n') == line + "\n" + explanation;
    RubricJoined();
  }

  lemma RubricJoined()
    ensures "Score (out of 10): 7" + "\n" + "Explanation: solid answer"
            == "Score (out of 10): 7\nExplanation: solid answer"
  {
  }

  /** The answer shape the rubric prompt asks for scores 0.7. */
  lemma RubricAnswer()
    ensures InterviewEval.ParseLlmScore("Score (out of 10): 7\nExplanation: solid answer") == 0.7
  {
    RubricText();
    assert Value(Seven) == 7.0;
    InterviewEval.WellFormedVerdict([], " (out of 10)", " ", Seven, "", "", "", ["Explanation: solid answer"]);
  }

  lemma SlashText()
    ensures Join([] + [InterviewEval.ScoreMarker + "" + ":" + (" " + Render(Eight) + "" + "/10") + ""] + [], '\n')
            == "Score: 8/10"
  {
    assert Render(Eight) == "8";
    assert [] + ["Score: 8/10"] + [] == ["Score: 8/10"];
  }

  /** A "/10" denominator is cut off. */
  lemma SlashDenominator()
    ensures InterviewEval.ParseLlmScore("Score: 8/10") == 0.8
  {
    SlashText();
    assert Value(Eight) == 8.0;
    InterviewEval.WellFormedVerdict([], "", " ", Eight, "", "/10", "", []);
  }

  lemma SecondColonText()
    ensures Join([] + [InterviewEval.ScoreMarker + "" + ":" + (" " + Render(Seven) + "" + "") + ": good"] + [], '\n')
            == "Score: 7: good"
  {
    assert Render(Seven) == "7";
    assert [] + ["Score: 7: good"] + [] == ["Score: 7: good"];
  }

  /** Text after a second colon is ignored. */
  lemma SecondColon()
    ensures InterviewEval.ParseLlmScore("Score: 7: good") == 0.7
  {
    SecondColonText();
    assert Value(Seven) == 7.0;
    InterviewEval.WellFormedVerdict([], "", " ", Seven, "", "", ": good", []);
  }

  lemma UnclampedText()
    ensures Join([] + [InterviewEval.ScoreMarker + "" + ":" + (" " + Render(Fifteen) + "" + "") + ""] + [], '\n')
            == "Score: 15"
  {
    assert Render(Fifteen) == "15";
    assert [] + ["Score: 15"] + [] == ["Score: 15"];
  }

  /** Nothing clamps a score above 10. */
  lemma Unclamped()
    ensures InterviewEval.ParseLlmScore("Score: 15") == 1.5
  {
    UnclampedText();
    assert Value(Fifteen) == 15.0;
    InterviewEval.WellFormedVerdict([], "", " ", Fifteen, "", "", "", []);
  }

  lemma FractionalText()
    ensures Join([] + [InterviewEval.ScoreMarker + "" + ":" + (" " + Render(SevenAndAHalf) + "" + "/10") + ""] + [], '\n')
            == "Score: 7.5/10"
  {
    assert Render(SevenAndAHalf) == "7.5";
    assert [] + ["Score: 7.5/10"] + [] == ["Score: 7.5/10"];
  }

  /** A fractional score keeps its fraction. */
  lemma FractionalScore()
    ensures InterviewEval.ParseLlmScore("Score: 7.5/10") == 0.75
  {
    FractionalText();
    assert Value(SevenAndAHalf) == 7.5;
    InterviewEval.WellFormedVerdict([], "", " ", SevenAndAHalf, "", "/10", "", []);
  }

  lemma SpaceText()
    ensures Join([] + [InterviewEval.ScoreMarker + "" + ":" + (" " + Render(Seven) + " " + "/10") + ""] + [], '\n')
            == "Score: 7 /10"
  {
    assert Render(Seven) == "7";
    assert [] + ["Score: 7 /10"] + [] == ["Score: 7 /10"];
  }

  /** Whitespace between the number and the '/' reaches `float()`, which
      skips a space ... */
  lemma SpaceBeforeSlash()
    ensures InterviewEval.ParseLlmScore("Score: 7 /10") == 0.7
  {
    SpaceText();
    assert Value(Seven) == 7.0;
    assert AllFloatSpace(" ");
    InterviewEval.WellFormedVerdict([], "", " ", Seven, " ", "/10", "", []);
  }

  lemma SeparatorText()
    ensures Join([] + [InterviewEval.ScoreMarker + "" + ":" + (" " + Render(Seven) + "\U{1C}" + "/10") + ""] + [], '\n')
            == "Score: 7\U{1C}/10"
  {
    assert Render(Seven) == "7";
    assert [] + ["Score: 7\U{1C}/10"] + [] == ["Score: 7\U{1C}/10"];
  }

  /** ... but not the information separator U+001C, which `str.strip()`
      would have removed: the line is unreadable and the score is 0.5. */
  lemma SeparatorBeforeSlash()
    ensures InterviewEval.ParseLlmScore("Score: 7\U{1C}/10") == 0.5
  {
    SeparatorText();
    assert !FloatSpace("\U{1C}"[0]);
    InterviewEval.WellFormedVerdict([], "", " ", Seven, "\U{1C}", "/10", "", []);
  }

  lemma SecondLineText()
    ensures Join(["Overall: good"] + [InterviewEval.ScoreMarker + "" + ":" + (" " + Render(Nine) + "" + "") + ""] + [], '\n')
            == "Overall: good\nScore: 9"
    ensures !StartsWith("Overall: good", InterviewEval.ScoreMarker)
  {
    assert Render(Nine) == "9";
    assert ["Overall: good"] + ["Score: 9"] + [] == ["Overall: good", "Score: 9"];
    assert Join(["Overall: good", "Score: 9"], '\n') == "Overall: good" + "\n" + "Score: 9";
    NotStartsWith("Overall: good", InterviewEval.ScoreMarker, 0);
  }

  /** Lines before the score line that lack the marker are skipped. */
  lemma ScoreOnSecondLine()
    ensures InterviewEval.ParseLlmScore("Overall: good\nScore: 9") == 0.9
  {
    SecondLineText();
    assert Value(Nine) == 9.0;
    InterviewEval.WellFormedVerdict(["Overall: good"], "", " ", Nine, "", "", "", []);
  }

  lemma WordText()
    ensures Join([] + [InterviewEval.ScoreMarker + "" + ":" + (" " + ("seven" + "")) + ""] + [], '\n')
            == "Score: seven"
  {
    assert [] + ["Score: seven"] + [] == ["Score: seven"];
  }

  /** A word in place of a number falls back to 0.5. */
  lemma WordScore()
    ensures InterviewEval.ParseLlmScore("Score: seven") == 0.5
  {
    WordText();
    InterviewEval.WordForNumber([], "", " ", "seven", "", "", [], 0);
  }

  lemma EmptyText()
    ensures Join([] + [InterviewEval.ScoreMarker + "" + ":" + " " + ""] + [], '\n') == "Score: "
  {
    assert [] + ["Score: "] + [] == ["Score: "];
  }

  /** An empty score falls back to 0.5. */
  lemma EmptyScore()
    ensures InterviewEval.ParseLlmScore("Score: ") == 0.5
  {
    EmptyText();
    InterviewEval.BlankScore([], "", " ", "", []);
  }

  lemma NoColonText()
    ensures Join([] + [InterviewEval.ScoreMarker + " 7"] + [], '\n') == "Score 7"
  {
    assert [] + ["Score 7"] + [] == ["Score 7"];
  }

  /** A score line without a colon falls back to 0.5. */
  lemma NoColon()
    ensures InterviewEval.ParseLlmScore("Score 7") == 0.5
  {
    NoColonText();
    InterviewEval.ScoreLineWithoutColon([], " 7", []);
  }

  lemma SlashWordText()
    ensures Join([] + [InterviewEval.ScoreMarker + "" + ":" + (" " + ("n" + "/a")) + ""] + ["Score: 9"], '\n')
            == "Score: n/a\nScore: 9"
  {
    assert [] + ["Score: n/a"] + ["Score: 9"] == ["Score: n/a", "Score: 9"];
    assert Join(["Score: n/a", "Score: 9"], '\n') == "Score: n/a" + "\n" + "Score: 9";
  }

  /** Only the first score line counts: a later line that would parse does not
      rescue an unreadable first one. */
  lemma FirstScoreLineWins()
    ensures InterviewEval.ParseLlmScore("Score: n/a\nScore: 9") == 0.5
  {
    SlashWordText();
    InterviewEval.WordForNumber([], "", " ", "n", "/a", "", ["Score: 9"], 0);
  }

  lemma LowerCaseText()
    ensures InterviewEval.Lines("score: 9") == ["score: 9"]
    ensures !StartsWith("score: 9", InterviewEval.ScoreMarker)
  {
    assert '\n' !in "score: 9";
    NotStartsWith("score: 9", InterviewEval.ScoreMarker, 0);
  }

  /** The marker is case-sensitive: no line starts with "Score", so 0.5. */
  lemma LowerCaseMarker()
    ensures InterviewEval.ParseLlmScore("score: 9") == 0.5
  {
    LowerCaseText();
  }

  /** The blend of `score_answer` for the rubric answer and ROUGE values
      0.3, 0.6 and 0.9. */
  lemma RubricEvaluation()
    ensures InterviewEval.ScoreAnswer(InterviewEval.RougeScores(0.3, 0.6, 0.9),
                                      "Score (out of 10): 7\nExplanation: solid answer").finalScore == 0.65
  {
    RubricAnswer();
  }

  // answer-comparison-scorer.py

  lemma RubricFirstLineText()
    ensures InterviewEval.ScoreMarker + " (out of 10)" + ":" + (" " + Render(Seven) + "") + "" + "\n"
            + "Explanation: solid answer"
            == "Score (out of 10): 7\nExplanation: solid answer"
  {
    assert Render(Seven) == "7";
    assert InterviewEval.ScoreMarker + " (out of 10)" + ":" + (" " + Render(Seven) + "") + ""
           == "Score (out of 10): 7";
    RubricJoined();
  }

  /** The first line of the rubric answer scores 0.7 whatever follows. */
  lemma RubricFirstLine(similarity: real)
    ensures AnswerComparison.LlmScore("Score (out of 10): 7\nExplanation: solid answer", similarity) == 0.7
  {
    RubricFirstLineText();
    assert Value(Seven) == 7.0;
    AnswerComparison.WellFormedFirstLine(InterviewEval.ScoreMarker + " (out of 10)", " ", Seven, "", "",
                                         "Explanation: solid answer", similarity);
  }

  lemma SlashIsNotCutText()
    ensures "Score" + ":" + (" " + (Render(Seven) + "/" + "10")) + "" == "Score: 7/10"
  {
    assert Render(Seven) == "7";
  }

  /** No '/' is cut here, so "7/10" is no number and the similarity is used. */
  lemma SlashIsNotCut(similarity: real)
    ensures AnswerComparison.LlmScore("Score: 7/10", similarity) == similarity
  {
    SlashIsNotCutText();
    AnswerComparison.DenominatorNotCut("Score", " ", Seven, "10", "", "", similarity);
  }

  /** A first line without a colon falls back to the similarity, even when a
      later line holds a score. */
  lemma NoColonOnFirstLine(similarity: real)
    ensures AnswerComparison.LlmScore("Explanation first\nScore: 9", similarity) == similarity
  {
    assert "Explanation first" + "\n" + "Score: 9" == "Explanation first\nScore: 9";
    assert ':' !in "Explanation first" && '\n' !in "Explanation first";
    AnswerComparison.FirstLineWithoutColon("Explanation first", "Score: 9", similarity);
  }

  /** On the fallback path the final score is the similarity itself. */
  lemma FallbackComparison()
    ensures AnswerComparison.ScoreAnswer(0.83, "Score: 7/10").finalScore == 0.83
  {
    SlashIsNotCut(0.83);
  }

  /** The blend of `score_answer` for the rubric answer and similarity 0.5. */
  lemma RubricComparison()
    ensures AnswerComparison.ScoreAnswer(0.5, "Score (out of 10): 7\nExplanation: solid answer").finalScore == 0.62
  {
    RubricFirstLine(0.5);
  }
}
