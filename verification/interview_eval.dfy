/** The scorer of intervieweval.py: the judge's text is searched for the first
    line that starts with "Score", the number on it is normalised by 10 (0.5
    when anything goes wrong), and the result is blended half and half with
    the mean of the three ROUGE F-values. The ROUGE values and the judge's
    text come from outside (the `rouge` library and the language model). */
module InterviewEval {
  import opened Wrappers
  import opened PyStr
  import opened PyFloat
  import opened Fusion

  const ScoreMarker: string := "Score"

  /** The score used whenever the judge's text cannot be read. */
  const DefaultScore: real := 0.5

  /** `text.split('\n')`: newline-free lines that give the text back when
      joined with newlines. */
  function Lines(text: string): (r: seq<string>)
    ensures |r| >= 1
    ensures forall k :: 0 <= k < |r| ==> '\n' !in r[k]
    ensures Join(r, '\n') == text
  {
    Split(text, '\n')
  }

  /** `next(i for i, line in enumerate(lines) if line.startswith(p))`, with
      `StopIteration` as `None`: the position of the first line with prefix
      `p`, if any line has it. */
  function FirstWithPrefix(lines: seq<string>, p: string): (r: Option<nat>)
    ensures r.Some? ==> r.value < |lines| && StartsWith(lines[r.value], p)
    ensures r.Some? ==> forall j :: 0 <= j < r.value ==> !StartsWith(lines[j], p)
    ensures r.None? <==> forall j :: 0 <= j < |lines| ==> !StartsWith(lines[j], p)
  {
    if |lines| == 0 then None
    else if StartsWith(lines[0], p) then Some(0)
    else
      match FirstWithPrefix(lines[1..], p)
      case None => None
      case Some(i) => Some(i + 1)
  }

  /** The number on a score line, before normalisation:
      `float(line.split(':')[1].strip().split('/')[0])`, with the
      `IndexError` of a line without a colon and the `ValueError` of a
      non-numeral as `None`. */
  function LineNumber(line: string): (r: Option<real>)
    ensures ':' !in line ==> r.None?
  {
    var fields := Split(line, ':');
    if |fields| < 2 then None
    else ParseFloat(Split(Strip(fields[1]), '/')[0])
  }

  /** `parse_llm_score`: the number on the first line that starts with
      "Score", divided by 10, or `DefaultScore` when there is no such line or
      its number cannot be read. The function never fails. */
  function ParseLlmScore(text: string): (r: real)
    ensures (forall k :: 0 <= k < |Lines(text)| ==> !StartsWith(Lines(text)[k], ScoreMarker))
            ==> r == DefaultScore
  {
    match FirstWithPrefix(Lines(text), ScoreMarker)
    case None => DefaultScore
    case Some(i) =>
      match LineNumber(Lines(text)[i])
      case None => DefaultScore
      case Some(v) => v / 10.0
  }

  lemma FirstWithPrefixAt(lines: seq<string>, i: nat, p: string)
    requires i < |lines| && StartsWith(lines[i], p)
    requires forall j :: 0 <= j < i ==> !StartsWith(lines[j], p)
    ensures FirstWithPrefix(lines, p) == Some(i)
  {
  }

  /** No line of `pre + [line] + post` holds a newline when none of the parts
      does. */
  lemma NoNewlineInLines(pre: seq<string>, line: string, post: seq<string>)
    requires forall k :: 0 <= k < |pre| ==> '\n' !in pre[k]
    requires '\n' !in line
    requires forall k :: 0 <= k < |post| ==> '\n' !in post[k]
    ensures forall k :: 0 <= k < |pre + [line] + post| ==> '\n' !in (pre + [line] + post)[k]
  {
    var lines := pre + [line] + post;
    forall k | 0 <= k < |lines|
      ensures '\n' !in lines[k]
    {
      if k < |pre| {
        assert lines[k] == pre[k];
      } else if k > |pre| {
        assert lines[k] == post[k - |pre| - 1];
      }
    }
  }

  /** Only the first line that starts with "Score" matters: whatever comes
      after it (even a line that would parse) and whatever lines without the
      marker come before it leave the score as that line alone decides. */
  lemma FirstScoreLineDecides(pre: seq<string>, line: string, post: seq<string>)
    requires forall k :: 0 <= k < |pre| ==> '\n' !in pre[k] && !StartsWith(pre[k], ScoreMarker)
    requires '\n' !in line && StartsWith(line, ScoreMarker)
    requires forall k :: 0 <= k < |post| ==> '\n' !in post[k]
    ensures LineNumber(line).None? ==> ParseLlmScore(Join(pre + [line] + post, '\n')) == DefaultScore
    ensures LineNumber(line).Some? ==>
              ParseLlmScore(Join(pre + [line] + post, '\n')) == LineNumber(line).value / 10.0
  {
    LinesOfJoin(pre, line, post);
    ScoreLineFirst(pre, line, post);
    assert (pre + [line] + post)[|pre|] == line;
  }

  /** Joining newline-free lines and splitting the result gives them back. */
  lemma LinesOfJoin(pre: seq<string>, line: string, post: seq<string>)
    requires forall k :: 0 <= k < |pre| ==> '\n' !in pre[k]
    requires '\n' !in line
    requires forall k :: 0 <= k < |post| ==> '\n' !in post[k]
    ensures Lines(Join(pre + [line] + post, '\n')) == pre + [line] + post
  {
    NoNewlineInLines(pre, line, post);
    SplitJoin(pre + [line] + post, '\n');
  }

  /** The line after the unmarked ones is the first with the marker. */
  lemma ScoreLineFirst(pre: seq<string>, line: string, post: seq<string>)
    requires forall k :: 0 <= k < |pre| ==> !StartsWith(pre[k], ScoreMarker)
    requires StartsWith(line, ScoreMarker)
    ensures FirstWithPrefix(pre + [line] + post, ScoreMarker) == Some(|pre|)
  {
    var lines := pre + [line] + post;
    assert lines[|pre|] == line;
    assert forall j :: 0 <= j < |pre| ==> lines[j] == pre[j];
    FirstWithPrefixAt(lines, |pre|, ScoreMarker);
  }

  /** The number is read from between the first colon and the second one (or
      the end of the line), after trimming, and only up to the first '/'. */
  lemma LineNumberFields(head: string, field: string, tail: string)
    requires ':' !in head && ':' !in field
    requires tail == "" || tail[0] == ':'
    ensures LineNumber(head + ":" + field + tail) == ParseFloat(Split(Strip(field), '/')[0])
  {
    SplitFields(head, ':', field, tail);
  }

  /** The text that reaches `float()` from a field holding a padded numeral
      and a "/..." denominator is the numeral and the whitespace after it,
      which `str.strip()` no longer reaches. It is read as the numeral when
      that whitespace holds no information separator (U+001C..U+001F), and
      is a `ValueError` otherwise. */
  lemma NumeralBeforeSlash(w1: string, n: Numeral, w2: string, cut: string)
    requires AllSpace(w1) && AllSpace(w2) && WellFormed(n)
    requires |cut| > 0 && cut[0] == '/'
    ensures ParseFloat(Split(Strip(w1 + Render(n) + w2 + cut), '/')[0])
            == (if AllFloatSpace(w2) then Some(Value(n)) else None)
  {
    var z := cut[1..];
    var kept := Render(n) + w2;
    var withSlash := kept + "/";
    var field := w1 + Render(n) + w2 + cut;
    assert field == w1 + (withSlash + z);
    assert StripStart(field) == withSlash + z by {
      RenderEnds(n);
      StripStartPadded(w1, withSlash + z);
    }
    assert Strip(field) == withSlash + StripEnd(z) by {
      StripEndConcat(withSlash, z);
    }
    assert Split(withSlash + StripEnd(z), '/')[0] == kept by {
      NumeralText(n);
      NotInSpace(w2, '/');
      SplitCons(kept, '/', StripEnd(z));
    }
    NumeralThenSpace(n, w2);
  }

  /** The same without a denominator. */
  lemma NumeralAlone(w1: string, n: Numeral, w2: string)
    requires AllSpace(w1) && AllSpace(w2) && WellFormed(n)
    ensures ParseFloat(Split(Strip(w1 + Render(n) + w2), '/')[0]) == Some(Value(n))
  {
    RenderEnds(n);
    StripPadded(w1, Render(n), w2);
    NumeralAloneField(n);
  }

  /** A rendered numeral holds no '/', so it is read whole. */
  lemma NumeralAloneField(n: Numeral)
    requires WellFormed(n)
    ensures ParseFloat(Split(Render(n), '/')[0]) == Some(Value(n))
  {
    NumeralText(n);
    SplitFirstField(Render(n), '/', "");
    assert Render(n) + "" == Render(n);
    ParseRender(n);
  }

  /** A numeral after the colon, with any whitespace around it and an
      optional "/..." denominator, is read as that numeral's value, unless
      an information separator stands between it and the '/'. */
  lemma LineNumberOfNumeral(head: string, w1: string, n: Numeral, w2: string,
                            cut: string, tail: string)
    requires ':' !in head
    requires AllSpace(w1) && AllSpace(w2) && WellFormed(n)
    requires cut == "" || (cut[0] == '/' && ':' !in cut)
    requires tail == "" || tail[0] == ':'
    ensures LineNumber(head + ":" + (w1 + Render(n) + w2 + cut) + tail)
            == (if cut == "" || AllFloatSpace(w2) then Some(Value(n)) else None)
  {
    NumeralText(n);
    NotInSpace(w1, ':');
    NotInSpace(w2, ':');
    LineNumberFields(head, w1 + Render(n) + w2 + cut, tail);
    if cut == "" {
      assert w1 + Render(n) + w2 + cut == w1 + Render(n) + w2;
      NumeralAlone(w1, n, w2);
    } else {
      NumeralBeforeSlash(w1, n, w2, cut);
    }
  }

  /** A line built from the marker, a head, a colon, a field and a tail
      starts with the marker, and it is one line when its parts are. */
  lemma ScoreLineShape(head: string, field: string, tail: string)
    requires '\n' !in head && '\n' !in field && '\n' !in tail
    ensures '\n' !in ScoreMarker + head + ":" + field + tail
    ensures StartsWith(ScoreMarker + head + ":" + field + tail, ScoreMarker)
  {
    assert StartsWith(ScoreMarker + head, ScoreMarker) by {
      assert (ScoreMarker + head)[..|ScoreMarker|] == ScoreMarker;
    }
    StartsWithExtend(ScoreMarker + head, ScoreMarker, ":");
    StartsWithExtend(ScoreMarker + head + ":", ScoreMarker, field);
    StartsWithExtend(ScoreMarker + head + ":" + field, ScoreMarker, tail);
  }

  /** A score line carrying a numeral is one line of text, has the marker,
      and is read as the numeral's value unless an information separator
      precedes the '/'. */
  lemma ScoreLineOfNumeral(head: string, w1: string, n: Numeral, w2: string,
                           cut: string, tail: string)
    requires ':' !in head && '\n' !in head
    requires AllSpace(w1) && AllSpace(w2) && WellFormed(n)
    requires '\n' !in w1 && '\n' !in w2
    requires cut == "" || (cut[0] == '/' && ':' !in cut)
    requires tail == "" || tail[0] == ':'
    requires '\n' !in cut && '\n' !in tail
    ensures '\n' !in ScoreMarker + head + ":" + (w1 + Render(n) + w2 + cut) + tail
    ensures StartsWith(ScoreMarker + head + ":" + (w1 + Render(n) + w2 + cut) + tail, ScoreMarker)
    ensures LineNumber(ScoreMarker + head + ":" + (w1 + Render(n) + w2 + cut) + tail)
            == (if cut == "" || AllFloatSpace(w2) then Some(Value(n)) else None)
  {
    LineNumberOfNumeral(ScoreMarker + head, w1, n, w2, cut, tail);
    assert '\n' !in w1 + Render(n) + w2 + cut by {
      NumeralText(n);
    }
    ScoreLineShape(head, w1 + Render(n) + w2 + cut, tail);
  }

  /** A well-formed answer from the judge: no line before the score line
      starts with "Score", and the score line carries a numeral after its
      first colon, padded with any whitespace, optionally followed by a
      "/..." denominator and by more colon-separated text. Its score is that
      numeral divided by 10, with no clamping; only an information separator
      (U+001C..U+001F) between the numeral and the '/' makes it
      `DefaultScore`, since `float()` does not skip those. */
  lemma WellFormedVerdict(pre: seq<string>, head: string, w1: string, n: Numeral,
                          w2: string, cut: string, tail: string, post: seq<string>)
    requires forall k :: 0 <= k < |pre| ==> '\n' !in pre[k] && !StartsWith(pre[k], ScoreMarker)
    requires ':' !in head && '\n' !in head
    requires AllSpace(w1) && AllSpace(w2) && WellFormed(n)
    requires '\n' !in w1 && '\n' !in w2
    requires cut == "" || (cut[0] == '/' && ':' !in cut)
    requires tail == "" || tail[0] == ':'
    requires '\n' !in cut && '\n' !in tail
    requires forall k :: 0 <= k < |post| ==> '\n' !in post[k]
    ensures ParseLlmScore(Join(pre + [ScoreMarker + head + ":" + (w1 + Render(n) + w2 + cut) + tail] + post, '\n'))
            == (if cut == "" || AllFloatSpace(w2) then Value(n) / 10.0 else DefaultScore)
  {
    ScoreLineOfNumeral(head, w1, n, w2, cut, tail);
    FirstScoreLineDecides(pre, ScoreMarker + head + ":" + (w1 + Render(n) + w2 + cut) + tail, post);
  }

  /** A score line whose field after the first colon holds no number (a
      word, nothing at all, a malformed numeral) gives `DefaultScore`, even
      when a later line would parse. */
  lemma UnreadableScoreLine(pre: seq<string>, head: string, field: string, tail: string,
                            post: seq<string>)
    requires forall k :: 0 <= k < |pre| ==> '\n' !in pre[k] && !StartsWith(pre[k], ScoreMarker)
    requires ':' !in head && '\n' !in head && ':' !in field && '\n' !in field
    requires tail == "" || tail[0] == ':'
    requires '\n' !in tail
    requires ParseFloat(Split(Strip(field), '/')[0]).None?
    requires forall k :: 0 <= k < |post| ==> '\n' !in post[k]
    ensures ParseLlmScore(Join(pre + [ScoreMarker + head + ":" + field + tail] + post, '\n')) == DefaultScore
  {
    LineNumberFields(ScoreMarker + head, field, tail);
    ScoreLineShape(head, field, tail);
    FirstScoreLineDecides(pre, ScoreMarker + head + ":" + field + tail, post);
  }

  /** After any whitespace, a word holding a character no numeral has (a
      letter, say), up to an optional "/..." denominator, is no number. */
  lemma WordBeforeCut(w1: string, word: string, cut: string, k: nat)
    requires AllSpace(w1)
    requires k < |word| && !NumeralChar(word[k])
    requires '/' !in word && !IsSpace(word[0]) && !IsSpace(word[|word| - 1])
    requires cut == "" || (cut[0] == '/' && !IsSpace(cut[|cut| - 1]))
    ensures ParseFloat(Split(Strip(w1 + (word + cut)), '/')[0]) == None
  {
    var t := word + cut;
    ConcatEnds(word, cut);
    StripLead(w1, t);
    SplitFirstField(word, '/', cut);
    NotNumeralText(word, k);
  }

  /** A word in place of the number ("Score: seven", "Score: n/a") gives
      `DefaultScore`, even when a later score line would parse: only the
      first line with the marker is read. */
  lemma WordForNumber(pre: seq<string>, head: string, w1: string, word: string, cut: string,
                      tail: string, post: seq<string>, k: nat)
    requires forall j :: 0 <= j < |pre| ==> '\n' !in pre[j] && !StartsWith(pre[j], ScoreMarker)
    requires ':' !in head && '\n' !in head
    requires AllSpace(w1) && '\n' !in w1
    requires k < |word| && !NumeralChar(word[k])
    requires '/' !in word && ':' !in word && '\n' !in word
    requires !IsSpace(word[0]) && !IsSpace(word[|word| - 1])
    requires cut == "" || (cut[0] == '/' && !IsSpace(cut[|cut| - 1]))
    requires ':' !in cut && '\n' !in cut
    requires tail == "" || tail[0] == ':'
    requires '\n' !in tail
    requires forall j :: 0 <= j < |post| ==> '\n' !in post[j]
    ensures ParseLlmScore(Join(pre + [ScoreMarker + head + ":" + (w1 + (word + cut)) + tail] + post, '\n'))
            == DefaultScore
  {
    WordBeforeCut(w1, word, cut, k);
    OneColonFreeLine(w1, word + cut);
    UnreadableScoreLine(pre, head, w1 + (word + cut), tail, post);
  }

  /** Whitespace without a newline, then a colon-free line, is a colon-free
      line. */
  lemma OneColonFreeLine(w: string, t: string)
    requires AllSpace(w) && '\n' !in w
    requires ':' !in t && '\n' !in t
    ensures ':' !in w + t && '\n' !in w + t
  {
    NotInSpace(w, ':');
  }

  /** Nothing but whitespace after the colon is no number. */
  lemma BlankBeforeCut(w: string)
    requires AllSpace(w)
    ensures ParseFloat(Split(Strip(w), '/')[0]) == None
    ensures ':' !in w
  {
    NotInSpace(w, ':');
    StripBlank(w);
    SplitFirstField("", '/', "");
    assert "" + "" == "";
    BlankNotNumeral("");
  }

  /** An empty score ("Score:" and nothing after it) gives `DefaultScore`. */
  lemma BlankScore(pre: seq<string>, head: string, w: string, tail: string, post: seq<string>)
    requires forall j :: 0 <= j < |pre| ==> '\n' !in pre[j] && !StartsWith(pre[j], ScoreMarker)
    requires ':' !in head && '\n' !in head
    requires AllSpace(w) && '\n' !in w
    requires tail == "" || tail[0] == ':'
    requires '\n' !in tail
    requires forall j :: 0 <= j < |post| ==> '\n' !in post[j]
    ensures ParseLlmScore(Join(pre + [ScoreMarker + head + ":" + w + tail] + post, '\n')) == DefaultScore
  {
    BlankBeforeCut(w);
    UnreadableScoreLine(pre, head, w, tail, post);
  }

  /** A score line without a colon gives `DefaultScore`. */
  lemma ScoreLineWithoutColon(pre: seq<string>, rest: string, post: seq<string>)
    requires forall k :: 0 <= k < |pre| ==> '\n' !in pre[k] && !StartsWith(pre[k], ScoreMarker)
    requires ':' !in rest && '\n' !in rest
    requires forall k :: 0 <= k < |post| ==> '\n' !in post[k]
    ensures ParseLlmScore(Join(pre + [ScoreMarker + rest] + post, '\n')) == DefaultScore
  {
    var line := ScoreMarker + rest;
    assert StartsWith(line, ScoreMarker) by {
      assert line[..|ScoreMarker|] == ScoreMarker;
    }
    assert ':' !in line && '\n' !in line;
    assert LineNumber(line) == None;
    FirstScoreLineDecides(pre, line, post);
  }

  /** The lexical half of the blend: the mean of the three ROUGE F-values. */
  datatype RougeScores = RougeScores(rouge1: real, rouge2: real, rougeL: real)

  predicate InUnit(x: real) {
    0.0 <= x <= 1.0
  }

  /** `sum(rouge_scores.values()) / len(rouge_scores)`: it lies between the
      smallest and the largest of the three and is their common value when
      they agree. */
  function RougeMean(s: RougeScores): (m: real)
    ensures Min(s.rouge1, Min(s.rouge2, s.rougeL)) <= m <= Max(s.rouge1, Max(s.rouge2, s.rougeL))
    ensures s.rouge1 == s.rouge2 == s.rougeL ==> m == s.rouge1
  {
    (s.rouge1 + s.rouge2 + s.rougeL) / 3.0
  }

  /** The record `score_answer` returns. */
  datatype Evaluation = Evaluation(finalScore: real, rougeScores: RougeScores,
                                   llmEvaluation: string, llmScore: real)

  /** `score_answer` once the ROUGE values and the judge's text are known: the
      judge's text is returned unchanged next to the score parsed from it,
      and the final score is the midpoint of the ROUGE mean and that score,
      so it stays in [0, 1] when all of its inputs do. */
  function ScoreAnswer(rougeScores: RougeScores, llmEvaluation: string): (r: Evaluation)
    ensures r.rougeScores == rougeScores && r.llmEvaluation == llmEvaluation
    ensures r.llmScore == ParseLlmScore(llmEvaluation)
    ensures r.finalScore - RougeMean(rougeScores) == r.llmScore - r.finalScore
    ensures (&& InUnit(rougeScores.rouge1) && InUnit(rougeScores.rouge2)
             && InUnit(rougeScores.rougeL) && InUnit(r.llmScore))
            ==> InUnit(r.finalScore)
  {
    var llmScore := ParseLlmScore(llmEvaluation);
    var finalScore := Blend(0.5, RougeMean(rougeScores), llmScore);
    Evaluation(finalScore, rougeScores, llmEvaluation, llmScore)
  }
}
