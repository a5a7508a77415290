/** The `analyze-speech` edge function: it picks a prompt by the request's
    `type`, sends it to the language model, and returns the model's feedback
    together with a score read out of that feedback by the regular expression
    `(\d+)\s*\/\s*100`, or 75 when nothing matches. The model call is an input
    here: `feedback` is whatever text the model returned. */
module AnalyzeSpeech {
  import opened Wrappers
  import opened JsText

  const DefaultScore: nat := 75

  const SpeechLead := "Analyze this speech about \""
  const SpeechMid := "\" and provide constructive feedback:\n\nText: "
  const SpeechTail := "\n\nProvide feedback on:\n1. Content quality and relevance\n2. Clarity and coherence\n3. Vocabulary and language use\n4. Areas for improvement\n\nGive a score out of 100 and detailed feedback."

  const InterviewLead := "Evaluate this interview answer:\n\nQuestion context: "
  const InterviewMid := "\nAnswer: "
  const InterviewTail := "\n\nProvide:\n1. Strengths of the answer\n2. Areas for improvement\n3. Communication clarity\n4. Score out of 100"

  /** The speech template, with the topic and the transcript embedded
      verbatim at fixed places. */
  function SpeechPrompt(topic: string, text: string): (prompt: string)
    ensures |prompt| == |SpeechLead| + |topic| + |SpeechMid| + |text| + |SpeechTail|
    ensures prompt[..|SpeechLead|] == SpeechLead
    ensures prompt[|SpeechLead|..|SpeechLead| + |topic|] == topic
    ensures prompt[|SpeechLead| + |topic| + |SpeechMid|..|SpeechLead| + |topic| + |SpeechMid| + |text|] == text
  {
    Splice(SpeechLead, topic, SpeechMid, text, SpeechTail);
    SpeechLead + topic + SpeechMid + text + SpeechTail
  }

  /** The interview-answer template, with the question context and the
      answer embedded verbatim at fixed places. */
  function InterviewPrompt(topic: string, text: string): (prompt: string)
    ensures |prompt| == |InterviewLead| + |topic| + |InterviewMid| + |text| + |InterviewTail|
    ensures prompt[..|InterviewLead|] == InterviewLead
    ensures prompt[|InterviewLead|..|InterviewLead| + |topic|] == topic
    ensures prompt[|InterviewLead| + |topic| + |InterviewMid|..|InterviewLead| + |topic| + |InterviewMid| + |text|] == text
  {
    Splice(InterviewLead, topic, InterviewMid, text, InterviewTail);
    InterviewLead + topic + InterviewMid + text + InterviewTail
  }

  /** The prompt sent to the model: one template per known `type`, and the
      empty prompt for any other `type` (the presentation screen sends
      `'presentation'`, which is not one of them). */
  function SelectPrompt(kind: string, topic: string, text: string): (prompt: string)
    ensures kind == "speech" ==> prompt == SpeechPrompt(topic, text)
    ensures kind == "interview" ==> prompt == InterviewPrompt(topic, text)
    ensures prompt == "" <==> kind != "speech" && kind != "interview"
  {
    if kind == "speech" then SpeechPrompt(topic, text)
    else if kind == "interview" then InterviewPrompt(topic, text)
    else ""
  }

  /** The presentation screen's request type selects no template. */
  lemma PresentationPromptIsEmpty(topic: string, text: string)
    ensures SelectPrompt("presentation", topic, text) == ""
  {
    assert "presentation" != "speech";
  }

  /** What the regular expression `(\d+)\s*\/\s*100` means when it matches at
      `i` with the group `s[i..j]`, for any way of dividing the text among
      its parts (so any backtracking choice). */
  ghost predicate RegexMatchesAt(s: string, i: nat, j: nat) {
    && i < j <= |s|
    && (forall t :: i <= t < j ==> IsDigit(s[t]))
    && exists a: nat, b: nat :: ScoreTailAt(s, j, a, b)
  }

  /** `\s*\/\s*100` matches from `j`, with the slash at `a` and `100` at `b`. */
  ghost predicate ScoreTailAt(s: string, j: nat, a: nat, b: nat) {
    && j <= a < b <= |s|
    && (forall t :: j <= t < a ==> IsSpace(s[t]))
    && s[a] == '/'
    && (forall t :: a + 1 <= t < b ==> IsSpace(s[t]))
    && StartsWith(s[b..], "100")
  }

  /** The regular-expression engine tried at position `i`: greedy `\d+`,
      greedy `\s*`, a slash, greedy `\s*`, then `100`. On a match, the end of
      the captured digit group. */
  function ScoreMatchAt(s: string, i: nat): (m: Option<nat>)
    requires i <= |s|
    ensures m.Some? ==> i < m.value <= |s| && forall t :: i <= t < m.value ==> IsDigit(s[t])
  {
    var j := DigitRunEnd(s, i);
    if j == i then None
    else
      var a := SpaceRunEnd(s, j);
      if a < |s| && s[a] == '/' && StartsWith(s[SpaceRunEnd(s, a + 1)..], "100") then Some(j)
      else None
  }

  /** The engine's greedy choices find a match exactly when the pattern can
      match at all, and then with the only possible group: giving back a
      digit, or a white-space character, never helps. */
  lemma MatchAtIsRegexMatch(s: string, i: nat, j: nat)
    requires i <= |s|
    ensures ScoreMatchAt(s, i) == Some(j) <==> RegexMatchesAt(s, i, j)
  {
    if ScoreMatchAt(s, i) == Some(j) {
      EngineMatchIsRegexMatch(s, i, j);
    }
    if RegexMatchesAt(s, i, j) {
      var a: nat, b: nat :| ScoreTailAt(s, j, a, b);
      RegexMatchIsEngineMatch(s, i, j, a, b);
    }
  }

  lemma EngineMatchIsRegexMatch(s: string, i: nat, j: nat)
    requires i <= |s| && ScoreMatchAt(s, i) == Some(j)
    ensures RegexMatchesAt(s, i, j)
  {
    var a := SpaceRunEnd(s, j);
    assert ScoreTailAt(s, j, a, SpaceRunEnd(s, a + 1));
  }

  lemma RegexMatchIsEngineMatch(s: string, i: nat, j: nat, a: nat, b: nat)
    requires i < j <= |s| && (forall t :: i <= t < j ==> IsDigit(s[t])) && ScoreTailAt(s, j, a, b)
    ensures ScoreMatchAt(s, i) == Some(j)
  {
    assert s[b..][0] == '1';
    DigitRunEndUnique(s, i, j);
    SpaceRunEndUnique(s, j, a);
    SpaceRunEndUnique(s, a + 1, b);
  }

  /** Leftmost match at or after `from`: the start and the end of the digit
      group. */
  function FindScore(s: string, from: nat): (m: Option<(nat, nat)>)
    requires from <= |s|
    ensures m.Some? ==>
      && from <= m.value.0 <= |s|
      && ScoreMatchAt(s, m.value.0) == Some(m.value.1)
      && forall k :: from <= k < m.value.0 ==> ScoreMatchAt(s, k).None?
    ensures m.None? ==> forall k :: from <= k <= |s| ==> ScoreMatchAt(s, k).None?
    decreases |s| - from
  {
    match ScoreMatchAt(s, from)
    case Some(j) => Some((from, j))
    case None => if from == |s| then None else FindScore(s, from + 1)
  }

  /** The score of lines 62-63: the number in the leftmost `N/100`, else 75. */
  function ExtractScore(feedback: string): nat {
    match FindScore(feedback, 0)
    case Some((i, j)) =>
      assert AllDigits(feedback[i..j]);
      DigitsValue(feedback[i..j])
    case None => DefaultScore
  }

  /** Feedback in which `N/100` occurs nowhere scores 75. */
  lemma {:induction false} NoMatchScoresDefault(s: string)
    requires forall i: nat, j: nat :: !RegexMatchesAt(s, i, j)
    ensures ExtractScore(s) == DefaultScore
  {
    match FindScore(s, 0)
    case Some((i, j)) =>
      MatchAtIsRegexMatch(s, i, j);
      assert false;
    case None =>
  }

  /** The score is the value of the whole digit group of the leftmost match. */
  lemma {:induction false} ScoreIsLeftmostMatch(s: string, i: nat, j: nat)
    requires RegexMatchesAt(s, i, j)
    requires forall i': nat, j': nat :: i' < i ==> !RegexMatchesAt(s, i', j')
    ensures ExtractScore(s) == DigitsValue(s[i..j])
  {
    MatchAtIsRegexMatch(s, i, j);
    match FindScore(s, 0)
    case Some((i', j')) =>
      MatchAtIsRegexMatch(s, i', j');
      if i' < i {
        assert false;
      }
    case None =>
      assert false;
  }

  /** The leftmost match never starts inside a run of digits, and its group
      runs to the end of that run: the score is never just a suffix (or a
      prefix) of the number written before `/100`. */
  lemma {:induction false} LeftmostMatchIsWholeNumber(s: string, i: nat, j: nat)
    requires RegexMatchesAt(s, i, j)
    requires forall i': nat, j': nat :: i' < i ==> !RegexMatchesAt(s, i', j')
    ensures i == 0 || !IsDigit(s[i - 1])
    ensures j == |s| || !IsDigit(s[j])
  {
    MatchAtIsRegexMatch(s, i, j);
    if i > 0 && IsDigit(s[i - 1]) {
      assert DigitRunEnd(s, i - 1) == DigitRunEnd(s, i);
      MatchAtIsRegexMatch(s, i - 1, j);
      assert false;
    }
  }

  /** Scores are not clamped to 0..100. */
  lemma ScoreIsNotClamped()
    ensures ExtractScore("250/100") == 250
  {
    var s := "250/100";
    assert ScoreMatchAt(s, 0) == Some(3);
    assert s[0..3] == "250";
    assert DigitsValue("250") == 250 by {
      assert "250"[..2] == "25";
      assert "25"[..1] == "2";
      assert "2"[..0] == "";
    }
  }

  /** Nothing after `100` is checked, so `85/1000` scores 85. */
  lemma TrailingDigitsAfterHundredIgnored()
    ensures ExtractScore("85/1000") == 85
  {
    var s := "85/1000";
    assert ScoreMatchAt(s, 0) == Some(2);
    assert s[0..2] == "85";
    assert DigitsValue("85") == 85 by {
      assert "85"[..1] == "8";
      assert "8"[..0] == "";
    }
  }

  datatype Analysis = Analysis(prompt: string, feedback: string, score: nat)

  /** One request: the prompt that goes to the model, and the response built
      from the model's reply, whose feedback is the reply itself. */
  function Analyze(kind: string, topic: string, text: string, reply: string): (r: Analysis)
    ensures r.prompt == SelectPrompt(kind, topic, text)
    ensures r.feedback == reply
    ensures r.score == ExtractScore(reply)
  {
    Analysis(SelectPrompt(kind, topic, text), reply, ExtractScore(reply))
  }
}
