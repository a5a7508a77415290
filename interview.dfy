/** The mock-interview screen: the user picks a role, a difficulty and an
    interview type, the `mock-interview` function generates questions, and
    the user answers them one by one by voice. The recorder, the network and
    the toasts are outside the model and reach it through parameters. */
module InterviewScreen {
  import opened Wrappers
  import JsText
  import JsMath
  import InterviewFunction

  /** `feedback` is declared as a step but no handler ever enters it. */
  datatype Step = Setup | Interview | Feedback

  datatype Question = Question(question: string, category: string)

  /** The body sent to the `mock-interview` function. */
  datatype Request = Request(role: string, difficulty: string, kind: string, action: string)

  /** The "Progress" figure: `Math.round((index + 1) / n * 100)`, taken over
      exact fractions. With no questions the division is by zero: the
      source then renders `Infinity%`, which `None` stands for. */
  function ProgressPercent(index: nat, n: nat): (p: Option<int>)
    ensures n == 0 <==> p.None?
    ensures p.Some? ==> 2 * n * p.value <= 200 * (index + 1) + n < 2 * n * p.value + 2 * n
  {
    if n == 0 then None else Some(JsMath.RoundDiv(100 * (index + 1), n))
  }

  lemma MulMono(m: int, a: int, b: int)
    requires m > 0 && a <= b
    ensures m * a <= m * b
  {
  }

  /** At the last question the figure is exactly 100; before it, and with
      fewer than 200 questions, it is below 100; it never exceeds 100. */
  lemma ProgressReachesHundredAtEnd(index: nat, n: nat)
    requires index < n < 200
    ensures ProgressPercent(index, n).Some?
    ensures ProgressPercent(index, n).value <= 100
    ensures ProgressPercent(index, n).value == 100 <==> index == n - 1
  {
    var p := ProgressPercent(index, n).value;
    var m := 2 * n;
    if p > 100 {
      MulMono(m, 101, p);
      assert false;
    }
    if index == n - 1 {
      if p < 100 {
        MulMono(m, p + 1, 100);
        assert false;
      }
    } else {
      if p == 100 {
        assert false;
      }
    }
  }

  /** With 200 questions the figure already rounds to 100 at the
      next-to-last one, so the bound of `ProgressReachesHundredAtEnd` is
      tight. */
  lemma ProgressRoundsUpBeforeEnd()
    ensures ProgressPercent(198, 200) == Some(100)
  {
    assert (200 * 199 + 200) / 400 == 100;
  }

  class InterviewSession {
    var step: Step
    var role: string
    var difficulty: string
    var kind: string
    var questions: seq<Question>
    var currentQuestionIndex: int
    var isLoadingQuestions: bool
    var isProcessing: bool
    /** The recorder hook's state: recording, and a finished recording held. */
    var isRecording: bool
    var hasAudio: bool

    /** The index never passes the last question, is 0 while there are no
        questions, and the setup step has no questions yet. */
    ghost predicate Valid()
      reads this
    {
      && 0 <= currentQuestionIndex
      && (currentQuestionIndex == 0 || currentQuestionIndex < |questions|)
      && step != Feedback
      && (step == Setup ==> questions == [] && currentQuestionIndex == 0)
    }

    constructor ()
      ensures Valid()
      ensures step == Setup && role == "" && difficulty == "medium" && kind == "behavioral"
      ensures questions == [] && currentQuestionIndex == 0
      ensures !isLoadingQuestions && !isProcessing && !isRecording && !hasAudio
    {
      step := Setup;
      role := "";
      difficulty := "medium";
      kind := "behavioral";
      questions := [];
      currentQuestionIndex := 0;
      isLoadingQuestions := false;
      isProcessing := false;
      isRecording := false;
      hasAudio := false;
    }

    /** The role, difficulty and type buttons of the setup step. */
    method Configure(newRole: string, newDifficulty: string, newKind: string)
      requires Valid()
      modifies this
      ensures Valid()
      ensures role == newRole && difficulty == newDifficulty && kind == newKind
      ensures step == old(step) && questions == old(questions)
      ensures currentQuestionIndex == old(currentQuestionIndex) && isLoadingQuestions == old(isLoadingQuestions)
      ensures isProcessing == old(isProcessing) && isRecording == old(isRecording) && hasAudio == old(hasAudio)
    {
      role := newRole;
      difficulty := newDifficulty;
      kind := newKind;
    }

    /** `handleStartInterview`, shown only in the setup step. `response` is
        the function's question list, `None` when the call fails. The
        request it would send is returned; none is sent without a role. */
    method StartInterview(response: Option<seq<Question>>) returns (request: Option<Request>)
      requires Valid() && step == Setup
      modifies this
      ensures Valid()
      ensures request.None? <==> role == ""
      ensures request.Some? ==> request.value == Request(role, difficulty, kind, InterviewFunction.GenerateAction)
      ensures role == "" ==> isLoadingQuestions == old(isLoadingQuestions)
      ensures role != "" ==> !isLoadingQuestions
      ensures role != "" && response.Some? ==> step == Interview && questions == response.value
      ensures !(role != "" && response.Some?) ==> step == Setup && questions == old(questions)
      ensures role == old(role) && difficulty == old(difficulty) && kind == old(kind)
      ensures currentQuestionIndex == old(currentQuestionIndex)
      ensures isProcessing == old(isProcessing) && isRecording == old(isRecording) && hasAudio == old(hasAudio)
    {
      if role == "" {
        return None;
      }
      request := Some(Request(role, difficulty, kind, InterviewFunction.GenerateAction));
      isLoadingQuestions := true;
      if response.Some? {
        questions := response.value;
        step := Interview;
      }
      isLoadingQuestions := false;
    }

    /** `handleStartAnswer`; `micOk` says whether the microphone opened. */
    method StartAnswer(micOk: bool)
      requires Valid()
      modifies this
      ensures Valid()
      ensures isRecording == (old(isRecording) || micOk)
      ensures hasAudio == (if micOk then false else old(hasAudio))
      ensures step == old(step) && questions == old(questions) && currentQuestionIndex == old(currentQuestionIndex)
      ensures isProcessing == old(isProcessing) && isLoadingQuestions == old(isLoadingQuestions)
      ensures role == old(role) && difficulty == old(difficulty) && kind == old(kind)
    {
      if micOk {
        isRecording := true;
        hasAudio := false;
      }
    }

    /** `handleStopAnswer`, the button's action while recording. */
    method StopAnswer()
      requires Valid() && isRecording
      modifies this
      ensures Valid()
      ensures !isRecording && hasAudio && isProcessing
      ensures step == old(step) && questions == old(questions) && currentQuestionIndex == old(currentQuestionIndex)
      ensures isLoadingQuestions == old(isLoadingQuestions)
      ensures role == old(role) && difficulty == old(difficulty) && kind == old(kind)
    {
      isRecording := false;
      hasAudio := true;
      isProcessing := true;
    }

    /** The effect that processes a recorded answer, taken as one step. It
        runs only when a recording exists and processing was requested;
        `transcribed` says whether the transcription call succeeded. The
        index moves on only from a question before the last. */
    method ProcessAnswer(transcribed: bool)
      requires Valid()
      modifies this
      ensures Valid()
      ensures var runs := old(hasAudio) && old(isProcessing);
        && (runs ==> !isProcessing && !hasAudio)
        && (!runs ==> isProcessing == old(isProcessing) && hasAudio == old(hasAudio))
        && (runs && transcribed && old(currentQuestionIndex) < |questions| - 1 ==>
              currentQuestionIndex == old(currentQuestionIndex) + 1)
        && (!(runs && transcribed && old(currentQuestionIndex) < |questions| - 1) ==>
              currentQuestionIndex == old(currentQuestionIndex))
      ensures |questions| == 0 ==> currentQuestionIndex == 0
      ensures step == old(step) && questions == old(questions)
      ensures isRecording == old(isRecording) && isLoadingQuestions == old(isLoadingQuestions)
      ensures role == old(role) && difficulty == old(difficulty) && kind == old(kind)
    {
      if !(hasAudio && isProcessing) {
        return;
      }
      if transcribed && currentQuestionIndex < |questions| - 1 {
        currentQuestionIndex := currentQuestionIndex + 1;
      }
      isProcessing := false;
      hasAudio := false;
    }
  }

  /** The request a start sends asks the function for a non-empty prompt
      that ends with the chosen role and the output format. */
  lemma RequestAsksForQuestions(r: Request)
    requires r.action == InterviewFunction.GenerateAction
    ensures var prompt := InterviewFunction.QuestionPrompt(r.action, r.difficulty, r.kind, r.role);
      prompt != "" && JsText.EndsWith(prompt, r.role + InterviewFunction.QuestionTail)
  {
    var prompt := InterviewFunction.QuestionPrompt(r.action, r.difficulty, r.kind, r.role);
    var i := |InterviewFunction.QuestionLead| + |r.difficulty| + |InterviewFunction.DifficultyWord|
      + |r.kind| + |InterviewFunction.RoleLead|;
    EndsWithPieces(prompt, i, r.role, InterviewFunction.QuestionTail);
  }

  lemma EndsWithPieces(s: string, i: nat, a: string, b: string)
    requires |s| == i + |a| + |b| && s[i..i + |a|] == a && s[i + |a|..] == b
    ensures JsText.EndsWith(s, a + b)
  {
    assert s[i..] == s[i..i + |a|] + s[i + |a|..];
  }
}
