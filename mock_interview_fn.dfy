/** The `mock-interview` edge function: it builds a question-generation
    prompt when asked to, and returns the questions found in the model's
    reply, or none. The model call is an input: `content` is the reply text. */
module InterviewFunction {
  import opened Wrappers
  import opened JsText
  import opened JsonExtract

  const GenerateAction := "generate_questions"
  const QuestionLead := "Generate 5 "
  const DifficultyWord := " difficulty "
  const RoleLead := " interview questions for a "
  const QuestionTail := " position. \n      \nFormat as a JSON array of objects with \"question\" and \"category\" fields."

  /** The prompt: built only for the `generate_questions` action, asking for
      five questions and embedding difficulty, type and role verbatim. */
  function QuestionPrompt(action: string, difficulty: string, kind: string, role: string): (prompt: string)
    ensures action != GenerateAction ==> prompt == ""
    ensures action == GenerateAction ==>
      var a := |QuestionLead| + |difficulty| + |DifficultyWord|;
      var b := a + |kind| + |RoleLead|;
      && |prompt| == b + |role| + |QuestionTail|
      && prompt[..|QuestionLead|] == QuestionLead
      && prompt[|QuestionLead|..|QuestionLead| + |difficulty|] == difficulty
      && prompt[a..a + |kind|] == kind
      && prompt[b..b + |role|] == role
      && prompt[b + |role|..] == QuestionTail
  {
    if action == GenerateAction then
      PromptLayout(QuestionLead, difficulty, DifficultyWord, kind, RoleLead, role, QuestionTail);
      QuestionLead + difficulty + DifficultyWord + kind + RoleLead + role + QuestionTail
    else ""
  }

  /** Where each piece of the seven-part template sits. */
  lemma PromptLayout(p1: string, d: string, p2: string, k: string, p3: string, role: string, tail: string)
    ensures var prompt := p1 + d + p2 + k + p3 + role + tail;
      var a := |p1| + |d| + |p2|;
      var b := a + |k| + |p3|;
      && |prompt| == b + |role| + |tail|
      && prompt[..|p1|] == p1
      && prompt[|p1|..|p1| + |d|] == d
      && prompt[a..a + |k|] == k
      && prompt[b..b + |role|] == role
      && prompt[b + |role|..] == tail
  {
    var front := p1 + d + p2 + k + p3;
    var prompt := front + role + tail;
    Splice(p1, d, p2, k, p3);
    InfixAt(front, role, tail);
    var a := |p1| + |d| + |p2|;
    assert prompt[..|front|] == front;
    assert prompt[..|p1|] == front[..|p1|];
    assert prompt[|p1|..|p1| + |d|] == front[|p1|..|p1| + |d|];
    assert prompt[a..a + |k|] == front[a..a + |k|];
  }

  /** What the function answers with: the JSON text found (handed to
      `JSON.parse`), or the empty list. */
  datatype Questions = ParsedQuestions(json: string) | NoQuestions

  function QuestionsFor(content: string): (r: Questions)
    ensures r.NoQuestions? <==> SelectJson(content, '[', ']').None?
    ensures r.ParsedQuestions? ==> SelectJson(content, '[', ']') == Some(r.json)
  {
    match SelectJson(content, '[', ']')
    case Some(t) => ParsedQuestions(t)
    case None => NoQuestions
  }

  /** A reply with neither backticks nor an opening bracket yields no
      questions. */
  lemma PlainReplyHasNoQuestions(content: string)
    requires '`' !in content && '[' !in content
    ensures QuestionsFor(content) == NoQuestions
  {
    NoBacktickNoOpener(content);
    NoOpenerNoFence(content);
    SpanWithoutFence(content, '[', ']');
  }

  /** Whenever the fence expression fails, the questions text runs from the
      first `[` to the last `]`, inclusive, if a `[` comes before a `]`. */
  lemma BracketSpanIsGreedy(content: string)
    requires FindFence(content, 0).None?
    requires exists a, b :: 0 <= a < b < |content| && content[a] == '[' && content[b] == ']'
    ensures exists a: nat, b: nat ::
      FirstToLast(content, '[', ']', a, b) && QuestionsFor(content) == ParsedQuestions(content[a..b + 1])
  {
    SpanWithoutFence(content, '[', ']');
    var a: nat, b: nat :| FirstToLast(content, '[', ']', a, b) && SelectJson(content, '[', ']') == Some(content[a..b + 1]);
    assert QuestionsFor(content) == ParsedQuestions(content[a..b + 1]);
  }
}
