/** The `group-discussion` edge function: it renders the discussion so far
    and the requested style into a prompt, and turns the model's reply into a
    participant turn, either the JSON text found in the reply or a fallback
    turn that carries the whole reply. The model call is an input: `content`
    is the reply text. */
module DiscussionFunction {
  import opened Wrappers
  import opened JsText
  import opened JsonExtract

  /** The `aggressionLevels` table. */
  const AggressionLevels: map<string, string> := map[
    "Friendly" := "friendly and supportive",
    "Moderate" := "moderately challenging",
    "Intense" := "highly competitive and challenging"
  ]

  const FallbackParticipant := "AI Participant 1"

  /** `aggressionLevels[aggression] || 'moderate'`: a key missing from the
      table reads as `undefined`, which is falsy, so the fallback applies. */
  function AggressionStyle(key: string): (style: string)
    ensures key in AggressionLevels ==> style == AggressionLevels[key]
    ensures key !in AggressionLevels ==> style == "moderate"
    ensures style != ""
  {
    var looked := if key in AggressionLevels then AggressionLevels[key] else "";
    if looked != "" then looked else "moderate"
  }

  /** One entry of the history the client sends. */
  datatype Turn = Turn(name: string, message: string)

  function TurnLine(t: Turn): string {
    t.name + ": " + t.message
  }

  /** `history.map(h => `${h.name}: ${h.message}`).join('\n')` */
  function RenderHistory(history: seq<Turn>): (r: string)
    ensures r == "" <==> history == []
  {
    if history == [] then ""
    else if |history| == 1 then TurnLine(history[0])
    else RenderHistory(history[..|history| - 1]) + "\n" + TurnLine(history[|history| - 1])
  }

  /** The rendered lines, one per turn, in order. */
  function Lines(history: seq<Turn>): (lines: seq<string>)
    ensures |lines| == |history|
    ensures forall i :: 0 <= i < |history| ==> lines[i] == TurnLine(history[i])
  {
    if history == [] then [] else Lines(history[..|history| - 1]) + [TurnLine(history[|history| - 1])]
  }

  /** `String.prototype.split('\n')`. */
  function SplitLines(s: string): (lines: seq<string>)
    ensures |lines| >= 1
    decreases |s|
  {
    match LastIndexOf(s, '\n')
    case None => [s]
    case Some(k) => SplitLines(s[..k]) + [s[k + 1..]]
  }

  /** When no name or message holds a line break, splitting the rendered
      history at line breaks gives back one line per turn, in order. */
  lemma {:induction false} SplitRenderedHistory(history: seq<Turn>)
    requires history != []
    requires forall t :: t in history ==> '\n' !in t.name && '\n' !in t.message
    ensures SplitLines(RenderHistory(history)) == Lines(history)
  {
    var n := |history|;
    var last := TurnLine(history[n - 1]);
    assert '\n' !in last;
    if n == 1 {
      assert LastIndexOf(last, '\n').None?;
    } else {
      var front := history[..n - 1];
      assert forall t :: t in front ==> t in history;
      SplitRenderedHistory(front);
      SplitAppend(RenderHistory(front), last);
    }
  }

  /** Appending a line break and a line without breaks appends one line. */
  lemma SplitAppend(r: string, last: string)
    requires '\n' !in last
    ensures SplitLines(r + "\n" + last) == SplitLines(r) + [last]
  {
    var s := r + "\n" + last;
    assert s[|r|] == '\n';
    assert forall k :: |r| < k < |s| ==> s[k] == last[k - |r| - 1];
    assert LastIndexOf(s, '\n') == Some(|r|);
    assert s[..|r|] == r;
    assert s[|r| + 1..] == last;
  }

  const HeaderTail := ".\n\nPrevious discussion:\n"
  const FooterLead := "\n\nGenerate the next response from one of the AI participants. The response should:\n1. Be natural and conversational\n2. Reference previous points made\n3. Add new insights or perspectives\n4. Match the "
  const FooterTail := " discussion style\n\nFormat as JSON: { \"participant\": \"AI Participant X\", \"message\": \"response text\" }"

  /** The prompt up to and including the "Previous discussion:" line. */
  function PromptHeader(topic: string, participants: nat, aggression: string): string {
    "You are simulating " + NatToString(participants) + " AI participants in a group discussion about \""
      + topic + "\".\nThe discussion style should be " + AggressionStyle(aggression) + HeaderTail
  }

  /** The prompt: the header, the rendered history, and a footer that repeats
      the raw style key. */
  function DiscussionPrompt(topic: string, participants: nat, aggression: string, history: seq<Turn>): (prompt: string)
    ensures var header := PromptHeader(topic, participants, aggression);
      var body := RenderHistory(history);
      && |header| + |body| <= |prompt|
      && prompt[..|header|] == header
      && prompt[|header|..|header| + |body|] == body
      && prompt[|header| + |body|..] == FooterLead + aggression + FooterTail
  {
    var header := PromptHeader(topic, participants, aggression);
    var body := RenderHistory(history);
    var footer := FooterLead + aggression + FooterTail;
    InfixAt(header, body, footer);
    header + body + footer
  }

  /** What the function answers with: the JSON text it found (handed to
      `JSON.parse`), or a fallback turn. */
  datatype Reply = Parsed(json: string) | Fallback(participant: string, message: string)

  function ReplyFor(content: string): (r: Reply)
    ensures r.Fallback? <==> SelectJson(content, '{', '}').None?
    ensures r.Fallback? ==> r.participant == FallbackParticipant && r.message == content
    ensures r.Parsed? ==> SelectJson(content, '{', '}') == Some(r.json)
  {
    match SelectJson(content, '{', '}')
    case Some(t) => Parsed(t)
    case None => Fallback(FallbackParticipant, content)
  }

  /** A reply with neither backticks nor an opening brace becomes the
      fallback turn, its text unchanged. */
  lemma PlainReplyIsFallback(content: string)
    requires '`' !in content && '{' !in content
    ensures ReplyFor(content) == Fallback(FallbackParticipant, content)
  {
    NoBacktickNoOpener(content);
    NoOpenerNoFence(content);
    SpanWithoutFence(content, '{', '}');
  }
}
