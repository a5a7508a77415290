/** The group-discussion screen: the user picks a topic, a number of AI
    participants and an aggression level; while the discussion is active a
    timer asks the `group-discussion` function for the next AI turn and
    appends it to the feed. The timer, the network and the toasts are
    outside the model; each AI turn is one step that receives the
    function's reply as a parameter. */
module DiscussionScreen {
  import opened Wrappers
  import DiscussionFunction

  datatype Step = Setup | Discussion

  /** An entry of the discussion feed. */
  datatype Message = Message(name: string, message: string, isUser: bool)

  /** The feed stops growing at this many messages. */
  const MaxMessages: int := 20

  /** How many of the latest messages are sent as history. */
  const HistorySize: int := 5

  /** The aggression levels the setup step offers. */
  const ClientLevels: seq<string> := ["polite", "balanced", "competitive"]

  /** The three AI participants the screen can show. */
  const AiParticipants: seq<string> := ["Rahul", "Priya", "Amit"]

  /** `messages.slice(-5)`: the last five messages, or all of them when
      there are fewer. */
  function HistoryWindow(messages: seq<Message>): (w: seq<Message>)
    ensures |w| == if |messages| < HistorySize then |messages| else HistorySize
    ensures w == messages[|messages| - |w|..]
  {
    if |messages| <= HistorySize then messages else messages[|messages| - HistorySize..]
  }

  /** `aiParticipants.slice(0, participants)` */
  function DisplayedParticipants(participants: nat): (shown: seq<string>)
    ensures |shown| == if participants < |AiParticipants| then participants else |AiParticipants|
    ensures shown == AiParticipants[..|shown|]
  {
    if participants < |AiParticipants| then AiParticipants[..participants] else AiParticipants
  }

  /** The turn a feed message becomes in the request's history. */
  function AsTurn(m: Message): DiscussionFunction.Turn {
    DiscussionFunction.Turn(m.name, m.message)
  }

  function AsTurns(messages: seq<Message>): (turns: seq<DiscussionFunction.Turn>)
    ensures |turns| == |messages|
    ensures forall i :: 0 <= i < |messages| ==> turns[i] == AsTurn(messages[i])
  {
    if messages == [] then [] else AsTurns(messages[..|messages| - 1]) + [AsTurn(messages[|messages| - 1])]
  }

  /** The history block the function puts into its prompt holds one line
      per message of the window, at most five, when no name or message
      holds a line break. */
  lemma HistoryBlockLines(messages: seq<Message>)
    requires messages != []
    requires forall i :: 0 <= i < |messages| ==> '\n' !in messages[i].name && '\n' !in messages[i].message
    ensures var turns := AsTurns(HistoryWindow(messages));
      && DiscussionFunction.SplitLines(DiscussionFunction.RenderHistory(turns)) == DiscussionFunction.Lines(turns)
      && 1 <= |DiscussionFunction.Lines(turns)| <= HistorySize
  {
    var w := HistoryWindow(messages);
    var turns := AsTurns(w);
    forall t | t in turns
      ensures '\n' !in t.name && '\n' !in t.message
    {
      var i :| 0 <= i < |turns| && turns[i] == t;
      assert w[i] == messages[|messages| - |w| + i];
    }
    DiscussionFunction.SplitRenderedHistory(turns);
  }

  /** None of the levels the screen offers is a key of the function's
      table, so every discussion is run with the fallback style. */
  lemma ClientLevelsAlwaysModerate(level: string)
    requires level in ClientLevels
    ensures DiscussionFunction.AggressionStyle(level) == "moderate"
  {
    assert level !in DiscussionFunction.AggressionLevels;
  }

  class DiscussionSession {
    var step: Step
    var isActive: bool
    var participants: nat
    var aggression: string
    var topic: string
    var messages: seq<Message>

    /** The feed never exceeds 20 messages, holds only AI turns, and only a
        running discussion can be active. */
    ghost predicate Valid()
      reads this
    {
      && |messages| <= MaxMessages
      && (forall i :: 0 <= i < |messages| ==> !messages[i].isUser)
      && (isActive ==> step == Discussion)
    }

    constructor ()
      ensures Valid()
      ensures step == Setup && !isActive && participants == 3 && aggression == "balanced" && topic == ""
      ensures messages == []
    {
      step := Setup;
      isActive := false;
      participants := 3;
      aggression := "balanced";
      topic := "";
      messages := [];
    }

    /** The topic, participant-count and aggression buttons of the setup
        step. */
    method Configure(newTopic: string, newParticipants: nat, newAggression: string)
      requires Valid()
      modifies this
      ensures Valid()
      ensures topic == newTopic && participants == newParticipants && aggression == newAggression
      ensures step == old(step) && isActive == old(isActive) && messages == old(messages)
    {
      topic := newTopic;
      participants := newParticipants;
      aggression := newAggression;
    }

    /** `handleStartDiscussion`: nothing happens without a topic. */
    method StartDiscussion()
      requires Valid()
      modifies this
      ensures Valid()
      ensures topic == "" ==> step == old(step) && isActive == old(isActive) && messages == old(messages)
      ensures topic != "" ==> step == Discussion && isActive && messages == []
      ensures topic == old(topic) && participants == old(participants) && aggression == old(aggression)
    {
      if topic == "" {
        return;
      }
      step := Discussion;
      isActive := true;
      messages := [];
    }

    /** `generateAIResponse` taken as one step. `reply` is the function's
        participant name and message, `None` when the call fails. The
        history it sends is returned; nothing is sent while paused or once
        the feed is full. */
    method GenerateAIResponse(reply: Option<(string, string)>) returns (history: Option<seq<Message>>)
      requires Valid()
      modifies this
      ensures Valid()
      ensures history.None? <==> !old(isActive) || |old(messages)| >= MaxMessages
      ensures history.Some? ==> history.value == HistoryWindow(old(messages))
      ensures history.Some? && reply.Some? ==>
        messages == old(messages) + [Message(reply.value.0, reply.value.1, false)]
      ensures !(history.Some? && reply.Some?) ==> messages == old(messages)
      ensures step == old(step) && isActive == old(isActive)
      ensures topic == old(topic) && participants == old(participants) && aggression == old(aggression)
    {
      if !isActive || |messages| >= MaxMessages {
        return None;
      }
      history := Some(HistoryWindow(messages));
      if reply.Some? {
        messages := messages + [Message(reply.value.0, reply.value.1, false)];
      }
    }

    /** The Pause / Resume button of the discussion step. */
    method TogglePause()
      requires Valid() && step == Discussion
      modifies this
      ensures Valid()
      ensures isActive == !old(isActive)
      ensures step == old(step) && messages == old(messages)
      ensures topic == old(topic) && participants == old(participants) && aggression == old(aggression)
    {
      isActive := !isActive;
    }

    /** The End button: back to setup, inactive; the feed is kept. */
    method End()
      requires Valid()
      modifies this
      ensures Valid()
      ensures step == Setup && !isActive
      ensures messages == old(messages)
      ensures topic == old(topic) && participants == old(participants) && aggression == old(aggression)
    {
      step := Setup;
      isActive := false;
    }
  }
}
