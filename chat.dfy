/**
 * The chat widget's conversation state: an append-only transcript, the text box and the
 * in-flight flag. `handleSend` is split at its `await`: `Send` is the part before the
 * search call, `Complete` the part after it, so a second send can arrive in between.
 */
module Chat {
  import opened Options
  import opened Text
  import opened Projects
  import opened SolutionSearch

  datatype Sender = User | Bot

  /** A transcript entry; only bot replies to a search that returned carry a project list. */
  datatype Message = Message(sender: Sender, text: string, projects: Option<seq<ScoredProject>>)

  const GreetingText := "Hi! I'm your Project Scout. Tell me about a problem you're trying to solve, and I'll find building logs or projects that can help!"
  const NoMatchText := "I couldn't find a specific project matching that exact problem, but you might want to explore our categories for inspiration."
  const TroubleText := "I'm having a bit of trouble searching right now. Try again in a moment!"

  const Greeting := Message(Bot, GreetingText, None)

  function FoundText(n: nat): string {
    "I found " + NatToString(n) + " projects that might solve your problem!"
  }

  /** How the awaited search call ended: it returned a result, or it threw. */
  datatype SearchOutcome = Returned(result: SearchResult) | Threw

  /** The one bot message appended for an outcome. */
  function Reply(outcome: SearchOutcome): (m: Message)
    ensures m.sender == Bot
    ensures m.projects.None? <==> outcome.Threw?
    ensures outcome.Returned? && outcome.result.Success? ==> m.projects == Some(outcome.result.data)
    ensures outcome.Returned? && outcome.result.Failure? ==> m.projects == Some([])
    ensures outcome.Threw? ==> m.text == TroubleText
    ensures outcome.Returned? && (outcome.result.Failure? || outcome.result.data == []) ==> m.text == NoMatchText
    ensures outcome.Returned? && outcome.result.Success? && outcome.result.data != [] ==>
      m.text == FoundText(|outcome.result.data|)
  {
    match outcome
    case Threw => Message(Bot, TroubleText, None)
    case Returned(Success(data)) =>
      Message(Bot, if |data| > 0 then FoundText(|data|) else NoMatchText, Some(data))
    case Returned(Failure(_)) => Message(Bot, NoMatchText, Some([]))
  }

  /** The count in a found-message reads back as the number of projects attached. */
  lemma FoundTextCount(data: seq<ScoredProject>)
    ensures var t := FoundText(|data|); var digits := t[|"I found "|..|t| - |" projects that might solve your problem!"|];
      digits == NatToString(|data|) && DecimalValue(digits) == |data|
  {
    NatToStringRoundTrip(|data|);
    var t := FoundText(|data|);
    assert t == "I found " + NatToString(|data|) + " projects that might solve your problem!";
    assert t[|"I found "|..|t| - |" projects that might solve your problem!"|] == NatToString(|data|);
  }

  /**
   * The greeting comes first, then user and bot messages alternate, each user message
   * answered by exactly one bot message; a search is in flight exactly when the last
   * user message is still unanswered.
   */
  predicate Alternates(messages: seq<Message>, isTyping: bool) {
    && |messages| >= 1
    && messages[0] == Greeting
    && (forall i :: 1 <= i < |messages| ==> messages[i].sender == if i % 2 == 1 then User else Bot)
    && (isTyping <==> |messages| % 2 == 0)
  }

  /** Appending the message of the side whose turn it is keeps the alternation and flips the flag. */
  lemma AlternatesAppend(messages: seq<Message>, isTyping: bool, m: Message)
    requires Alternates(messages, isTyping)
    requires m.sender == if isTyping then Bot else User
    ensures Alternates(messages + [m], !isTyping)
  {
    var ms := messages + [m];
    forall i | 1 <= i < |ms| ensures ms[i].sender == if i % 2 == 1 then User else Bot {
      if i < |messages| {
        assert ms[i] == messages[i];
      }
    }
  }

  class ChatBot {
    var messages: seq<Message>
    var input: string
    var isTyping: bool

    ghost predicate Valid()
      reads this
    {
      Alternates(messages, isTyping)
    }

    constructor ()
      ensures Valid()
      ensures messages == [Greeting] && input == "" && !isTyping
    {
      messages := [Greeting];
      input := "";
      isTyping := false;
    }

    /** The text box's `onChange`; it stays enabled while a search is in flight. */
    method SetInput(text: string)
      requires Valid()
      modifies this`input
      ensures Valid() && input == text
    {
      input := text;
    }

    /**
     * `handleSend` up to the search call. A blank input, or a send while a search is in
     * flight, changes nothing; otherwise the input is appended as a user message, the box
     * is cleared, the flag is raised, and `query` is the text to search for.
     */
    method Send() returns (accepted: bool, query: string)
      requires Valid()
      modifies this`messages, this`input, this`isTyping
      ensures Valid()
      ensures accepted <==> !IsBlank(old(input)) && !old(isTyping)
      ensures !accepted ==> messages == old(messages) && input == old(input) && isTyping == old(isTyping)
      ensures accepted ==>
        && messages == old(messages) + [Message(User, old(input), None)]
        && input == ""
        && isTyping
        && query == old(input)
    {
      var blank := TrimsToEmpty(input);
      if blank || isTyping {
        return false, "";
      }
      query := input;
      AlternatesAppend(messages, isTyping, Message(User, input, None));
      messages := messages + [Message(User, input, None)];
      input := "";
      isTyping := true;
      accepted := true;
    }

    /**
     * `handleSend` after the search call: exactly one bot message for the outcome is
     * appended, earlier entries are untouched, and the flag is lowered.
     */
    method Complete(outcome: SearchOutcome)
      requires Valid() && isTyping
      modifies this`messages, this`isTyping
      ensures Valid()
      ensures messages == old(messages) + [Reply(outcome)] && !isTyping
      ensures outcome.Returned? && outcome.result.Success? && |outcome.result.data| > 0 ==>
        Reply(outcome) == Message(Bot, FoundText(|outcome.result.data|), Some(outcome.result.data))
      ensures outcome.Returned? && outcome.result.Success? && outcome.result.data == [] ==>
        Reply(outcome) == Message(Bot, NoMatchText, Some([]))
      ensures outcome.Returned? && outcome.result.Failure? ==>
        Reply(outcome) == Message(Bot, NoMatchText, Some([]))
      ensures outcome.Threw? ==> Reply(outcome) == Message(Bot, TroubleText, None)
    {
      match outcome {
        case Returned(result) =>
          var botMessage := Reply(outcome);
          AlternatesAppend(messages, isTyping, botMessage);
          messages := messages + [botMessage];
          isTyping := false;
        case Threw =>
          AlternatesAppend(messages, isTyping, Message(Bot, TroubleText, None));
          isTyping := false;
          messages := messages + [Message(Bot, TroubleText, None)];
      }
    }
  }

  /**
   * A second send issued before the first search resolves is refused and leaves the
   * transcript alone; the reply that later arrives answers the first question.
   */
  method SendWhileAwaitingIsIgnored(first: string, second: string, outcome: SearchOutcome)
    returns (secondAccepted: bool, transcript: seq<Message>)
    requires !IsBlank(first)
    ensures !secondAccepted
    ensures transcript == [Greeting, Message(User, first, None), Reply(outcome)]
  {
    var bot := new ChatBot();
    bot.SetInput(first);
    var ok, query := bot.Send();
    assert ok && query == first && |bot.messages| == 2;
    bot.SetInput(second);
    var ok2, _ := bot.Send();
    assert bot.messages == [Greeting, Message(User, first, None)];
    bot.Complete(outcome);
    secondAccepted := ok2;
    transcript := bot.messages;
  }
}
