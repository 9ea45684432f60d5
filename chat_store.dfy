/**
 * The chat store: the conversation so far, which starts with a greeting from the bot, and the
 * topic the user picked, if any.
 */
module ChatStore {
  import opened Wrappers
  import opened Chat

  const Greeting := "Hello! I'm your English learning assistant. Choose a topic to start our conversation!"

  /** The texts of a conversation with their authors, in order. */
  function Transcript(messages: seq<ChatMessage>): (r: seq<(Author, string)>)
    ensures |r| == |messages|
    ensures forall i :: 0 <= i < |r| ==> r[i] == (messages[i].author, messages[i].text)
  {
    if |messages| == 0 then [] else Transcript(messages[..|messages| - 1]) + [(messages[|messages| - 1].author, messages[|messages| - 1].text)]
  }

  class ChatState {
    /** The greeting, formatted once when the store is created. */
    const initialBotMessage: ChatMessage
    var messages: seq<ChatMessage>
    var topic: Option<ChatTopic>

    /** The conversation always opens with the greeting. */
    predicate Valid()
      reads this
    {
      |messages| >= 1 && messages[0] == initialBotMessage
    }

    /** The initial state: the greeting from the bot alone, and no topic. */
    constructor(now: nat, random: string, time: string)
      ensures initialBotMessage == FormatMessage(Bot, Greeting, None, now, random, time)
      ensures messages == [initialBotMessage] && topic.None?
      ensures Valid() && Transcript(messages) == [(Bot, Greeting)]
    {
      initialBotMessage := FormatMessage(Bot, Greeting, None, now, random, time);
      messages := [FormatMessage(Bot, Greeting, None, now, random, time)];
      topic := None;
    }

    /** `addUserMessage`: one message from the user is appended; the topic stays. */
    method AddUserMessage(text: string, now: nat, random: string, time: string)
      requires Valid()
      modifies this
      ensures messages == old(messages) + [FormatMessage(User, text, None, now, random, time)]
      ensures Transcript(messages) == old(Transcript(messages)) + [(User, text)]
      ensures topic == old(topic) && Valid()
    {
      messages := messages + [FormatMessage(User, text, None, now, random, time)];
    }

    /** `addBotMessage`: one message from the bot is appended; the topic stays. */
    method AddBotMessage(text: string, now: nat, random: string, time: string)
      requires Valid()
      modifies this
      ensures messages == old(messages) + [FormatMessage(Bot, text, None, now, random, time)]
      ensures Transcript(messages) == old(Transcript(messages)) + [(Bot, text)]
      ensures topic == old(topic) && Valid()
    {
      messages := messages + [FormatMessage(Bot, text, None, now, random, time)];
    }

    /** `setTopic`: the topic becomes the given one, possibly none; the messages stay. */
    method SetTopic(t: Option<ChatTopic>)
      requires Valid()
      modifies this
      ensures topic == t && messages == old(messages) && Valid()
    {
      topic := t;
    }

    /** `clearChat`: back to the greeting alone and no topic, whatever came before. */
    method ClearChat()
      modifies this
      ensures messages == [initialBotMessage] && topic.None? && Valid()
    {
      messages := [initialBotMessage];
      topic := None;
    }
  }
}
