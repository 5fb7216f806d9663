/** The chat screen: a text input, a transcript of user and bot messages, and a
    loading flag, driven by `sendMessage`. */
module ChatAssistant {
  import opened Wrappers
  import opened JsStrings

  const ERROR_ANSWER: string := "❌ Error retrieving answer."

  datatype Role = User | Bot

  /** One transcript entry, `{ role, content }`. */
  datatype Message = Message(role: Role, content: string)

  /** The bot's entry for a reply: the answer when the query succeeded, the fixed
      error text when it failed. */
  function BotReply(reply: Option<string>): (m: Message)
    ensures m.role == Bot
    ensures reply.Some? ==> m.content == reply.value
    ensures reply.None? ==> m.content == "❌ Error retrieving answer."
  {
    Message(Bot, reply.GetOr(ERROR_ANSWER))
  }

  /** What one completed exchange adds to the transcript: the question exactly as
      typed, then one bot entry. */
  function Exchange(question: string, reply: Option<string>): (added: seq<Message>)
    ensures |added| == 2
    ensures added[0] == Message(User, question)
    ensures added[1].role == Bot
    ensures added[1].content == if reply.Some? then reply.value else "❌ Error retrieving answer."
  {
    [Message(User, question), BotReply(reply)]
  }

  /** The transcript after a series of uninterrupted sends, each pairing the
      typed input with the query's reply. A blank input adds nothing, as
      `sendMessage` returns before touching the transcript; every other send adds
      its question and one reply, so user and bot entries alternate. */
  function Conversation(exchanges: seq<(string, Option<string>)>): (t: seq<Message>)
    ensures |t| % 2 == 0 && |t| <= 2 * |exchanges|
    ensures forall i :: 0 <= i < |t| ==> (t[i].role == User <==> i % 2 == 0)
  {
    if exchanges == [] then []
    else
      var earlier := Conversation(exchanges[..|exchanges| - 1]);
      var (question, reply) := exchanges[|exchanges| - 1];
      if IsBlank(question) then earlier
      else
        var t := earlier + Exchange(question, reply);
        assert forall i :: |earlier| <= i < |t| ==> t[i] == Exchange(question, reply)[i - |earlier|];
        t
  }

  /** When no input is blank, the conversation holds every question, as typed,
      immediately followed by its own reply. */
  lemma {:induction false} ConversationAlternates(exchanges: seq<(string, Option<string>)>)
    requires forall i :: 0 <= i < |exchanges| ==> !IsBlank(exchanges[i].0)
    ensures |Conversation(exchanges)| == 2 * |exchanges|
    ensures forall i :: 0 <= i < |exchanges| ==>
              Conversation(exchanges)[2 * i] == Message(User, exchanges[i].0)
              && Conversation(exchanges)[2 * i + 1] == BotReply(exchanges[i].1)
  {
    if exchanges != [] {
      var n := |exchanges| - 1;
      var prefix := exchanges[..n];
      var earlier := Conversation(prefix);
      var last := Exchange(exchanges[n].0, exchanges[n].1);
      ConversationAlternates(prefix);
      assert Conversation(exchanges) == earlier + last;
      forall i | 0 <= i < |exchanges|
        ensures Conversation(exchanges)[2 * i] == Message(User, exchanges[i].0)
        ensures Conversation(exchanges)[2 * i + 1] == BotReply(exchanges[i].1)
      {
        if i < n {
          assert exchanges[i] == prefix[i];
          assert (earlier + last)[2 * i] == earlier[2 * i];
          assert (earlier + last)[2 * i + 1] == earlier[2 * i + 1];
        } else {
          assert (earlier + last)[2 * i] == last[0];
          assert (earlier + last)[2 * i + 1] == last[1];
        }
      }
    }
  }

  /** The screen's state: `inputValue`, `messages` and `isLoading`. */
  class Chat {
    var inputValue: string
    var messages: seq<Message>
    var isLoading: bool

    constructor ()
      ensures inputValue == "" && messages == [] && !isLoading
    {
      inputValue, messages, isLoading := "", [], false;
    }

    /** The input's change handler. */
    method HandleChange(value: string)
      modifies this
      ensures inputValue == value && messages == old(messages) && isLoading == old(isLoading)
    {
      inputValue := value;
    }

    /** `sendMessage` up to its `await`. A blank input (empty after `trim`) changes
        nothing and sends nothing. Otherwise the untrimmed input is appended as a
        user entry and becomes the question sent, the input is cleared and the
        loading flag is raised. */
    method Submit() returns (question: Option<string>)
      modifies this
      ensures IsBlank(old(inputValue)) ==>
                question == None && inputValue == old(inputValue)
                && messages == old(messages) && isLoading == old(isLoading)
      ensures !IsBlank(old(inputValue)) ==>
                question == Some(old(inputValue)) && inputValue == ""
                && messages == old(messages) + [Message(User, old(inputValue))] && isLoading
    {
      if Trim(inputValue) == "" {
        return None;
      }
      question := Some(inputValue);
      messages := messages + [Message(User, inputValue)];
      inputValue := "";
      isLoading := true;
    }

    /** `sendMessage` after its `await`, the query having produced `reply`: one bot
        entry is appended to the transcript as it is now, and the `finally` clears
        the loading flag. */
    method Resolve(reply: Option<string>)
      modifies this
      ensures messages == old(messages) + [BotReply(reply)]
      ensures !isLoading && inputValue == old(inputValue)
    {
      messages := messages + [BotReply(reply)];
      isLoading := false;
    }

    /** A whole `sendMessage` whose query produced `reply`, with nothing else
        happening during the `await`. */
    method SendMessage(reply: Option<string>)
      modifies this
      ensures IsBlank(old(inputValue)) ==>
                inputValue == old(inputValue) && messages == old(messages) && isLoading == old(isLoading)
      ensures !IsBlank(old(inputValue)) ==>
                messages == old(messages) + Exchange(old(inputValue), reply)
                && inputValue == "" && !isLoading
      ensures messages[..|old(messages)|] == old(messages)
    {
      var question := Submit();
      if question.Some? {
        Resolve(reply);
      }
    }
  }

  /** A fresh chat screen on which each input of `exchanges` is typed and sent in
      turn, every query resolving before the next send: its transcript is the
      conversation of those exchanges, the input ends empty and nothing is loading. */
  method Converse(exchanges: seq<(string, Option<string>)>) returns (chat: Chat)
    ensures chat.messages == Conversation(exchanges)
    ensures !chat.isLoading
    ensures exchanges != [] ==> chat.inputValue == (if IsBlank(exchanges[|exchanges| - 1].0) then exchanges[|exchanges| - 1].0 else "")
  {
    chat := new Chat();
    for i := 0 to |exchanges|
      invariant chat.messages == Conversation(exchanges[..i])
      invariant !chat.isLoading
      invariant i > 0 ==> chat.inputValue == (if IsBlank(exchanges[i - 1].0) then exchanges[i - 1].0 else "")
    {
      chat.HandleChange(exchanges[i].0);
      chat.SendMessage(exchanges[i].1);
      assert exchanges[..i + 1][..i] == exchanges[..i];
    }
    assert exchanges[..|exchanges|] == exchanges;
  }
}
