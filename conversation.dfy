/**
 * The chat history shared by `chat_with_bot` and `rag_with_elastic`, and the
 * chat-completion messages it becomes.
 */
module Conversation {
  import opened Errors

  datatype Role = User | Assistant

  /** `{"role": ..., "content": ...}` */
  datatype ChatMessage = ChatMessage(role: Role, content: string)

  /** One history entry, `{"user": question, "bot": answer}`, as `src/app.py` appends it. */
  datatype Entry = Entry(user: string, bot: string)

  /**
   * The history as messages: for entry i, message 2i is the user's question
   * and message 2i+1 the assistant's answer.
   */
  function Turns(history: seq<Entry>): (r: seq<ChatMessage>)
    ensures |r| == 2 * |history|
    ensures forall i :: 0 <= i < |history| ==>
      r[2 * i] == ChatMessage(User, history[i].user) && r[2 * i + 1] == ChatMessage(Assistant, history[i].bot)
  {
    if history == [] then []
    else
      var last := history[|history| - 1];
      Turns(history[..|history| - 1]) + [ChatMessage(User, last.user), ChatMessage(Assistant, last.bot)]
  }

  /** The roles alternate, starting with the user. */
  lemma TurnsAlternate(history: seq<Entry>, k: nat)
    requires k < |Turns(history)|
    ensures Turns(history)[k].role == (if k % 2 == 0 then User else Assistant)
  {
    var i := k / 2;
    assert k == 2 * i || k == 2 * i + 1;
  }

  /** Reading a message list back into history entries: user/assistant pairs, in order. */
  function Entries(messages: seq<ChatMessage>): (r: Option<seq<Entry>>)
    decreases |messages|
  {
    if messages == [] then Some([])
    else if |messages| < 2 then None
    else
      var n := |messages|;
      var question, answer := messages[n - 2], messages[n - 1];
      if question.role != User || answer.role != Assistant then None
      else match Entries(messages[..n - 2])
        case None => None
        case Some(h) => Some(h + [Entry(question.content, answer.content)])
  }

  /** The history can be read back from its messages: nothing is dropped, reordered or altered. */
  lemma {:induction false} EntriesOfTurns(history: seq<Entry>)
    ensures Entries(Turns(history)) == Some(history)
    decreases |history|
  {
    if history != [] {
      var init := history[..|history| - 1];
      var t := Turns(history);
      assert t[..|t| - 2] == Turns(init);
      EntriesOfTurns(init);
      assert init + [history[|history| - 1]] == history;
    }
  }

  /** Conversely, a message list that reads back as a history is exactly that history's turns. */
  lemma {:induction false} TurnsOfEntries(messages: seq<ChatMessage>, history: seq<Entry>)
    requires Entries(messages) == Some(history)
    ensures Turns(history) == messages
    decreases |messages|
  {
    if messages != [] {
      var n := |messages|;
      var question, answer := messages[n - 2], messages[n - 1];
      var h := Entries(messages[..n - 2]).value;
      var last := Entry(question.content, answer.content);
      assert history == h + [last];
      TurnsOfEntries(messages[..n - 2], h);
      assert history[..|history| - 1] == h && history[|history| - 1] == last;
      assert question == ChatMessage(User, last.user) && answer == ChatMessage(Assistant, last.bot);
      calc {
        Turns(history);
        Turns(h) + [ChatMessage(User, last.user), ChatMessage(Assistant, last.bot)];
        messages[..n - 2] + [question, answer];
        messages;
      }
    }
  }
}
