/** The message list `chat_with_bot` of `src/modes/natural_language_mode.py` sends to the model. */
module ChatPrompt {
  import opened Conversation

  /**
   * The loop of `chat_with_bot`: the history's turns in order, then the new
   * question. The history is a value and is only read.
   */
  method ChatMessages(userInput: string, history: seq<Entry>) returns (messages: seq<ChatMessage>)
    ensures messages == Turns(history) + [ChatMessage(User, userInput)]
    ensures |messages| == 2 * |history| + 1
    ensures messages[|messages| - 1] == ChatMessage(User, userInput)
    ensures history == [] ==> messages == [ChatMessage(User, userInput)]
  {
    messages := [];
    for i := 0 to |history|
      invariant messages == Turns(history[..i])
    {
      var entry := history[i];
      assert history[..i + 1][..i] == history[..i];
      messages := messages + [ChatMessage(User, entry.user)];
      messages := messages + [ChatMessage(Assistant, entry.bot)];
    }
    assert history[..|history|] == history;
    messages := messages + [ChatMessage(User, userInput)];
  }
}
