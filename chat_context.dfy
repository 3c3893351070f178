/** The global message log of the chat page: an ordered list of
    `{role, content}` messages held by one provider and replaced wholesale by
    each of its three operations. */
module ChatContext {

  datatype Role = User | Assistant

  datatype Message = Message(role: Role, content: string)

  /** `addMessage`: the old log followed by one new message. */
  function WithMessage(log: seq<Message>, role: Role, content: string): (r: seq<Message>)
    ensures |r| == |log| + 1 && r[..|log|] == log
    ensures r[|log|] == Message(role, content)
  {
    log + [Message(role, content)]
  }

  /** `appendToLastMessage`: an empty log is returned as it is; otherwise each
      message is mapped, and only the one at the last index whose role is
      assistant gets the new text added to its content. */
  function WithTextAppended(log: seq<Message>, content: string): (r: seq<Message>)
    ensures |r| == |log|
  {
    if |log| == 0 then log
    else
      seq(|log|, i requires 0 <= i < |log| =>
        if i == |log| - 1 && log[i].role == Assistant
        then log[i].(content := log[i].content + content)
        else log[i])
  }

  predicate LastIsAssistant(log: seq<Message>) {
    |log| > 0 && log[|log| - 1].role == Assistant
  }

  /** Appending to an empty log changes nothing. */
  lemma AppendToEmptyLog(content: string)
    ensures WithTextAppended([], content) == []
  {
  }

  /** When the last message is the assistant's, exactly its content grows. */
  lemma AppendGrowsAssistant(log: seq<Message>, content: string)
    requires LastIsAssistant(log)
    ensures var r := WithTextAppended(log, content);
      r[..|log| - 1] == log[..|log| - 1]
      && r[|log| - 1] == Message(Assistant, log[|log| - 1].content + content)
  {
    var r := WithTextAppended(log, content);
    assert forall i :: 0 <= i < |log| - 1 ==> r[i] == log[i];
  }

  /** When the log is empty or ends with a user message, nothing changes. */
  lemma AppendIgnoredUnlessAssistant(log: seq<Message>, content: string)
    ensures !LastIsAssistant(log) ==> WithTextAppended(log, content) == log
  {
    var r := WithTextAppended(log, content);
    if |log| > 0 && !LastIsAssistant(log) {
      assert forall i :: 0 <= i < |log| ==> r[i] == log[i];
    }
  }

  /** No role ever changes, and no message other than the last one does. */
  lemma AppendTouchesOnlyLast(log: seq<Message>, content: string)
    ensures var r := WithTextAppended(log, content);
      (forall i :: 0 <= i < |log| ==> r[i].role == log[i].role)
      && (forall i :: 0 <= i < |log| - 1 ==> r[i] == log[i])
  {
  }

  /** Two appends are one append of the concatenated text. */
  lemma AppendTwice(log: seq<Message>, a: string, b: string)
    ensures WithTextAppended(WithTextAppended(log, a), b)
         == WithTextAppended(log, a + b)
  {
    var once := WithTextAppended(log, a);
    if LastIsAssistant(log) {
      AppendGrowsAssistant(log, a);
      AppendGrowsAssistant(once, b);
      AppendGrowsAssistant(log, a + b);
      var left := WithTextAppended(once, b);
      var right := WithTextAppended(log, a + b);
      assert log[|log| - 1].content + a + b == log[|log| - 1].content + (a + b);
      assert forall i :: 0 <= i < |log| ==> left[i] == right[i] by {
        forall i | 0 <= i < |log| ensures left[i] == right[i] {
          if i < |log| - 1 {
            assert left[i] == left[..|log| - 1][i] == log[i];
            assert right[i] == right[..|log| - 1][i] == log[i];
          }
        }
      }
    } else {
      AppendIgnoredUnlessAssistant(log, a);
      AppendIgnoredUnlessAssistant(log, b);
      AppendIgnoredUnlessAssistant(log, a + b);
    }
  }

  /** Appending the empty text is the identity. */
  lemma AppendEmptyText(log: seq<Message>)
    ensures WithTextAppended(log, "") == log
  {
    var r := WithTextAppended(log, "");
    if |log| > 0 {
      assert forall i :: 0 <= i < |log| ==> r[i] == log[i] by {
        forall i | 0 <= i < |log| ensures r[i] == log[i] {
          assert log[i].content + "" == log[i].content;
        }
      }
    }
  }

  /** The chat provider: one state cell holding the log. */
  class ChatProvider {
    var messages: seq<Message>

    constructor ()
      ensures messages == []
    {
      messages := [];
    }

    method AddMessage(role: Role, content: string)
      modifies this
      ensures messages == old(messages) + [Message(role, content)]
    {
      messages := WithMessage(messages, role, content);
    }

    method AppendToLastMessage(content: string)
      modifies this
      ensures messages == WithTextAppended(old(messages), content)
      ensures |messages| == |old(messages)|
      ensures !LastIsAssistant(old(messages)) ==> messages == old(messages)
    {
      AppendIgnoredUnlessAssistant(messages, content);
      messages := WithTextAppended(messages, content);
    }

    method ClearMessages()
      modifies this
      ensures messages == []
    {
      messages := [];
    }
  }
}
