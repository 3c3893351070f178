/** The chat input box: its send handler, which appends the user's message,
    asks the server for a reply and appends the answer part of that reply,
    and the expression that cuts the answer out of the model's raw text. */
module ChatInput {
  import opened JsPrimitives
  import opened ChatContext

  const ThinkEndTag: string := "</think>"

  /** The answer shown for a reply: the text after the first `</think>`,
      trimmed. The index comes from `indexOf` and is used unchecked, so when
      the tag is absent the slice starts at -1 + 8 = 7. */
  function ExtractAnswer(content: string): (r: string)
    ensures r == [] || (!IsWhitespace(r[0]) && !IsWhitespace(r[|r| - 1]))
  {
    Trim(Slice(content, IndexOf(content, ThinkEndTag) + |ThinkEndTag|))
  }

  /** No occurrence of the tag starts inside a prefix that does not contain
      it, because no proper suffix of the tag is also a prefix of it. */
  lemma FirstTagAfterPrefix(x: string, y: string)
    requires !Contains(x, ThinkEndTag)
    ensures OccursAt(x + ThinkEndTag + y, ThinkEndTag, |x|)
    ensures forall j :: 0 <= j < |x| ==> !OccursAt(x + ThinkEndTag + y, ThinkEndTag, j)
  {
    var s := x + ThinkEndTag + y;
    assert s[|x|..|x| + 8] == ThinkEndTag;
    forall j | 0 <= j < |x| ensures !OccursAt(s, ThinkEndTag, j) {
      if j + 8 <= |x| {
        assert s[j..j + 8] == x[j..j + 8];
        assert !OccursAt(x, ThinkEndTag, j);
      } else if j + 8 <= |s| {
        assert s[|x|] == '<';
        assert s[j..j + 8][|x| - j] == s[|x|];
      }
    }
  }

  /** Text without a `<` has no `</think>`. */
  lemma NoTagWithoutBracket(s: string)
    requires forall i :: 0 <= i < |s| ==> s[i] != '<'
    ensures !Contains(s, ThinkEndTag)
  {
    forall j | 0 <= j <= |s| ensures !OccursAt(s, ThinkEndTag, j) {
      if j + 8 <= |s| {
        assert s[j..j + 8][0] == s[j];
      }
    }
  }

  /** With a first `</think>` the answer is what follows it, trimmed; any
      later `</think>` stays in the answer, since `y` is arbitrary. */
  lemma AnswerAfterFirstTag(x: string, y: string)
    requires !Contains(x, ThinkEndTag)
    ensures ExtractAnswer(x + ThinkEndTag + y) == Trim(y)
  {
    var s := x + ThinkEndTag + y;
    FirstTagAfterPrefix(x, y);
    var k := IndexOf(s, ThinkEndTag);
    assert k == |x|;
    assert s[|x| + 8..] == y;
  }

  /** Without a `</think>` the first seven characters are dropped. */
  lemma AnswerWithoutTag(content: string)
    requires !Contains(content, ThinkEndTag)
    ensures ExtractAnswer(content) == Trim(if |content| <= 7 then [] else content[7..])
  {
  }

  /** A reply that opens with a `<think>` block, whose reasoning has no `<`:
      the block is cut off and the answer is the rest, trimmed. */
  lemma AnswerOfThinkingReply(reasoning: string, rest: string)
    requires forall i :: 0 <= i < |reasoning| ==> reasoning[i] != '<'
    ensures ExtractAnswer("<think>" + reasoning + ThinkEndTag + rest) == Trim(rest)
  {
    var x := "<think>" + reasoning;
    forall j | 0 <= j <= |x| ensures !OccursAt(x, ThinkEndTag, j) {
      if j + 8 <= |x| {
        if j == 0 {
          assert x[0..8][1] == 't';
        } else {
          assert x[j..j + 8][0] == x[j];
          assert j < 7 || x[j] == reasoning[j - 7];
        }
      }
    }
    AnswerAfterFirstTag(x, rest);
  }

  /** A reply without any `<` loses its first seven characters. */
  lemma AnswerOfTaglessReply(content: string)
    requires forall i :: 0 <= i < |content| ==> content[i] != '<'
    ensures ExtractAnswer(content) == Trim(if |content| <= 7 then [] else content[7..])
  {
    NoTagWithoutBracket(content);
    AnswerWithoutTag(content);
  }

  /** A plain reply loses its first seven characters. */
  lemma AnswerOfPlainReply()
    ensures ExtractAnswer("Hello world") == "orld"
  {
    var s := "Hello world";
    var tail := s[7..];
    assert tail == "orld";
    TrimOfTrimmed(tail);
    AnswerOfTaglessReply(s);
  }

  /** What the awaited request produced: a failure anywhere (fetch, reading
      the body as JSON, a non-string content), a body without a `message`, or
      a message with its content. */
  datatype Reply = RequestFailed | NoMessage | HasMessage(content: string)

  /** The messages the handler appends once the request has settled. */
  function AssistantReply(reply: Reply): (r: seq<Message>)
    ensures |r| <= 1
    ensures r != [] <==> reply.HasMessage?
    ensures r != [] ==> r[0] == Message(Assistant, ExtractAnswer(reply.content))
  {
    match reply
    case HasMessage(content) => [Message(Assistant, ExtractAnswer(content))]
    case _ => []
  }

  /** The input box's two state cells. */
  class ChatInputBox {
    var input: string
    var loading: bool

    constructor ()
      ensures input == "" && !loading
    {
      input := "";
      loading := false;
    }

    /** The text field's `onChange`. */
    method SetInput(text: string)
      modifies this
      ensures input == text && loading == old(loading)
    {
      input := text;
    }

    /** `handleSend` up to the request: the blank-input guard, the user
      message, clearing the field and raising the loading flag. Returns the
      prompt that is sent, if any. */
    method BeginSend(chat: ChatProvider) returns (prompt: Option<string>)
      modifies this, chat
      ensures IsBlank(old(input)) ==>
        prompt == None && input == old(input) && loading == old(loading)
        && chat.messages == old(chat.messages)
      ensures !IsBlank(old(input)) ==>
        prompt == Some(old(input)) && input == "" && loading
        && chat.messages == old(chat.messages) + [Message(User, old(input))]
    {
      if Trim(input) == "" {
        return None;
      }
      var text := input;
      chat.AddMessage(User, text);
      input := "";
      loading := true;
      prompt := Some(text);
    }

    /** `handleSend` after the request: at most one assistant message, then
      the loading flag drops whatever the outcome. */
    method FinishSend(chat: ChatProvider, reply: Reply)
      modifies this, chat
      ensures chat.messages == old(chat.messages) + AssistantReply(reply)
      ensures input == old(input) && !loading
    {
      match reply {
        case HasMessage(content) =>
          var value := ExtractAnswer(content);
          chat.AddMessage(Assistant, value);
        case _ =>
      }
      loading := false;
    }

    /** The whole of `handleSend`, the reply being whatever the server gave. */
    method HandleSend(chat: ChatProvider, reply: Reply) returns (prompt: Option<string>)
      modifies this, chat
      ensures IsBlank(old(input)) ==>
        prompt == None && input == old(input) && loading == old(loading)
        && chat.messages == old(chat.messages)
      ensures !IsBlank(old(input)) ==>
        prompt == Some(old(input)) && input == "" && !loading
        && chat.messages == old(chat.messages) + [Message(User, old(input))] + AssistantReply(reply)
    {
      prompt := BeginSend(chat);
      if prompt != None {
        FinishSend(chat, reply);
      }
    }
  }
}
