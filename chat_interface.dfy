/** The stand-alone chat panel (components/chat-interface.tsx): a
    conversation that starts with the patient's greeting, and a send that
    appends the student's message and then the model's reply, or an apology
    when the model fails. The model is the parameter `model`, a function of
    the prompt text. */
module ChatPanel {
  import opened Wrappers
  import opened Text
  import opened Store

  const Greeting := "Hello, I'm here for my appointment. What can I help you with today?"
  const Apology := "I'm sorry, I'm not feeling well enough to respond right now. Could we continue this later?"

  /** `messages.map((m) => m.content)`. */
  function Contents(ms: seq<Message>): (r: seq<string>)
    ensures |r| == |ms| && forall i | 0 <= i < |ms| :: r[i] == ms[i].content
  {
    if ms == [] then [] else Contents(ms[..|ms| - 1]) + [ms[|ms| - 1].content]
  }

  /** The conversation alternates, starting and ending with the patient:
      one opening message, then pairs of a student message and a reply. */
  predicate Alternates(ms: seq<Message>)
    decreases |ms|
  {
    if |ms| < 3 then |ms| == 1 && ms[0].role == AssistantSpeaker
    else ms[|ms| - 2].role == UserSpeaker && ms[|ms| - 1].role == AssistantSpeaker && Alternates(ms[..|ms| - 2])
  }

  /** In an alternating conversation the patient speaks at the even
      positions and the student at the odd ones. */
  lemma {:induction false} AlternatesRoles(ms: seq<Message>, i: int)
    requires Alternates(ms) && 0 <= i < |ms|
    ensures |ms| % 2 == 1
    ensures ms[i].role == (if i % 2 == 0 then AssistantSpeaker else UserSpeaker)
    decreases |ms|
  {
    if |ms| >= 3 {
      var prefix := ms[..|ms| - 2];
      if i < |prefix| {
        AlternatesRoles(prefix, i);
        assert ms[i] == prefix[i];
      } else {
        AlternatesRoles(prefix, 0);
      }
    }
  }

  /** What the patient says back: the model's reply, or the apology when
      the model fails. */
  function ReplyTo(answer: Result<string>): (r: string)
    ensures answer.Ok? ==> r == answer.value
    ensures answer.Err? ==> r == Apology
  {
    if answer.Ok? then answer.value else Apology
  }

  /** The text sent to the model: the earlier contents and the new input,
      one per line. */
  function PromptFor(ms: seq<Message>, input: string): string {
    Join(Contents(ms), "\n") + "\n" + input
  }

  /** The prompt is the whole conversation with the new message, joined by
      newlines; the reply being asked for is not part of it. */
  lemma PromptIsTranscript(ms: seq<Message>, input: string)
    requires ms != []
    ensures PromptFor(ms, input) == Join(Contents(ms + [Message(UserSpeaker, input)]), "\n")
  {
    var m := ms + [Message(UserSpeaker, input)];
    assert m[..|m| - 1] == ms;
    assert Contents(m) == Contents(ms) + [input];
    JoinAppend(Contents(ms), [input], "\n");
  }

  /** The conversation opens with the patient's greeting. */
  predicate OpensWithGreeting(ms: seq<Message>) {
    ms != [] && ms[0] == Message(AssistantSpeaker, Greeting)
  }

  /** The conversation after one exchange: the student's message and the
      patient's reply to `answer`. */
  function Exchange(ms: seq<Message>, question: string, answer: Result<string>): seq<Message> {
    ms + [Message(UserSpeaker, question), Message(AssistantSpeaker, ReplyTo(answer))]
  }

  /** An exchange extends the conversation, keeps its greeting and keeps it
      alternating. */
  lemma ExchangeKeepsShape(ms: seq<Message>, question: string, answer: Result<string>)
    requires Alternates(ms) && OpensWithGreeting(ms)
    ensures Alternates(Exchange(ms, question, answer)) && OpensWithGreeting(Exchange(ms, question, answer))
    ensures ms < Exchange(ms, question, answer)
  {
    var e := Exchange(ms, question, answer);
    assert e[..|e| - 2] == ms;
    assert e[0] == ms[0];
  }

  class ChatInterface {
    var messages: seq<Message>
    var input: string
    var isLoading: bool

    predicate Valid()
      reads this
    {
      Alternates(messages) && OpensWithGreeting(messages)
    }

    /** The panel opens with the greeting alone and an empty input. */
    constructor ()
      ensures Valid() && messages == [Message(AssistantSpeaker, Greeting)]
      ensures input == "" && !isLoading
    {
      messages := [Message(AssistantSpeaker, Greeting)];
      input := "";
      isLoading := false;
    }

    /** Typing into the text box. */
    method SetInput(text: string)
      requires Valid()
      modifies this
      ensures Valid() && input == text
      ensures messages == old(messages) && isLoading == old(isLoading)
    {
      input := text;
    }

    /** `handleSendMessage`. Input that is blank after trimming changes
        nothing. Otherwise the untrimmed input is appended as the student's
        message, the box is cleared, the model is asked with the prompt
        returned in `prompt`, and its reply (or the apology) is appended;
        loading is over either way. */
    method SendMessage(model: string -> Result<string>) returns (prompt: Option<string>)
      requires Valid()
      modifies this
      ensures Valid()
      ensures Trim(old(input)) == "" ==>
        (prompt.None? && messages == old(messages) && input == old(input) && isLoading == old(isLoading))
      ensures Trim(old(input)) != "" ==> (prompt == Some(PromptFor(old(messages), old(input)))
        && messages == Exchange(old(messages), old(input), model(prompt.value))
        && input == "" && !isLoading)
      ensures old(messages) <= messages
    {
      if Trim(input) == "" {
        return None;
      }
      var text := input;
      var before := messages;
      messages := messages + [Message(UserSpeaker, text)];
      input := "";
      isLoading := true;
      prompt := Some(PromptFor(before, text));
      var answer := model(prompt.value);
      messages := Exchange(before, text, answer);
      ExchangeKeepsShape(before, text, answer);
      isLoading := false;
    }
  }
}
