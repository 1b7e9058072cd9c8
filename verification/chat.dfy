/**
  The `Chatbot` class of app.py: an append-only transcript of role-tagged
  messages, optionally opened by a system message, rendered as
  `role: content` lines joined by '\n' for each model call.
 */
module Chat {
  import opened Wrappers
  import opened Text

  datatype Role = System | User | Assistant

  /** The role tag written in front of each rendered message. */
  function RoleName(r: Role): string {
    match r
    case System => "system"
    case User => "user"
    case Assistant => "assistant"
  }

  datatype Message = Message(role: Role, content: string)

  datatype Chatbot = Chatbot(system: string, messages: seq<Message>)

  /** The opening of every transcript: the system message, present only for a non-empty system text. */
  function Header(system: string): seq<Message> {
    if system == "" then [] else [Message(System, system)]
  }

  /** The role expected at position `k` after the header: user and assistant alternate, user first. */
  function TurnRole(k: nat): Role {
    if k % 2 == 0 then User else Assistant
  }

  /**
    The shape every transcript keeps between calls: the header, then complete
    user/assistant pairs.
   */
  predicate Valid(b: Chatbot) {
    var h := Header(b.system);
    && |h| <= |b.messages|
    && b.messages[..|h|] == h
    && (|b.messages| - |h|) % 2 == 0
    && forall i :: |h| <= i < |b.messages| ==> b.messages[i].role == TurnRole(i - |h|)
  }

  /** Number of completed exchanges in a valid transcript. */
  function Turns(b: Chatbot): nat
    requires Valid(b)
  {
    (|b.messages| - |Header(b.system)|) / 2
  }

  /** `Chatbot.__init__(system)`. */
  function New(system: string): (b: Chatbot)
    ensures b.system == system
    ensures |b.messages| == (if system == "" then 0 else 1)
    ensures forall i :: 0 <= i < |b.messages| ==> b.messages[i] == Message(System, system)
    ensures Valid(b) && Turns(b) == 0
  {
    Chatbot(system, Header(system))
  }

  /**
    One rendered line: `f'{role}: {content}'`. The content is its tail after a
    non-empty role tag, and the line spans several lines of the prompt exactly
    when the content does.
   */
  function Line(m: Message): (r: string)
    ensures |m.content| < |r| && r[|r| - |m.content|..] == m.content
    ensures '\n' in r <==> '\n' in m.content
  {
    var tag := RoleName(m.role) + ": ";
    assert tag == "system: " || tag == "user: " || tag == "assistant: ";
    assert (tag + m.content)[|tag|..] == m.content;
    tag + m.content
  }

  /** The rendered line of each message, in order. */
  function Lines(ms: seq<Message>): (r: seq<string>)
    ensures |r| == |ms|
    ensures forall i :: 0 <= i < |ms| ==> r[i] == Line(ms[i])
  {
    if ms == [] then [] else [Line(ms[0])] + Lines(ms[1..])
  }

  /**
    The prompt built in `execute`: every message's line, joined by '\n'. An
    empty transcript, and only an empty one, renders as the empty prompt.
   */
  function Render(ms: seq<Message>): (r: string)
    ensures ms == [] <==> r == ""
  {
    Join(Lines(ms), '\n')
  }

  /** The prompt opens with the first message's line; a single message renders as just its line. */
  lemma RenderFront(ms: seq<Message>)
    ensures |ms| > 0 ==> Line(ms[0]) <= Render(ms)
    ensures |ms| == 1 ==> Render(ms) == Line(ms[0])
  {
    JoinFront(Lines(ms), '\n');
  }

  /** Appending a message adds one line to the rendered prompt. */
  lemma RenderSnoc(ms: seq<Message>, m: Message)
    requires |ms| > 0
    ensures Render(ms + [m]) == Render(ms) + "\n" + Line(m)
  {
    assert Lines(ms + [m]) == Lines(ms) + [Line(m)];
    JoinSnoc(Lines(ms), Line(m), '\n');
  }

  /**
    When no content spans several lines, the model can recover the transcript
    line by line: splitting the prompt on '\n' gives one line per message.
   */
  lemma RenderLines(ms: seq<Message>)
    requires |ms| > 0
    requires forall i :: 0 <= i < |ms| ==> '\n' !in ms[i].content
    ensures Split(Render(ms), '\n') == Lines(ms)
  {
    SplitJoin(Lines(ms), '\n');
  }

  /**
    The last line of a prompt whose last message is single-line is that
    message's line, whatever the earlier messages contain.
   */
  lemma RenderLastLine(ms: seq<Message>, m: Message)
    ensures '\n' !in m.content ==>
              Split(Render(ms + [m]), '\n')[|Split(Render(ms + [m]), '\n')| - 1] == Line(m)
  {
    if '\n' in m.content {
    } else if ms == [] {
      assert ms + [m] == [m];
    } else {
      RenderSnoc(ms, m);
      SplitLast(Render(ms), Line(m), '\n');
    }
  }

  /** What `__call__` produced: the prompt sent, the completion (None when the call raised) and the new state. */
  datatype Reply = Reply(prompt: string, completion: Option<string>, bot: Chatbot)

  /**
    `Chatbot.__call__(message)` with the model call `complete` supplied: the user
    message is appended, the whole transcript is rendered and sent, and the
    completion is appended as an assistant message. If the model call raises,
    the user message stays and nothing else is appended.
   */
  function Call(b: Chatbot, message: string, complete: string -> Option<string>): (r: Reply)
    ensures r.bot.system == b.system
    ensures r.bot.messages == b.messages + [Message(User, message)] + Appended(r.completion)
    ensures r.prompt == Render(b.messages + [Message(User, message)])
    ensures r.completion == complete(r.prompt)
  {
    var asked := b.messages + [Message(User, message)];
    var prompt := Render(asked);
    Reply(prompt, complete(prompt), Chatbot(b.system, asked + Appended(complete(prompt))))
  }

  /** The assistant message a call appends: the completion, or nothing when the call raised. */
  function Appended(completion: Option<string>): (ms: seq<Message>)
    ensures |ms| <= 1
    ensures ms == [] <==> completion.None?
    ensures completion.Some? ==> ms == [Message(Assistant, completion.value)]
  {
    match completion
    case None => []
    case Some(text) => [Message(Assistant, text)]
  }

  /** Appending a user/assistant pair to a well-shaped transcript keeps its shape. */
  lemma AppendPairKeepsValid(b: Chatbot, question: string, answer: string)
    requires Valid(b)
    ensures Valid(Chatbot(b.system, b.messages + [Message(User, question), Message(Assistant, answer)]))
  {
    var ms := b.messages + [Message(User, question), Message(Assistant, answer)];
    var h := Header(b.system);
    var n := |b.messages|;
    assert ms[..|h|] == b.messages[..|h|];
    forall i | |h| <= i < |ms|
      ensures ms[i].role == TurnRole(i - |h|)
    {
      if i < n {
        assert ms[i] == b.messages[i];
      } else if i == n {
        assert (i - |h|) % 2 == 0;
      } else {
        assert (i - |h|) % 2 == 1;
      }
    }
  }

  /**
    A completed call keeps the transcript's shape: header, then user/assistant
    pairs, one more pair than before.
   */
  lemma CallKeepsValid(b: Chatbot, message: string, complete: string -> Option<string>)
    requires Valid(b)
    requires Call(b, message, complete).completion.Some?
    ensures Valid(Call(b, message, complete).bot)
    ensures Turns(Call(b, message, complete).bot) == Turns(b) + 1
  {
    var r := Call(b, message, complete);
    assert r.bot.messages == b.messages + [Message(User, message), Message(Assistant, r.completion.value)];
    AppendPairKeepsValid(b, message, r.completion.value);
  }

  /** Once the transcript is non-empty, each prompt is the previous rendering plus the new user line. */
  lemma CallPromptExtends(b: Chatbot, message: string, complete: string -> Option<string>)
    requires |b.messages| > 0
    ensures Call(b, message, complete).prompt == Render(b.messages) + "\n" + Line(Message(User, message))
  {
    RenderSnoc(b.messages, Message(User, message));
  }
}
