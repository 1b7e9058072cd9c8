/**
  The `query` loop of app.py: up to `maxTurns` rounds of "ask the model, look
  for the first action directive, dispatch it, feed the observation back".
  The language model and the handlers' backend calls are oracles; the loop
  records every prompt it sends and every completed turn so that its external
  behaviour can be stated.
 */
module Agent {
  import opened Wrappers
  import opened ActionParser
  import opened Registry
  import opened Chat

  /**
    The collaborators the loop cannot see. `model(k, prompt)` is the completion
    returned by the model call with index `k` (0-based) for `prompt`, or `None`
    when that call raises; indexing by call makes every sequence of answers
    possible. `handler(k, a, arg)` is the backend call made by the handler
    dispatched on turn `k` (0-based); each dispatch is a fresh request, so the
    same action and argument may give different results on different turns.
   */
  datatype Env = Env(model: (nat, string) -> Option<string>, handler: (nat, Action, string) -> Option<string>)

  /** The model call of a given index, as the one-argument function `Chatbot.__call__` uses. */
  function ModelAt(env: Env, k: nat): string -> Option<string> {
    p => env.model(k, p)
  }

  /** The handlers' backend as seen by the dispatch of turn `k`. */
  function HandlerAt(env: Env, k: nat): HandlerBody {
    (a, arg) => env.handler(k, a, arg)
  }

  /** What the loop did with one completion. */
  datatype Handling =
    | NoDirective
    | Unknown(directive: Directive)
    | Invoked(action: Action, arg: string, result: Option<string>)

  /** A dispatch that produced an observation, so the loop goes on. */
  predicate Acted(step: Handling) {
    step.Invoked? && step.result.Some?
  }

  /**
    Lines 68-74 of `query`: take the first directive, fail on an unknown
    name, otherwise call its handler with the argument.
   */
  function Dispatch(completion: string, handler: HandlerBody): Handling
  {
    match FirstDirective(completion)
    case None => NoDirective
    case Some(d) =>
      match Lookup(d.name)
      case None => Unknown(d)
      case Some(a) => Invoked(a, d.arg, Invoke(handler, a, d.arg))
  }

  /** One completed turn: the user message sent, the completion received, what was done with it. */
  datatype Turn = Turn(prompt: string, completion: string, step: Handling)

  /** What one turn adds to `query_result`. */
  function TurnText(t: Turn): string {
    t.completion + "\n\n" + (if Acted(t.step) then "Observation: " + t.step.result.value + "\n\n" else "")
  }

  /** The trace a sequence of turns produces. */
  function TraceOf(log: seq<Turn>): string
    decreases |log|
  {
    if log == [] then "" else TraceOf(log[..|log| - 1]) + TurnText(log[|log| - 1])
  }

  /** The user/assistant messages a sequence of turns leaves in the transcript. */
  function Exchanges(log: seq<Turn>): (ms: seq<Message>)
    ensures |ms| == 2 * |log|
    ensures forall k :: 0 <= k < |log| ==> ms[2 * k] == Message(User, log[k].prompt)
    ensures forall k :: 0 <= k < |log| ==> ms[2 * k + 1] == Message(Assistant, log[k].completion)
    decreases |log|
  {
    if log == [] then []
    else
      var last := log[|log| - 1];
      var front := log[..|log| - 1];
      assert forall k :: 0 <= k < |front| ==> front[k] == log[k];
      Exchanges(front) + [Message(User, last.prompt), Message(Assistant, last.completion)]
  }

  /**
    The prompt a turn feeds to the next one: the observation of its dispatch.
    The loop never continues after a turn without an observation, so the
    empty text is never sent.
   */
  function FeedOf(step: Handling): string {
    if Acted(step) then "Observation: " + step.result.value else ""
  }

  /** `next_prompt` after the given turns: the question first, then the last turn's observation. */
  function NextPrompt(question: string, log: seq<Turn>): string {
    if log == [] then question else FeedOf(log[|log| - 1].step)
  }

  datatype FailurePoint = ModelCall | HandlerCall(action: Action, arg: string)

  /** How `query` ends: it returns the trace, or raises. */
  datatype Outcome =
    | Done(trace: string)
    | UnknownAction(name: string, arg: string)
    | BackendFailure(at: FailurePoint)

  /**
    The loop's variables (`i`, `bot`, `next_prompt`, `query_result`) plus a
    record of the prompts sent to the model and of the completed turns.
   */
  datatype State = State(turn: int, bot: Chatbot, nextPrompt: string, trace: string,
                         calls: seq<string>, log: seq<Turn>)

  datatype Next = Continue(state: State) | Stop(outcome: Outcome, state: State)

  /** The end of a query, with everything it sent and did, and the final transcript. */
  datatype Run = Run(outcome: Outcome, calls: seq<string>, log: seq<Turn>, transcript: seq<Message>)

  function Max0(n: int): nat {
    if n < 0 then 0 else n
  }

  /** Lines 60-63: a fresh chatbot, the question as the first prompt, an empty trace. */
  function Init(system: string, question: string): State {
    State(0, New(system), question, "", [], [])
  }

  /** One iteration of the `while` body (lines 65-78). */
  function Step(s: State, env: Env): (r: Next)
    ensures r.state.turn == s.turn + 1
    ensures |r.state.calls| == |s.calls| + 1 && r.state.calls[..|s.calls|] == s.calls
  {
    var reply := Call(s.bot, s.nextPrompt, ModelAt(env, |s.calls|));
    var calls := s.calls + [reply.prompt];
    assert calls[..|s.calls|] == s.calls;
    match reply.completion
    case None =>
      Stop(BackendFailure(ModelCall), s.(turn := s.turn + 1, bot := reply.bot, calls := calls))
    case Some(c) =>
      var step := Dispatch(c, HandlerAt(env, |s.log|));
      Act(State(s.turn + 1, reply.bot, s.nextPrompt, s.trace + c + "\n\n", calls,
                s.log + [Turn(s.nextPrompt, c, step)]), step)
  }

  /**
    Lines 68-79 once the completion is in the transcript and the trace: stop on
    no directive, an unknown action or a failed handler; otherwise feed the
    observation back as the next prompt.
   */
  function Act(s: State, step: Handling): (r: Next)
    ensures r.state.turn == s.turn && r.state.calls == s.calls && r.state.log == s.log && r.state.bot == s.bot
    ensures r.Continue? <==> step.Invoked? && step.result.Some?
  {
    match step
    case NoDirective => Stop(Done(s.trace), s)
    case Unknown(d) => Stop(UnknownAction(d.name, d.arg), s)
    case Invoked(a, arg, None) => Stop(BackendFailure(HandlerCall(a, arg)), s)
    case Invoked(a, arg, Some(obs)) =>
      Continue(s.(trace := s.trace + "Observation: " + obs + "\n\n", nextPrompt := "Observation: " + obs))
  }

  /** `while i < max_turns`: at most one model call per remaining turn, earlier calls kept. */
  function Loop(s: State, maxTurns: int, env: Env): (r: Run)
    ensures |s.calls| <= |r.calls| <= |s.calls| + Max0(maxTurns - s.turn)
    ensures r.calls[..|s.calls|] == s.calls
    decreases maxTurns - s.turn
  {
    if s.turn >= maxTurns then Run(Done(s.trace), s.calls, s.log, s.bot.messages)
    else
      match Step(s, env)
      case Continue(s') =>
        var r := Loop(s', maxTurns, env);
        assert r.calls[..|s.calls|] == r.calls[..|s'.calls|][..|s.calls|];
        r
      case Stop(o, s') => Run(o, s'.calls, s'.log, s'.bot.messages)
  }

  /** The default of `max_turns`. */
  const DefaultMaxTurns: int := 5

  /**
    `query(question, max_turns)` with the system prompt `system`: at most
    `max_turns` model calls, and without a positive budget no call at all, the
    empty string returned and the transcript left as created.
   */
  function Query(system: string, question: string, maxTurns: int, env: Env): (r: Run)
    ensures |r.calls| <= Max0(maxTurns)
    ensures maxTurns <= 0 ==> r == Run(Done(""), [], [], Header(system))
  {
    Loop(Init(system, question), maxTurns, env)
  }

  /** `query(question)`: the default budget bounds the model calls. */
  function QueryDefault(system: string, question: string, env: Env): (r: Run)
    ensures |r.calls| <= 5
  {
    Query(system, question, DefaultMaxTurns, env)
  }

  // ---------------------------------------------------------------------------
  // What a run looks like

  /** Each turn's user message is the question (first turn) or the previous turn's observation. */
  predicate Fed(question: string, log: seq<Turn>) {
    && (|log| > 0 ==> log[0].prompt == question)
    && forall j, k :: 0 <= j < |log| && k == j + 1 && k < |log| ==> log[k].prompt == FeedOf(log[j].step)
  }

  /** The `k`-th model call received the transcript up to and including that turn's user message. */
  predicate SentRendered(h: nat, calls: seq<string>, transcript: seq<Message>) {
    forall k :: 0 <= k < |calls| ==>
      h + 2 * k + 1 <= |transcript| && calls[k] == Render(transcript[..h + 2 * k + 1])
  }

  /** Each completed turn holds the model's answer to its call and the dispatch of that answer. */
  predicate Consistent(env: Env, calls: seq<string>, log: seq<Turn>) {
    && |log| <= |calls|
    && Replied(env, calls, log)
    && Dispatched(env, log)
  }

  /** Each completed turn's completion is what the model answered to that turn's call. */
  predicate Replied(env: Env, calls: seq<string>, log: seq<Turn>)
    requires |log| <= |calls|
  {
    forall k :: 0 <= k < |log| ==> env.model(k, calls[k]) == Some(log[k].completion)
  }

  /** Each completed turn records the dispatch of its completion. */
  predicate Dispatched(env: Env, log: seq<Turn>) {
    forall k :: 0 <= k < |log| ==> log[k].step == Dispatch(log[k].completion, HandlerAt(env, k))
  }

  /**
    The transcript is the header, one user/assistant pair per completed turn,
    and the pending user message when the last model call raised.
   */
  predicate Shaped(system: string, question: string, calls: seq<string>, log: seq<Turn>, transcript: seq<Message>) {
    && |log| <= |calls| <= |log| + 1
    && transcript == Header(system) + Exchanges(log)
                     + (if |calls| > |log| then [Message(User, NextPrompt(question, log))] else [])
    && Fed(question, log)
    && SentRendered(|Header(system)|, calls, transcript)
  }

  /** The outcome is decided by how the last turn ended. */
  predicate Settled(o: Outcome, calls: seq<string>, log: seq<Turn>, maxTurns: int, env: Env) {
    if |calls| > |log| then o == BackendFailure(ModelCall) && env.model(|log|, calls[|log|]).None?
    else if log == [] then o == Done("") && maxTurns <= 0
    else
      match log[|log| - 1].step
      case NoDirective => o == Done(TraceOf(log))
      case Unknown(d) => o == UnknownAction(d.name, d.arg)
      case Invoked(a, arg, None) => o == BackendFailure(HandlerCall(a, arg))
      case Invoked(_, _, Some(_)) => o == Done(TraceOf(log)) && |calls| == maxTurns
  }

  /** Everything the loop guarantees about a finished query. */
  predicate Sound(r: Run, system: string, question: string, maxTurns: int, env: Env) {
    && Shaped(system, question, r.calls, r.log, r.transcript)
    && Consistent(env, r.calls, r.log)
    && |r.calls| <= Max0(maxTurns)
    && (forall k :: 0 <= k < |r.calls| - 1 ==> Acted(r.log[k].step))
    && Settled(r.outcome, r.calls, r.log, maxTurns, env)
  }

  /** What holds at the top of the `while` loop. */
  predicate Inv(s: State, system: string, question: string, env: Env) {
    && s.turn == |s.calls| == |s.log|
    && s.bot.system == system
    && Shaped(system, question, s.calls, s.log, s.bot.messages)
    && Consistent(env, s.calls, s.log)
    && (forall k :: 0 <= k < |s.log| ==> Acted(s.log[k].step))
    && s.nextPrompt == NextPrompt(question, s.log)
    && s.trace == TraceOf(s.log)
  }
}
