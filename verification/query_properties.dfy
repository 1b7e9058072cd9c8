/**
  What a caller of `query` can rely on, read off the loop's soundness: the
  turn budget, the transcript the model sees, how observations are fed back,
  which directive is acted on, and how each kind of ending comes about.
 */
module QueryProperties {
  import opened Wrappers
  import opened Text
  import opened ActionParser
  import opened Registry
  import opened Chat
  import opened Agent
  import opened AgentProperties

  /**
    Dispatch acts on the first directive of the completion only: no directive
    means no action, an unregistered name is reported as unknown, and a
    registered one is invoked with the directive's argument.
   */
  lemma DispatchSpec(completion: string, handler: HandlerBody)
    ensures Dispatch(completion, handler) == NoDirective <==> FirstDirective(completion).None?
    ensures forall d :: Dispatch(completion, handler) == Unknown(d) <==>
              FirstDirective(completion) == Some(d) && d.name !in KnownNames
    ensures Dispatch(completion, handler).Invoked? ==>
              && FirstDirective(completion) == Some(Directive(Name(Dispatch(completion, handler).action),
                                                              Dispatch(completion, handler).arg))
              && Dispatch(completion, handler).result
                 == Invoke(handler, Dispatch(completion, handler).action, Dispatch(completion, handler).arg)
    ensures forall a, arg :: FirstDirective(completion) == Some(Directive(Name(a), arg)) ==>
              Dispatch(completion, handler) == Invoked(a, arg, Invoke(handler, a, arg))
  {
    match FirstDirective(completion) {
    case None =>
    case Some(d) =>
      forall a, arg | d == Directive(Name(a), arg)
        ensures Lookup(d.name) == Some(a)
      {
        LookupName(a);
      }
    }
  }

  /** Every registered name is a run of word characters, so a directive can name it. */
  lemma NameIsWord(a: Action)
    ensures IsName(Name(a))
  {
    match a
    case GenerateWorkout =>
    case SuggestMeal =>
    case MotivationalQuote =>
  }

  /**
    Every registered action can be called: a completion that is exactly the
    directive line for the action and a single-line argument dispatches that
    action with that argument.
   */
  lemma EveryActionCallable(a: Action, arg: string, handler: HandlerBody)
    requires '\n' !in arg
    ensures FirstDirective(Format(Directive(Name(a), arg))) == Some(Directive(Name(a), arg))
    ensures Dispatch(Format(Directive(Name(a), arg)), handler) == Invoked(a, arg, Invoke(handler, a, arg))
  {
    NameIsWord(a);
    DirectiveLineRoundTrip(Directive(Name(a), arg));
    DispatchSpec(Format(Directive(Name(a), arg)), handler);
  }

  /** The transcript's entries, position by position. */
  lemma TranscriptContent(h: seq<Message>, log: seq<Turn>, tail: seq<Message>, ms: seq<Message>)
    requires ms == h + Exchanges(log) + tail
    ensures |ms| == |h| + 2 * |log| + |tail|
    ensures ms[..|h|] == h
    ensures forall k :: 0 <= k < |log| ==>
              ms[|h| + 2 * k] == Message(User, log[k].prompt)
              && ms[|h| + 2 * k + 1] == Message(Assistant, log[k].completion)
    ensures |tail| == 1 ==> ms[|ms| - 1] == tail[0]
  {
    assert ms[..|h|] == h;
  }

  /** The turns' messages alternate user and assistant, user first. */
  lemma {:induction false} ExchangeRoles(log: seq<Turn>)
    ensures forall i :: 0 <= i < |Exchanges(log)| ==> Exchanges(log)[i].role == TurnRole(i)
  {
    var ms := Exchanges(log);
    forall i | 0 <= i < |ms|
      ensures ms[i].role == TurnRole(i)
    {
      var k := i / 2;
      if i % 2 == 0 {
        assert i == 2 * k && k < |log|;
        assert ms[2 * k] == Message(User, log[k].prompt);
      } else {
        assert i == 2 * k + 1 && k < |log|;
        assert ms[2 * k + 1] == Message(Assistant, log[k].completion);
      }
    }
  }

  /** A header followed by whole user/assistant pairs is a valid transcript with one turn per pair. */
  lemma {:induction false} ExchangesValid(system: string, log: seq<Turn>, ms: seq<Message>)
    requires ms == Header(system) + Exchanges(log)
    ensures Valid(Chatbot(system, ms)) && Turns(Chatbot(system, ms)) == |log|
  {
    var h := Header(system);
    var xs := Exchanges(log);
    var n := |log|;
    ExchangeRoles(log);
    assert |ms| - |h| == 2 * n;
    assert (2 * n) % 2 == 0 && (2 * n) / 2 == n;
    assert ms[..|h|] == h;
    forall i | |h| <= i < |ms|
      ensures ms[i].role == TurnRole(i - |h|)
    {
      assert ms[i] == xs[i - |h|];
    }
  }

  /**
    Between calls the loop's transcript is a valid chatbot transcript: the
    header, then one user/assistant pair per completed turn.
   */
  lemma {:induction false} ShapedValid(system: string, question: string, calls: seq<string>, log: seq<Turn>, ms: seq<Message>)
    requires Shaped(system, question, calls, log, ms)
    requires |calls| == |log|
    ensures Valid(Chatbot(system, ms)) && Turns(Chatbot(system, ms)) == |log|
  {
    assert ms == Header(system) + Exchanges(log) + [];
    ExchangesValid(system, log, ms);
  }

  /**
    A query whose model calls all answered leaves a valid chatbot transcript
    holding one user/assistant pair per completed turn.
   */
  lemma QueryValid(system: string, question: string, maxTurns: int, env: Env)
    ensures var r := Query(system, question, maxTurns, env);
            |r.calls| == |r.log| ==> Valid(Chatbot(system, r.transcript)) && Turns(Chatbot(system, r.transcript)) == |r.log|
  {
    var r := Query(system, question, maxTurns, env);
    QuerySound(system, question, maxTurns, env);
    if |r.calls| == |r.log| {
      ShapedValid(system, question, r.calls, r.log, r.transcript);
    }
  }

  /**
    The transcript the chatbot keeps: the system message first, present
    exactly when the system text is non-empty; then, for each completed turn,
    its user message and the model's answer; then the user message of a model
    call that raised, if any.
   */
  lemma QueryTranscript(system: string, question: string, maxTurns: int, env: Env)
    ensures |Header(system)| == (if system == "" then 0 else 1)
    ensures var r := Query(system, question, maxTurns, env);
            var h := |Header(system)|;
            && |r.log| <= |r.calls| <= |r.log| + 1
            && |r.transcript| == h + |r.log| + |r.calls|
            && r.transcript[..h] == Header(system)
            && (forall k :: 0 <= k < |r.log| ==>
                  r.transcript[h + 2 * k] == Message(User, r.log[k].prompt)
                  && r.transcript[h + 2 * k + 1] == Message(Assistant, r.log[k].completion))
            && (|r.calls| > |r.log| ==> r.transcript[|r.transcript| - 1] == Message(User, NextPrompt(question, r.log)))
  {
    var r := Query(system, question, maxTurns, env);
    QueryLayout(system, question, maxTurns, env);
    var tail := if |r.calls| > |r.log| then [Message(User, NextPrompt(question, r.log))] else [];
    TranscriptContent(Header(system), r.log, tail, r.transcript);
  }

  /** The final transcript as the header, the exchanges and the pending user message. */
  lemma QueryLayout(system: string, question: string, maxTurns: int, env: Env)
    ensures var r := Query(system, question, maxTurns, env);
            && |r.log| <= |r.calls| <= |r.log| + 1
            && r.transcript == Header(system) + Exchanges(r.log)
                               + (if |r.calls| > |r.log| then [Message(User, NextPrompt(question, r.log))] else [])
  {
    QuerySound(system, question, maxTurns, env);
  }

  /** Each model call is sent the rendering of the transcript up to and including its own user message. */
  lemma QueryPrompts(system: string, question: string, maxTurns: int, env: Env)
    ensures var r := Query(system, question, maxTurns, env);
            forall k :: 0 <= k < |r.calls| ==>
              |Header(system)| + 2 * k + 1 <= |r.transcript|
              && r.calls[k] == Render(r.transcript[..|Header(system)| + 2 * k + 1])
  {
    QuerySound(system, question, maxTurns, env);
  }

  /**
    The first prompt is the question; every later prompt is the observation
    of the previous turn, which did act.
   */
  lemma QueryFeedback(system: string, question: string, maxTurns: int, env: Env)
    ensures var r := Query(system, question, maxTurns, env);
            && |r.log| <= |r.calls| <= |r.log| + 1
            && (|r.log| > 0 ==> r.log[0].prompt == question)
            && (|r.log| == 0 < |r.calls| ==> NextPrompt(question, r.log) == question)
            && (forall k :: 0 <= k < |r.calls| - 1 ==> Acted(r.log[k].step))
            && (forall k :: 0 < k < |r.log| ==>
                  r.log[k].prompt == "Observation: " + r.log[k - 1].step.result.value)
  {
    var r := Query(system, question, maxTurns, env);
    QuerySound(system, question, maxTurns, env);
    forall k | 0 < k < |r.log|
      ensures r.log[k].prompt == "Observation: " + r.log[k - 1].step.result.value
    {
      var j := k - 1;
      assert r.log[j + 1].prompt == FeedOf(r.log[j].step);
    }
  }

  /**
    Each completed turn holds the model's answer to that turn's prompt, and
    what was done with it is the dispatch of its first directive.
   */
  lemma QueryAnswers(system: string, question: string, maxTurns: int, env: Env)
    ensures var r := Query(system, question, maxTurns, env);
            && |r.log| <= |r.calls| <= |r.log| + 1
            && forall k :: 0 <= k < |r.log| ==>
                 env.model(k, r.calls[k]) == Some(r.log[k].completion)
                 && r.log[k].step == Dispatch(r.log[k].completion, HandlerAt(env, k))
  {
    QuerySound(system, question, maxTurns, env);
  }

  /**
    How a query ends. A model call that raises is always the last call. An
    unknown action and a failing handler end the query on that turn. A query
    that returns its trace either ran out of turns after an acting turn or saw
    a completion without any directive; the trace returned is the
    concatenation of every completion and observation.
   */
  lemma QueryOutcome(system: string, question: string, maxTurns: int, env: Env)
    ensures var r := Query(system, question, maxTurns, env);
            && (r.outcome == BackendFailure(ModelCall) <==>
                  |r.calls| == |r.log| + 1 && env.model(|r.log|, r.calls[|r.log|]).None?)
            && (r.outcome.UnknownAction? <==>
                  |r.calls| == |r.log| > 0 && r.log[|r.log| - 1].step.Unknown?)
            && (r.outcome.UnknownAction? ==>
                  r.outcome == UnknownAction(r.log[|r.log| - 1].step.directive.name,
                                             r.log[|r.log| - 1].step.directive.arg)
                  && r.log[|r.log| - 1].step.directive.name !in KnownNames)
            && (forall a, arg :: r.outcome == BackendFailure(HandlerCall(a, arg)) <==>
                  |r.calls| == |r.log| > 0 && r.log[|r.log| - 1].step == Invoked(a, arg, None))
            && (r.outcome.Done? ==> r.outcome.trace == TraceOf(r.log) && |r.calls| == |r.log|)
            && (r.outcome.Done? && |r.log| > 0 && Acted(r.log[|r.log| - 1].step) ==> |r.calls| == maxTurns)
            && (r.outcome.Done? && |r.log| > 0 && !Acted(r.log[|r.log| - 1].step) ==>
                  r.log[|r.log| - 1].step == NoDirective)
  {
    var r := Query(system, question, maxTurns, env);
    QuerySound(system, question, maxTurns, env);
    if r.outcome.UnknownAction? {
      var t := r.log[|r.log| - 1];
      DispatchSpec(t.completion, HandlerAt(env, |r.log| - 1));
      assert t.step == Dispatch(t.completion, HandlerAt(env, |r.log| - 1));
    }
  }

  /**
    After a turn that acted the loop goes on: a query whose last turn acted
    either used its whole budget and returns the trace, or its next model
    call raised.
   */
  lemma QueryActedLast(system: string, question: string, maxTurns: int, env: Env)
    ensures var r := Query(system, question, maxTurns, env);
            |r.log| > 0 && Acted(r.log[|r.log| - 1].step) ==>
              || (r.outcome == Done(TraceOf(r.log)) && |r.calls| == |r.log| == maxTurns)
              || (r.outcome == BackendFailure(ModelCall) && |r.calls| == |r.log| + 1
                  && env.model(|r.log|, r.calls[|r.log|]).None?)
  {
    QuerySound(system, question, maxTurns, env);
  }

  /** A turn without a directive is the last one: the query returns its trace. */
  lemma QueryNoDirectiveLast(system: string, question: string, maxTurns: int, env: Env)
    ensures var r := Query(system, question, maxTurns, env);
            forall k :: 0 <= k < |r.log| && r.log[k].step == NoDirective ==>
              k == |r.log| - 1 && |r.calls| == |r.log| && r.outcome == Done(TraceOf(r.log))
  {
    QuerySound(system, question, maxTurns, env);
  }

  /**
    When every model call answers and every answer leads to an observation,
    the query uses its whole budget and returns the trace.
   */
  lemma QueryTurnLimit(system: string, question: string, maxTurns: int, env: Env)
    requires forall k, p :: env.model(k, p).Some? && Acted(Dispatch(env.model(k, p).value, HandlerAt(env, k)))
    ensures Query(system, question, maxTurns, env).outcome.Done?
    ensures |Query(system, question, maxTurns, env).calls| == Max0(maxTurns)
  {
    var r := Query(system, question, maxTurns, env);
    QuerySound(system, question, maxTurns, env);
    if |r.log| > 0 {
      var k := |r.log| - 1;
      assert r.log[k].completion == env.model(k, r.calls[k]).value;
    }
  }

  /**
    The prompt of the first model call: the rendered header and question. Its
    last line is the question as a user line whenever the question is a single
    line, whatever the system text contains.
   */
  function FirstPrompt(system: string, question: string): (p: string)
    ensures '\n' !in question ==> Split(p, '\n')[|Split(p, '\n')| - 1] == "user: " + question
  {
    RenderLastLine(Header(system), Message(User, question));
    Render(Header(system) + [Message(User, question)])
  }

  /** The first model call is sent the rendered header and question. */
  lemma FirstCallPrompt(system: string, question: string, maxTurns: int, env: Env)
    requires maxTurns > 0
    ensures Query(system, question, maxTurns, env).calls[0] == FirstPrompt(system, question)
  {
    var r := Query(system, question, maxTurns, env);
    assert r.calls == Loop(Init(system, question), maxTurns, env).calls;
    var s := Init(system, question);
    assert Step(s, env).state.calls[0] == Render(Header(system) + [Message(User, question)]);
  }

  /**
    A first answer without any directive ends the query at once: the trace
    is that answer followed by a blank line.
   */
  lemma StopsWithoutDirective(system: string, question: string, maxTurns: int, env: Env, c: string)
    requires maxTurns > 0
    requires env.model(0, FirstPrompt(system, question)) == Some(c)
    requires FirstDirective(c).None?
    ensures Query(system, question, maxTurns, env).outcome == Done(c + "\n\n")
    ensures |Query(system, question, maxTurns, env).calls| == 1
  {
    FirstAnswer(system, question, maxTurns, env, c);
    DispatchSpec(c, HandlerAt(env, 0));
  }

  /**
    `motivational_quote` takes no parameter but is called with the directive's
    argument, so it always raises: a first answer that asks for it ends the
    query with a handler failure, whatever the backend would have said.
   */
  lemma QuoteEndsQuery(system: string, question: string, maxTurns: int, env: Env, c: string, arg: string)
    requires maxTurns > 0
    requires env.model(0, FirstPrompt(system, question)) == Some(c)
    requires FirstDirective(c) == Some(Directive("motivational_quote", arg))
    ensures Query(system, question, maxTurns, env).outcome == BackendFailure(HandlerCall(MotivationalQuote, arg))
    ensures |Query(system, question, maxTurns, env).calls| == 1
  {
    FirstAnswer(system, question, maxTurns, env, c);
    DispatchSpec(c, HandlerAt(env, 0));
    assert Name(MotivationalQuote) == "motivational_quote";
    QuoteAlwaysFails(HandlerAt(env, 0), arg);
  }

  /** The first turn of a query whose first model call answers `c`. */
  lemma FirstAnswer(system: string, question: string, maxTurns: int, env: Env, c: string)
    requires maxTurns > 0
    requires env.model(0, FirstPrompt(system, question)) == Some(c)
    ensures |Query(system, question, maxTurns, env).log| >= 1
    ensures Query(system, question, maxTurns, env).log[0] == Turn(question, c, Dispatch(c, HandlerAt(env, 0)))
    ensures !Acted(Dispatch(c, HandlerAt(env, 0))) ==> |Query(system, question, maxTurns, env).log| == 1
  {
    var r := Query(system, question, maxTurns, env);
    QuerySound(system, question, maxTurns, env);
    FirstCallPrompt(system, question, maxTurns, env);
    QueryFeedback(system, question, maxTurns, env);
    assert r.log != [];
    assert r.log[0].completion == c;
  }
}
