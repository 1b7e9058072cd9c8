/** The loop's guarantees: every query stays within its turn budget and ends as its last turn dictates. */
module AgentProperties {
  import opened Wrappers
  import opened Text
  import opened ActionParser
  import opened Registry
  import opened Chat
  import opened Agent

  lemma ExchangesSnoc(log: seq<Turn>, t: Turn)
    ensures Exchanges(log + [t]) == Exchanges(log) + [Message(User, t.prompt), Message(Assistant, t.completion)]
  {
    assert (log + [t])[..|log|] == log;
  }

  lemma TraceSnoc(log: seq<Turn>, t: Turn)
    ensures TraceOf(log + [t]) == TraceOf(log) + TurnText(t)
  {
    assert (log + [t])[..|log|] == log;
  }

  lemma FedSnoc(question: string, log: seq<Turn>, t: Turn)
    requires Fed(question, log)
    requires t.prompt == NextPrompt(question, log)
    ensures Fed(question, log + [t])
  {
    var log' := log + [t];
    assert forall k :: 0 <= k < |log| ==> log'[k] == log[k];
  }

  /**
    What one turn writes to the trace: its completion and a blank line, then,
    when it acted, the very observation fed back as the next prompt and a
    blank line.
   */
  lemma {:induction false} TurnTextFeed(t: Turn)
    ensures !Acted(t.step) ==> TurnText(t) == t.completion + "\n\n"
    ensures Acted(t.step) ==> TurnText(t) == t.completion + "\n\n" + FeedOf(t.step) + "\n\n"
  {
  }

  /** The trace of consecutive runs of turns is the concatenation of their traces. */
  lemma {:induction false} TraceOfAppend(a: seq<Turn>, b: seq<Turn>)
    ensures TraceOf(a + b) == TraceOf(a) + TraceOf(b)
    decreases |b|
  {
    if b == [] {
      assert a + b == a;
    } else {
      var b' := b[..|b| - 1];
      var t := b[|b| - 1];
      assert b == b' + [t];
      assert a + b == (a + b') + [t];
      TraceSnoc(a + b', t);
      TraceSnoc(b', t);
      TraceOfAppend(a, b');
      AppendAssoc(TraceOf(a), TraceOf(b'), TurnText(t));
    }
  }

  /** The trace of a log is the trace of its first turn followed by the trace of the rest. */
  lemma {:induction false} TraceOfFront(t: Turn, log: seq<Turn>)
    ensures TraceOf([t] + log) == TurnText(t) + TraceOf(log)
  {
    TraceOfAppend([t], log);
    TraceSnoc([], t);
    assert [] + [t] == [t];
  }

  /** The trace of two turns. */
  lemma TraceTwo(t0: Turn, t1: Turn)
    ensures TraceOf([t0, t1]) == TurnText(t0) + TurnText(t1)
  {
    assert [t0, t1][..1] == [t0];
    assert [t0][..0] == [];
    assert TraceOf([t0]) == "" + TurnText(t0) == TurnText(t0);
  }

  /** A new model call that saw the transcript extended by one user message. */
  lemma SentExtend(h: nat, calls: seq<string>, ms: seq<Message>, ms': seq<Message>, p: string)
    requires SentRendered(h, calls, ms)
    requires |ms| == h + 2 * |calls|
    requires |ms'| >= |ms| + 1 && ms'[..|ms|] == ms
    requires p == Render(ms'[..|ms| + 1])
    ensures SentRendered(h, calls + [p], ms')
  {
    var calls' := calls + [p];
    forall k | 0 <= k < |calls'|
      ensures h + 2 * k + 1 <= |ms'| && calls'[k] == Render(ms'[..h + 2 * k + 1])
    {
      if k < |calls| {
        assert ms'[..h + 2 * k + 1] == ms[..h + 2 * k + 1];
      }
    }
  }

  lemma ConsistentExtend(env: Env, calls: seq<string>, log: seq<Turn>, p: string)
    requires Consistent(env, calls, log)
    ensures Consistent(env, calls + [p], log)
  {
    var calls' := calls + [p];
    assert forall k :: 0 <= k < |calls| ==> calls'[k] == calls[k];
  }

  lemma InitInv(system: string, question: string, env: Env)
    ensures Inv(Init(system, question), system, question, env)
  {
  }

  /** The call of an iteration: the user message goes in, the prompt is logged. */
  function Ask(s: State, env: Env): Reply {
    Call(s.bot, s.nextPrompt, ModelAt(env, |s.calls|))
  }

  /** What the model call of an iteration leaves behind, whatever it answered. */
  lemma AskFacts(s: State, system: string, question: string, env: Env)
    requires Inv(s, system, question, env)
    ensures |s.bot.messages| == |Header(system)| + 2 * |s.log|
    ensures s.bot.messages == Header(system) + Exchanges(s.log)
    ensures Ask(s, env).completion == env.model(|s.calls|, Ask(s, env).prompt)
    ensures SentRendered(|Header(system)|, s.calls + [Ask(s, env).prompt], Ask(s, env).bot.messages)
    ensures Consistent(env, s.calls + [Ask(s, env).prompt], s.log)
  {
    assert s.bot.messages == Header(system) + Exchanges(s.log) + [];
    CallSent(|Header(system)|, s.calls, s.bot, s.nextPrompt, ModelAt(env, |s.calls|));
    ConsistentExtend(env, s.calls, s.log, Ask(s, env).prompt);
  }

  /** A call's prompt, logged after the earlier ones, is the rendering of its transcript so far. */
  lemma CallSent(h: nat, calls: seq<string>, b: Chatbot, message: string, complete: string -> Option<string>)
    requires SentRendered(h, calls, b.messages)
    requires |b.messages| == h + 2 * |calls|
    ensures SentRendered(h, calls + [Call(b, message, complete).prompt], Call(b, message, complete).bot.messages)
  {
    var reply := Call(b, message, complete);
    var asked := b.messages + [Message(User, message)];
    assert reply.bot.messages == asked + Appended(reply.completion);
    assert reply.bot.messages[..|b.messages|] == b.messages;
    assert reply.bot.messages[..|b.messages| + 1] == asked;
    SentExtend(h, calls, b.messages, reply.bot.messages, reply.prompt);
  }

  /** The state a raising model call leaves. */
  function Asked(s: State, env: Env): State {
    s.(turn := s.turn + 1, bot := Ask(s, env).bot, calls := s.calls + [Ask(s, env).prompt])
  }

  lemma AskedShaped(s: State, system: string, question: string, env: Env)
    requires Inv(s, system, question, env)
    requires Ask(s, env).completion.None?
    ensures Shaped(system, question, Asked(s, env).calls, s.log, Asked(s, env).bot.messages)
  {
    AskFacts(s, system, question, env);
    var reply := Ask(s, env);
    assert reply.bot.messages == s.bot.messages + [Message(User, s.nextPrompt)];
  }

  lemma AskedSettled(s: State, system: string, question: string, maxTurns: int, env: Env)
    requires Inv(s, system, question, env)
    requires 0 <= s.turn < maxTurns
    requires Ask(s, env).completion.None?
    ensures Consistent(env, Asked(s, env).calls, s.log)
    ensures Settled(BackendFailure(ModelCall), Asked(s, env).calls, s.log, maxTurns, env)
  {
    AskFacts(s, system, question, env);
    assert Asked(s, env).calls[|s.log|] == Ask(s, env).prompt;
  }

  /** A model call that raises ends the query with the pending user message in the transcript. */
  lemma StepModelFails(s: State, system: string, question: string, maxTurns: int, env: Env)
    requires Inv(s, system, question, env)
    requires 0 <= s.turn < maxTurns
    requires Ask(s, env).completion.None?
    ensures Step(s, env) == Stop(BackendFailure(ModelCall), Asked(s, env))
    ensures Sound(Run(BackendFailure(ModelCall), Asked(s, env).calls, s.log, Asked(s, env).bot.messages),
                  system, question, maxTurns, env)
  {
    AskedShaped(s, system, question, env);
    AskedSettled(s, system, question, maxTurns, env);
  }

  /** A completed turn adds its user/assistant pair to the transcript. */
  lemma TranscriptSnoc(h: seq<Message>, log: seq<Turn>, ms: seq<Message>, t: Turn, ms': seq<Message>)
    requires ms == h + Exchanges(log)
    requires ms' == ms + [Message(User, t.prompt), Message(Assistant, t.completion)]
    ensures ms' == h + Exchanges(log + [t])
  {
    ExchangesSnoc(log, t);
    AppendAssoc(h, Exchanges(log), [Message(User, t.prompt), Message(Assistant, t.completion)]);
  }

  /** Recording one more completed turn keeps the transcript's shape. */
  lemma ShapedSnoc(system: string, question: string, calls: seq<string>, log: seq<Turn>, ms: seq<Message>,
                   t: Turn, ms': seq<Message>, p: string)
    requires Shaped(system, question, calls, log, ms)
    requires |calls| == |log|
    requires t.prompt == NextPrompt(question, log)
    requires ms' == ms + [Message(User, t.prompt), Message(Assistant, t.completion)]
    requires p == Render(ms'[..|ms| + 1])
    ensures Shaped(system, question, calls + [p], log + [t], ms')
  {
    var h := Header(system);
    assert ms == h + Exchanges(log);
    assert ms'[..|ms|] == ms;
    SentExtend(|h|, calls, ms, ms', p);
    TranscriptSnoc(h, log, ms, t, ms');
    FedSnoc(question, log, t);
    ShapedIntro(system, question, calls + [p], log + [t], ms');
  }

  /** A transcript of whole exchanges, fed and rendered as the loop does, is shaped. */
  lemma ShapedIntro(system: string, question: string, calls: seq<string>, log: seq<Turn>, ms: seq<Message>)
    requires |calls| == |log|
    requires ms == Header(system) + Exchanges(log)
    requires Fed(question, log)
    requires SentRendered(|Header(system)|, calls, ms)
    ensures Shaped(system, question, calls, log, ms)
  {
    assert ms == Header(system) + Exchanges(log) + [];
  }

  /** Recording one more completed turn keeps the record consistent with the oracles. */
  lemma ConsistentSnoc(env: Env, calls: seq<string>, log: seq<Turn>, t: Turn, p: string)
    requires Consistent(env, calls, log)
    requires |calls| == |log|
    requires env.model(|log|, p) == Some(t.completion)
    requires t.step == Dispatch(t.completion, HandlerAt(env, |log|))
    ensures Consistent(env, calls + [p], log + [t])
  {
    RepliedSnoc(env, calls, log, t, p);
    DispatchedSnoc(env, log, t);
  }

  lemma RepliedSnoc(env: Env, calls: seq<string>, log: seq<Turn>, t: Turn, p: string)
    requires |calls| == |log|
    requires Replied(env, calls, log)
    requires env.model(|log|, p) == Some(t.completion)
    ensures Replied(env, calls + [p], log + [t])
  {
    var calls' := calls + [p];
    var log' := log + [t];
    assert forall k :: 0 <= k < |log| ==> log'[k] == log[k] && calls'[k] == calls[k];
    assert log'[|log|] == t && calls'[|log|] == p;
  }

  lemma DispatchedSnoc(env: Env, log: seq<Turn>, t: Turn)
    requires Dispatched(env, log)
    requires t.step == Dispatch(t.completion, HandlerAt(env, |log|))
    ensures Dispatched(env, log + [t])
  {
    var log' := log + [t];
    forall k | 0 <= k < |log'|
      ensures log'[k].step == Dispatch(log'[k].completion, HandlerAt(env, k))
    {
      if k < |log| {
        assert log'[k] == log[k];
      } else {
        assert log'[k] == t;
      }
    }
  }

  /** The completed turn of an iteration. */
  function Answered(s: State, c: string, env: Env): Turn {
    Turn(s.nextPrompt, c, Dispatch(c, HandlerAt(env, |s.log|)))
  }

  /** The state right after a completion has been recorded (lines 66-67), before acting on it. */
  function Recorded(s: State, c: string, env: Env): State {
    State(s.turn + 1, Ask(s, env).bot, s.nextPrompt, s.trace + c + "\n\n", s.calls + [Ask(s, env).prompt],
          s.log + [Answered(s, c, env)])
  }

  lemma RecordedFacts(s: State, system: string, question: string, env: Env, c: string)
    requires Inv(s, system, question, env)
    requires Ask(s, env).completion == Some(c)
    ensures Shaped(system, question, Recorded(s, c, env).calls, Recorded(s, c, env).log, Recorded(s, c, env).bot.messages)
    ensures Consistent(env, Recorded(s, c, env).calls, Recorded(s, c, env).log)
  {
    RecordedShaped(s, system, question, env, c);
    RecordedConsistent(s, system, question, env, c);
  }

  lemma RecordedShaped(s: State, system: string, question: string, env: Env, c: string)
    requires Inv(s, system, question, env)
    requires Ask(s, env).completion == Some(c)
    ensures Shaped(system, question, Recorded(s, c, env).calls, Recorded(s, c, env).log, Recorded(s, c, env).bot.messages)
  {
    var reply := Ask(s, env);
    var asked := s.bot.messages + [Message(User, s.nextPrompt)];
    assert reply.bot.messages == asked + [Message(Assistant, c)];
    assert reply.bot.messages[..|s.bot.messages| + 1] == asked;
    ShapedSnoc(system, question, s.calls, s.log, s.bot.messages, Answered(s, c, env), reply.bot.messages, reply.prompt);
  }

  lemma RecordedConsistent(s: State, system: string, question: string, env: Env, c: string)
    requires Inv(s, system, question, env)
    requires Ask(s, env).completion == Some(c)
    ensures Consistent(env, Recorded(s, c, env).calls, Recorded(s, c, env).log)
  {
    var reply := Ask(s, env);
    assert env.model(|s.log|, reply.prompt) == Some(c);
    ConsistentSnoc(env, s.calls, s.log, Answered(s, c, env), reply.prompt);
  }

  /** The trace after a turn: the old trace, the completion, and the observation if there was one. */
  lemma TraceAfter(trace: string, log: seq<Turn>, t: Turn)
    requires trace == TraceOf(log)
    ensures !Acted(t.step) ==> trace + t.completion + "\n\n" == TraceOf(log + [t])
    ensures Acted(t.step) ==>
              trace + t.completion + "\n\n" + "Observation: " + t.step.result.value + "\n\n" == TraceOf(log + [t])
  {
    TraceSnoc(log, t);
  }

  /** Acted turns before the new one stay acted. */
  lemma ActedPrefix(log: seq<Turn>, t: Turn)
    requires forall k :: 0 <= k < |log| ==> Acted(log[k].step)
    ensures forall k :: 0 <= k < |log + [t]| - 1 ==> Acted((log + [t])[k].step)
    ensures Acted(t.step) ==> forall k :: 0 <= k < |log + [t]| ==> Acted((log + [t])[k].step)
  {
    assert forall k :: 0 <= k < |log| ==> (log + [t])[k] == log[k];
  }

  /** A turn that stops the loop decides the outcome as `Settled` says. */
  lemma ActSettled(s1: State, log: seq<Turn>, trace: string, t: Turn, maxTurns: int, env: Env)
    requires |s1.calls| == |s1.log|
    requires s1.log == log + [t] && trace == TraceOf(log) && s1.trace == trace + t.completion + "\n\n"
    ensures Act(s1, t.step).Stop? ==> Settled(Act(s1, t.step).outcome, s1.calls, s1.log, maxTurns, env)
  {
    TraceAfter(trace, log, t);
    assert s1.log[|s1.log| - 1] == t;
  }

  /** A turn that continues the loop sets up the next prompt and trace as the invariant says. */
  lemma ActContinues(s1: State, log: seq<Turn>, trace: string, t: Turn, question: string)
    requires s1.log == log + [t] && trace == TraceOf(log) && s1.trace == trace + t.completion + "\n\n"
    requires Act(s1, t.step).Continue?
    ensures Act(s1, t.step).state.trace == TraceOf(s1.log)
    ensures Act(s1, t.step).state.nextPrompt == NextPrompt(question, s1.log)
  {
    TraceAfter(trace, log, t);
    assert s1.log[|s1.log| - 1] == t;
  }

  /** A turn with an observation keeps the invariant for the next iteration. */
  lemma ActContinueInv(s1: State, log: seq<Turn>, trace: string, t: Turn,
                       system: string, question: string, maxTurns: int, env: Env)
    requires s1.turn == |s1.calls| == |s1.log| <= maxTurns
    requires s1.log == log + [t] && trace == TraceOf(log) && s1.trace == trace + t.completion + "\n\n"
    requires forall k :: 0 <= k < |log| ==> Acted(log[k].step)
    requires s1.bot.system == system
    requires Shaped(system, question, s1.calls, s1.log, s1.bot.messages)
    requires Consistent(env, s1.calls, s1.log)
    requires Act(s1, t.step).Continue?
    ensures Inv(Act(s1, t.step).state, system, question, env)
  {
    ActedPrefix(log, t);
    ActContinues(s1, log, trace, t, question);
  }

  /** A turn that stops the loop leaves a run with every guarantee. */
  lemma ActStopSound(s1: State, log: seq<Turn>, trace: string, t: Turn,
                     system: string, question: string, maxTurns: int, env: Env)
    requires s1.turn == |s1.calls| == |s1.log| <= maxTurns
    requires s1.log == log + [t] && trace == TraceOf(log) && s1.trace == trace + t.completion + "\n\n"
    requires forall k :: 0 <= k < |log| ==> Acted(log[k].step)
    requires s1.bot.system == system
    requires Shaped(system, question, s1.calls, s1.log, s1.bot.messages)
    requires Consistent(env, s1.calls, s1.log)
    requires Act(s1, t.step).Stop?
    ensures Sound(Run(Act(s1, t.step).outcome, s1.calls, s1.log, s1.bot.messages), system, question, maxTurns, env)
  {
    ActedPrefix(log, t);
    ActSettled(s1, log, trace, t, maxTurns, env);
  }

  /** Acting on a recorded turn keeps the invariant, or ends in a run with every guarantee. */
  lemma ActSound(s1: State, log: seq<Turn>, trace: string, t: Turn,
                 system: string, question: string, maxTurns: int, env: Env)
    requires s1.turn == |s1.calls| == |s1.log| <= maxTurns
    requires s1.log == log + [t] && trace == TraceOf(log) && s1.trace == trace + t.completion + "\n\n"
    requires forall k :: 0 <= k < |log| ==> Acted(log[k].step)
    requires s1.bot.system == system
    requires Shaped(system, question, s1.calls, s1.log, s1.bot.messages)
    requires Consistent(env, s1.calls, s1.log)
    ensures Act(s1, t.step).Continue? ==> Inv(Act(s1, t.step).state, system, question, env)
    ensures Act(s1, t.step).Stop? ==>
              var s' := Act(s1, t.step).state;
              Sound(Run(Act(s1, t.step).outcome, s'.calls, s'.log, s'.bot.messages), system, question, maxTurns, env)
  {
    if Act(s1, t.step).Continue? {
      ActContinueInv(s1, log, trace, t, system, question, maxTurns, env);
    } else {
      ActStopSound(s1, log, trace, t, system, question, maxTurns, env);
    }
  }

  /** One iteration keeps the invariant, or ends in a run with every guarantee. */
  lemma StepSound(s: State, system: string, question: string, maxTurns: int, env: Env)
    requires Inv(s, system, question, env)
    requires 0 <= s.turn < maxTurns
    ensures Step(s, env).Continue? ==> Inv(Step(s, env).state, system, question, env)
    ensures Step(s, env).Stop? ==>
              var s' := Step(s, env).state;
              Sound(Run(Step(s, env).outcome, s'.calls, s'.log, s'.bot.messages), system, question, maxTurns, env)
  {
    match Ask(s, env).completion {
    case None =>
      StepModelFails(s, system, question, maxTurns, env);
    case Some(c) =>
      RecordedFacts(s, system, question, env, c);
      var t := Answered(s, c, env);
      assert Step(s, env) == Act(Recorded(s, c, env), t.step);
      ActSound(Recorded(s, c, env), s.log, s.trace, t, system, question, maxTurns, env);
    }
  }

  /** The whole loop, by induction on the remaining turns. */
  lemma {:induction false} LoopSound(s: State, system: string, question: string, maxTurns: int, env: Env)
    requires Inv(s, system, question, env)
    requires 0 <= s.turn <= Max0(maxTurns)
    ensures Sound(Loop(s, maxTurns, env), system, question, maxTurns, env)
    decreases maxTurns - s.turn
  {
    if s.turn < maxTurns {
      StepSound(s, system, question, maxTurns, env);
      match Step(s, env) {
      case Continue(s') =>
        LoopSound(s', system, question, maxTurns, env);
      case Stop(o, s') =>
      }
    }
  }

  lemma QuerySound(system: string, question: string, maxTurns: int, env: Env)
    ensures Sound(Query(system, question, maxTurns, env), system, question, maxTurns, env)
  {
    InitInv(system, question, env);
    LoopSound(Init(system, question), system, question, maxTurns, env);
  }
}
