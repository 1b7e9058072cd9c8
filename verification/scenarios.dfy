/**
  Concrete runs of the parser and of the loop: how particular completions are
  read, and a two-turn query from question to final answer.
 */
module Scenarios {
  import opened Wrappers
  import opened Text
  import opened ActionParser
  import opened Registry
  import opened Chat
  import opened Agent
  import opened AgentProperties
  import opened QueryProperties

  /** A directive mentioned in the middle of a sentence is not a directive: the match is anchored. */
  lemma ProseIsNoDirective()
    ensures FirstDirective("I think Action: suggest_meal: soup").None?
  {
    var line := "I think Action: suggest_meal: soup";
    assert line[0] == 'I';
    assert line[..|Prefix|] != Prefix;
    SingleLine(line);
  }

  /**
    The separator is a colon followed by a space, so a parameterless call
    written without a trailing space does not match at all.
   */
  lemma BareColonIsNoDirective()
    ensures MatchLine("Action: motivational_quote:").None?
  {
    var line := "Action: motivational_quote:";
    assert line[..|Prefix|] == Prefix;
    WordRunExact(line, |Prefix|, 18);
  }

  /** A carriage return before the line break stays in the argument: only '\n' ends a line. */
  lemma CarriageReturnKept()
    ensures MatchLine("Action: suggest_meal: vegan\r") == Some(Directive("suggest_meal", "vegan\r"))
  {
    var d := Directive("suggest_meal", "vegan\r");
    assert Format(d) == "Action: suggest_meal: vegan\r";
    MatchFormat(d);
  }

  /** The assumptions of the two-turn run: a workout request first, a plain answer second. */
  ghost predicate WorkoutThenAnswer(system: string, question: string, env: Env,
                              first: string, arg: string, workout: string, final: string) {
    && env.model(0, FirstPrompt(system, question)) == Some(first)
    && FirstDirective(first) == Some(Directive("generate_workout", arg))
    && env.handler(0, GenerateWorkout, arg) == Some(workout)
    && (forall p :: env.model(1, p) == Some(final))
    && FirstDirective(final).None?
  }

  /** A first answer asking for a workout invokes that handler and gets its backend's plan. */
  lemma WorkoutDispatch(env: Env, first: string, arg: string, workout: string)
    requires FirstDirective(first) == Some(Directive("generate_workout", arg))
    requires env.handler(0, GenerateWorkout, arg) == Some(workout)
    ensures Dispatch(first, HandlerAt(env, 0)) == Invoked(GenerateWorkout, arg, Some(workout))
  {
    DispatchSpec(first, HandlerAt(env, 0));
    assert Name(GenerateWorkout) == "generate_workout";
  }

  /** The turns of the two-turn run. */
  lemma TwoTurnLog(system: string, question: string, maxTurns: int, env: Env,
                   first: string, arg: string, workout: string, final: string)
    requires maxTurns >= 2
    requires WorkoutThenAnswer(system, question, env, first, arg, workout, final)
    ensures var r := Query(system, question, maxTurns, env);
            && |r.log| == 2
            && r.log[0] == Turn(question, first, Invoked(GenerateWorkout, arg, Some(workout)))
            && r.log[1].completion == final && r.log[1].step == NoDirective
  {
    var r := Query(system, question, maxTurns, env);
    WorkoutDispatch(env, first, arg, workout);
    FirstAnswer(system, question, maxTurns, env, first);
    assert |r.log| >= 2 by {
      QueryActedLast(system, question, maxTurns, env);
    }
    assert r.log[1].completion == final && r.log[1].step == Dispatch(final, HandlerAt(env, 1)) by {
      QueryAnswers(system, question, maxTurns, env);
    }
    DispatchSpec(final, HandlerAt(env, 1));
    QueryNoDirectiveLast(system, question, maxTurns, env);
  }

  /** The trace of an acting turn followed by a closing one. */
  lemma ActThenCloseTrace(t0: Turn, t1: Turn, obs: string)
    requires Acted(t0.step) && t0.step.result == Some(obs)
    requires !Acted(t1.step)
    ensures TraceOf([t0, t1]) == t0.completion + "\n\n" + "Observation: " + obs + "\n\n" + t1.completion + "\n\n"
  {
    TraceTwo(t0, t1);
    assert TurnText(t1) == t1.completion + "\n\n" + "";
  }

  /**
    Two turns: the first answer asks for a workout, the handler's result
    comes back as the second prompt, and a second answer without a directive
    ends the query with the trace of both answers and the observation.
   */
  lemma TwoTurnQuery(system: string, question: string, maxTurns: int, env: Env,
                     first: string, arg: string, workout: string, final: string)
    requires maxTurns >= 2
    requires WorkoutThenAnswer(system, question, env, first, arg, workout, final)
    ensures Query(system, question, maxTurns, env).outcome
            == Done(first + "\n\n" + "Observation: " + workout + "\n\n" + final + "\n\n")
    ensures |Query(system, question, maxTurns, env).calls| == 2
    ensures |Query(system, question, maxTurns, env).log| == 2
    ensures Query(system, question, maxTurns, env).log[1].prompt == "Observation: " + workout
  {
    var r := Query(system, question, maxTurns, env);
    TwoTurnLog(system, question, maxTurns, env, first, arg, workout, final);
    QueryNoDirectiveLast(system, question, maxTurns, env);
    assert r.log[1].prompt == "Observation: " + workout by {
      QueryFeedback(system, question, maxTurns, env);
    }
    assert r.log == [r.log[0], r.log[1]];
    ActThenCloseTrace(r.log[0], r.log[1], workout);
  }

  /** The directive the coach's first answer consists of: a workout for the given body area. */
  function LegDay(area: string): Directive {
    Directive(Name(GenerateWorkout), area)
  }

  /**
    A model that asks for a workout for `area` first and answers second, and a
    backend that always returns the same plan.
   */
  function Coach(area: string): Env {
    Env((k: nat, p: string) => Some(if k == 0 then Format(LegDay(area)) else "Answer: squats"),
        (k: nat, a: Action, arg: string) => Some("squats"))
  }

  /** How the two concrete answers are read. */
  lemma CoachAnswersParse(area: string)
    requires '\n' !in area
    ensures FirstDirective(Format(LegDay(area))) == Some(LegDay(area))
    ensures FirstDirective("Answer: squats").None?
  {
    var final := "Answer: squats";
    assert final[..|Prefix|] != Prefix by {
      assert final[1] == 'n';
    }
    SingleLine(final);
    EveryActionCallable(GenerateWorkout, area, HandlerAt(Coach(area), 0));
  }

  /** The two-turn run with concrete answers, whatever the question and the budget beyond two turns. */
  lemma CoachQuery(question: string, maxTurns: int, area: string)
    requires maxTurns >= 2
    requires '\n' !in area
    ensures Query("", question, maxTurns, Coach(area)).outcome
            == Done(Format(LegDay(area)) + "\n\n" + "Observation: " + "squats" + "\n\n" + "Answer: squats" + "\n\n")
    ensures |Query("", question, maxTurns, Coach(area)).calls| == 2
  {
    CoachAnswersParse(area);
    TwoTurnQuery("", question, maxTurns, Coach(area), Format(LegDay(area)), area, "squats", "Answer: squats");
  }
}
