# Fitness assistant: the ReAct query loop

This project models the reasoning-and-acting core of the fitness assistant in `app.py`:

- **The directive pattern.** `Action: <name>: <argument>` is anchored at both ends. The name is a run of word characters, and `$` may also match just before a final line break.
- **Scanning a completion.** The model's completion is split on `'\n'`, and only the first matching line is acted on.
- **The action registry.** It has three actions: `generate_workout`, `suggest_meal` and `motivational_quote`.
- **The chatbot.** It keeps a transcript of system, user and assistant messages. It renders that transcript as `role: content` lines joined by `'\n'` and sends the rendering to the model.
- **The `query` loop.** It asks the model and appends the completion to the trace. Then it does one of four things:
  - stops when there is no directive;
  - fails on an unknown action;
  - otherwise calls the handler and feeds `Observation: <result>` back as the next prompt;
  - stops when the turn budget `max_turns` runs out. Its default is 5.

These things are parameters of the model:

- **The model backend.** It is a function from the call number and the prompt to `Some(completion)`, or to `None` when the call raises.
- **The handlers' backend.** It is a function from the turn number, the action and the argument to `Some(text)`, or to `None` when the call raises. Every dispatch is a fresh request, so the same action and argument may give different results on different turns.
- **The system prompt.**

A query ends in one of three ways:

- `Done(trace)`: the string `query` returns.
- `UnknownAction(name, arg)`: the exception raised at line 73.
- `BackendFailure(at)`: an exception from a model call or a handler call.

Alongside the outcome, the run records:

- every prompt sent to the model;
- every completed turn, as its prompt, its completion and what was done with it;
- the final transcript.

Modules:

| module | contents |
|---|---|
| `Wrappers` | `Option` |
| `Text` | Python's `str.split` and `str.join` on one separator character |
| `ActionParser` | the directive pattern and the scan over completion lines |
| `Registry` | the action table and handler invocation, including the handlers' declared arities |
| `Chat` | the `Chatbot` class |
| `Agent` | the loop itself, together with the predicates describing a finished run |
| `AgentProperties` | the loop invariant and its proof |
| `QueryProperties` | what callers of `query` can rely on |
| `Scenarios` | concrete parses and two-turn runs |

`motivational_quote` is defined without a parameter (app.py:27), but the loop always calls the handler with one argument (app.py:74). In Python that call raises before the handler body runs. The model follows the code: dispatching `motivational_quote` always ends the query with a handler failure (`Registry.QuoteAlwaysFails`, `QueryProperties.QuoteEndsQuery`).

The system prompt's list of actions gives `motivational_quote` no argument (app.py:92: `e.g. motivational_quote:`). Written as a directive in the style of the example at app.py:97, it becomes `Action: motivational_quote:`. That line has no space after the second colon, so it does not match the pattern, and a model that follows the example literally gets no action at all (`Scenarios.BareColonIsNoDirective`).

## Model

| member | source | states |
|---|---|---|
| Text.Split | app.py:68 | `str.split` on one character always yields at least one part, no part contains the separator, joining the parts gives back the input, and an input without the separator is its own single part |
| Text.JoinFront | app.py:53 | joining nothing gives the empty text; a join opens with the first part, and with more parts the separator follows it |
| Text.SplitJoin | app.py:53 | splitting a join of separator-free parts recovers exactly those parts; a rendered transcript can therefore be read back line by line only when no message contains a line break, which the system prompt (app.py:82-100) does |
| Text.SplitLast | app.py:53 | text followed by a separator and a separator-free tail splits into at least two parts, the last of which is that tail, whatever the text before contains |
| ActionParser.WordRun | app.py:16 | the maximal run of word characters from a position: every character in it is a word character, and the character after it, if any, is not |
| ActionParser.MatchLine | app.py:16 | a successful match yields a well-formed directive (non-empty word name, argument without line break) whose formatted line is the input, possibly followed by one final line break |
| ActionParser.MatchFormat | app.py:16 | the pattern matches every well-formed directive line, alone or followed by one line break, and returns that directive |
| ActionParser.MatchLineIff | app.py:16 | a line matches exactly when it is a well-formed directive line with at most one trailing line break |
| ActionParser.MatchSplitLine | app.py:16 | a line produced by the split matches exactly when it is a well-formed directive line |
| ActionParser.MatchAll | app.py:68 | the list comprehension yields at most one match per line, and nothing exactly when no line matches |
| ActionParser.MatchAllHead | app.py:68-71 | the first element of the comprehension is the match of a line before which no line matches |
| ActionParser.MatchAllFrom | app.py:68 | every element of the comprehension is the match of some line |
| ActionParser.MatchAllAppend | app.py:68 | scanning the concatenation of two line lists is the concatenation of the scans |
| ActionParser.DirectivesSpec | app.py:68 | the directives of a completion are well formed and each is, in wire format, one of its lines; there are at most as many as lines, and none exactly when no line matches |
| ActionParser.FirstDirectiveSpec | app.py:68-71 | the directive acted on is the match of the first matching line, and no earlier line matches; there is none exactly when no line matches |
| ActionParser.FirstLineWins | app.py:68-71 | a completion whose first line is a directive acts on it, whatever follows |
| ActionParser.NonDirectiveLineSkipped | app.py:68-71 | a leading line that does not match does not change which directive is acted on |
| ActionParser.ThoughtThenDirective | app.py:68-71 | a thought line followed by a directive line and anything after acts on that directive |
| ActionParser.DirectiveLineRoundTrip | app.py:68-71 | formatting a well-formed directive and scanning the result gives back that directive |
| Registry.Lookup | app.py:32-36 | lookup succeeds exactly for the three registered names and returns the action with that name |
| Registry.LookupName | app.py:32-36 | each action's name is registered and looks up to that action: names and actions correspond one to one |
| Registry.Invoke | app.py:74 | the handler is called with one argument, so `motivational_quote`, which declares no parameter (line 27), fails; the others return what their backend call returns |
| Registry.QuoteAlwaysFails | app.py:27-29 | invoking `motivational_quote` fails for every argument and every backend |
| Chat.New | app.py:40-44 | a new chatbot keeps the system text and holds one system message exactly when that text is non-empty, with no turns yet |
| Chat.Call | app.py:46-50 | a call appends the user message, sends the rendering of the transcript including it, and appends the answer only when the backend answered |
| Chat.CallKeepsValid | app.py:46-50 | an answered call keeps the transcript alternating user/assistant after the header and adds exactly one turn |
| Chat.AppendPairKeepsValid | app.py:47-49 | appending a user message and an assistant message keeps the transcript's role pattern |
| Chat.Line | app.py:53 | a message's line ends with its content after a non-empty role tag, and contains a line break exactly when the content does |
| Chat.Lines | app.py:53 | one rendered `role: content` line per message, in order |
| Chat.Render | app.py:53 | the prompt is empty exactly when the transcript is |
| Chat.RenderFront | app.py:53 | the prompt opens with the first message's line, and a single message renders as just its line |
| Chat.RenderSnoc | app.py:53 | rendering one more message appends a line break and its line |
| Chat.RenderLines | app.py:53 | when no content contains a line break, splitting the rendered prompt on line breaks recovers each message's line |
| Chat.RenderLastLine | app.py:53 | the last line of the prompt is the last message's line whenever that message has no line break, whatever the earlier messages contain |
| Chat.CallPromptExtends | app.py:53 | the prompt of a call is the previous rendering, a line break, and the new user line |
| Agent.Exchanges | app.py:47-49 | each completed turn contributes its user message followed by the model's answer |
| Agent.Step | app.py:64-78 | each iteration counts one turn and makes exactly one more model call, keeping earlier calls |
| Agent.Act | app.py:69-78 | the loop continues exactly when a registered handler was invoked and returned; turns, calls and transcript are untouched by acting |
| Agent.Loop | app.py:64-79 | the loop never makes more model calls than the turns left, and keeps the calls already made |
| Agent.Query | app.py:59-64 | a query makes at most `max_turns` model calls; without a positive budget it makes none, returns the empty string and leaves the transcript as created |
| Agent.QueryDefault | app.py:59 | with the default budget a query makes at most five model calls |
| AgentProperties.InitInv | app.py:60-63 | the state before the first iteration satisfies the loop invariant: header-only transcript, the question as next prompt, empty trace, nothing sent |
| AgentProperties.TurnTextFeed | app.py:67-76 | a turn writes its completion and a blank line to the trace, then, when it acted, exactly the observation it feeds back as the next prompt and a blank line |
| AgentProperties.TraceOfAppend | app.py:63-75 | the trace of consecutive runs of turns is the concatenation of their traces |
| AgentProperties.TraceOfFront | app.py:63-75 | the trace is the first turn's text followed by the trace of the remaining turns |
| AgentProperties.StepModelFails | app.py:46-48 | a model call that raises ends the query with the user message left in the transcript and no new turn |
| AgentProperties.StepSound | app.py:65-78 | one iteration either keeps the loop invariant (transcript shape, prompts, fed-back observations, trace) or ends with a run whose outcome matches how the turn ended |
| AgentProperties.LoopSound | app.py:59-79 | from any state satisfying the invariant, the loop ends with a sound run |
| AgentProperties.QuerySound | app.py:59-79 | every query ends with a run that is sound: transcript, prompts, answers, budget and outcome agree |
| QueryProperties.DispatchSpec | app.py:68-74 | no action exactly when no line matches; an unknown action exactly when the first match names an unregistered action; otherwise the named action is invoked with the matched argument |
| QueryProperties.NameIsWord | app.py:32-36 | every registered name is a word, so a directive can name it |
| QueryProperties.EveryActionCallable | app.py:68-74 | a completion consisting of an action's directive line dispatches that action with that argument |
| QueryProperties.ExchangeRoles | app.py:47-49 | the completed turns' messages alternate user and assistant, user first |
| QueryProperties.ExchangesValid | app.py:40-49 | a header followed by one user/assistant pair per turn is a valid chatbot transcript with that many turns |
| QueryProperties.ShapedValid | app.py:46-49 | between calls the loop's transcript is a valid chatbot transcript with one turn per completed turn |
| QueryProperties.QueryValid | app.py:59-79 | a query whose model calls all answered leaves a valid chatbot transcript with one turn per completed turn |
| QueryProperties.QueryTranscript | app.py:40-50 | the final transcript is the optional system message, one user/assistant pair per completed turn, and the pending user message of a call that raised |
| QueryProperties.QueryPrompts | app.py:52-55 | the k-th model call receives the rendering of the transcript up to and including its own user message |
| QueryProperties.QueryFeedback | app.py:61-76 | the first prompt is the question, every later prompt is the previous turn's observation, and every turn before the last model call acted |
| QueryProperties.QueryAnswers | app.py:66-74 | each turn records the model's answer to that turn's prompt and the dispatch of its first directive |
| QueryProperties.QueryOutcome | app.py:64-79 | the outcome is a model failure, an unknown action or a handler failure exactly when the last turn ended that way; a returned trace is the concatenation of all completions and observations |
| QueryProperties.QueryActedLast | app.py:64-76 | after an acting turn the loop ends only by exhausting the budget or by a failing model call |
| QueryProperties.QueryNoDirectiveLast | app.py:77-78 | a turn without a directive is the last turn and the query returns its trace |
| QueryProperties.QueryTurnLimit | app.py:64 | when every answer leads to an observation, the query uses its full budget and returns the trace |
| QueryProperties.FirstPrompt | app.py:53 | the last line of the first prompt is `user: <question>` whenever the question has no line break, whatever the system text |
| QueryProperties.FirstCallPrompt | app.py:59-66 | the first model call receives the rendered header and question |
| QueryProperties.StopsWithoutDirective | app.py:66-78 | a first answer without a directive ends the query after one call, returning that answer and a blank line |
| QueryProperties.QuoteEndsQuery | app.py:71-74 | a first answer asking for `motivational_quote` ends the query with a handler failure after one call |
| QueryProperties.FirstAnswer | app.py:60-68 | the first turn is the question, the first answer and its dispatch; a first answer that does not act is the only turn |
| Scenarios.ProseIsNoDirective | app.py:16 | a directive inside a sentence is not acted on: the pattern is anchored at the line start |
| Scenarios.BareColonIsNoDirective | app.py:16 | `Action: motivational_quote:` without the trailing space does not match |
| Scenarios.CarriageReturnKept | app.py:16 | a carriage return at the end of a line stays in the argument |
| Scenarios.TwoTurnQuery | app.py:59-79 | a workout request followed by a plain answer returns both completions with the observation between them, after two calls |
| Scenarios.CoachAnswersParse | app.py:68-71 | the two concrete answers are read as a workout directive and as no directive |
| Scenarios.CoachQuery | app.py:59-79 | the concrete two-turn run returns its exact trace after two model calls |

## Left out

- The Streamlit page (app.py:102-145) and the loading of the API key (app.py:7-13): these are user interface and configuration, not logic.
- The handler bodies and their prompt templates (app.py:19-29) are not modelled. They are a backend parameter that maps the turn, an action and an argument to a text or a failure.
- The Gemini request in `execute` (app.py:54-56) is not modelled. It is a backend parameter that maps the call number and the prompt to a completion or a failure, so replies may differ from call to call.
- The system prompt text (app.py:82-100) is not modelled. It is a parameter of `query`.
- `\w` is modelled as the ASCII word characters (letters, digits, underscore). Python's Unicode word characters are not modelled.
- Exception types and messages are not kept: only which step raised is kept. The unknown-action exception is kept as the name and argument it reports.
- A response whose `.text` access raises is a failure of the same backend call.
- Concurrency, timeouts and retries are not modelled: the source does not have them.
