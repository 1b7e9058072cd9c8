/**
  The `known_actions` table of app.py: a closed set of three actions, looked up
  by exact, case-sensitive name, and the way a dispatched handler is invoked.
 */
module Registry {
  import opened Wrappers

  datatype Action = GenerateWorkout | SuggestMeal | MotivationalQuote

  /** The registry key of each action. */
  function Name(a: Action): string {
    match a
    case GenerateWorkout => "generate_workout"
    case SuggestMeal => "suggest_meal"
    case MotivationalQuote => "motivational_quote"
  }

  const KnownNames: set<string> := {"generate_workout", "suggest_meal", "motivational_quote"}

  /** `name in known_actions` and `known_actions[name]`. */
  function Lookup(name: string): (r: Option<Action>)
    ensures r.Some? <==> name in KnownNames
    ensures r.Some? ==> Name(r.value) == name
  {
    if name == "generate_workout" then Some(GenerateWorkout)
    else if name == "suggest_meal" then Some(SuggestMeal)
    else if name == "motivational_quote" then Some(MotivationalQuote)
    else None
  }

  /** Looking up an action's own key finds that action: keys and actions correspond one to one. */
  lemma LookupName(a: Action)
    ensures Lookup(Name(a)) == Some(a)
    ensures Name(a) in KnownNames
  {
    match a
    case GenerateWorkout =>
    case SuggestMeal =>
    case MotivationalQuote =>
  }

  /** Number of parameters each handler function declares. */
  function Arity(a: Action): nat {
    match a
    case GenerateWorkout => 1
    case SuggestMeal => 1
    case MotivationalQuote => 0
  }

  /**
    The backend call made by a handler's body in one dispatch: the generated
    text, or `None` when the call raises. It stands for the text-generation
    request the handlers send.
   */
  type HandlerBody = (Action, string) -> Option<string>

  /**
    `known_actions[action](action_input)`: the handler is always called with one
    argument, so a handler that declares no parameter raises before its body
    runs; otherwise the result is whatever its backend call produced.
   */
  function Invoke(body: HandlerBody, a: Action, arg: string): (r: Option<string>)
    ensures Arity(a) != 1 ==> r.None?
    ensures r.Some? ==> r == body(a, arg)
    ensures a != MotivationalQuote ==> r == body(a, arg)
  {
    if Arity(a) != 1 then None else body(a, arg)
  }

  /** Dispatching `motivational_quote` always fails, whatever the backend would answer. */
  lemma QuoteAlwaysFails(body: HandlerBody, arg: string)
    ensures Invoke(body, MotivationalQuote, arg).None?
  {
  }
}
