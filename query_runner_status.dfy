/**
 * The `queryRunnerStatus` reducer: the status shown for the last query is
 * replaced by a status action, replaced by a consent error's response,
 * cleared by four actions and kept by every other one.
 */
module QueryRunnerStatus {
  import Types
  import Reducers

  /**
   * What the reducer holds or an action carries: `undefined`, `null`, the
   * empty object of the default state, or a status record.
   */
  datatype StatusValue = Undefined | Null | EmptyObject | Status(status: Types.QueryStatus)

  /**
   * The action types the reducer tells apart; `Other` is any other type,
   * including a missing one. (The values of the constants are taken to be
   * distinct from each other and from every `Other` tag.)
   */
  datatype ActionType =
    | QueryGraphStatus
    | GetConsentError
    | QueryGraphRunning
    | ClearQueryStatus
    | ViewHistoryItemSuccess
    | LogoutSuccess
    | Other(tag: string)

  /** A `Partial<AppAction>`: a missing `payload` or `response` is `Undefined`. */
  datatype Action = Action(kind: ActionType, payload: StatusValue, response: StatusValue)

  /** The four action types that clear the status. */
  predicate Clears(t: ActionType) {
    t == QueryGraphRunning || t == ClearQueryStatus || t == ViewHistoryItemSuccess || t == LogoutSuccess
  }

  /** `queryRunnerStatus`: an undefined state first becomes the default empty object. */
  function Reduce(state: StatusValue, action: Action): StatusValue {
    var s := if state == Undefined then EmptyObject else state;
    match action.kind
    case QueryGraphStatus => action.payload
    case GetConsentError => action.response
    case QueryGraphRunning => Null
    case ClearQueryStatus => Null
    case ViewHistoryItemSuccess => Null
    case LogoutSuccess => Null
    case Other(_) => s
  }

  /** The state after the actions in order. */
  function ReduceAll(state: StatusValue, actions: seq<Action>): StatusValue {
    Reducers.ReduceAll(Reduce, state, actions)
  }

  /** The store's first call (no state yet, an action the reducer ignores) yields the empty object. */
  lemma InitialStateIsEmptyObject(action: Action)
    requires action.kind.Other?
    ensures Reduce(Undefined, action) == EmptyObject
  {
  }

  /**
   * The outcome of each kind of action: a status action yields its payload
   * and a consent error its response, whatever the state was; the four
   * clearing actions yield null; any other action keeps a defined state.
   */
  lemma ReduceOutcome(state: StatusValue, action: Action)
    ensures action.kind == QueryGraphStatus ==> Reduce(state, action) == action.payload
    ensures action.kind == GetConsentError ==> Reduce(state, action) == action.response
    ensures Clears(action.kind) ==> Reduce(state, action) == Null
    ensures action.kind.Other? && state != Undefined ==> Reduce(state, action) == state
  {
  }

  /** Only a status action, a consent error or a clearing action changes a defined state. */
  lemma ChangesOnlyOnKnownTypes(state: StatusValue, action: Action)
    requires state != Undefined
    requires Reduce(state, action) != state
    ensures !action.kind.Other?
  {
  }

  /** The replacing actions ignore the state they replace. */
  lemma ReplacingIgnoresState(s1: StatusValue, s2: StatusValue, action: Action)
    requires !action.kind.Other?
    ensures Reduce(s1, action) == Reduce(s2, action)
  {
  }

  /** Every action, dispatched twice in a row, has the effect of dispatching it once. */
  lemma ReduceIdempotent(state: StatusValue, action: Action)
    ensures Reduce(Reduce(state, action), action) == Reduce(state, action)
  {
  }

  /** The reducer yields undefined only when a replacing action carried undefined. */
  lemma ReduceDefined(state: StatusValue, action: Action)
    requires action.kind == QueryGraphStatus ==> action.payload != Undefined
    requires action.kind == GetConsentError ==> action.response != Undefined
    ensures Reduce(state, action) != Undefined
  {
  }

  /**
   * The status a run of actions leaves, read from the last action back:
   * what the latest action of a known type set, or the starting state
   * (defaulted to the empty object) when every action was of another type.
   */
  function LatestStatus(state: StatusValue, actions: seq<Action>): StatusValue {
    if actions == [] then state
    else
      var last := actions[|actions| - 1];
      if last.kind.Other? then
        var before := LatestStatus(state, actions[..|actions| - 1]);
        if before == Undefined then EmptyObject else before
      else if last.kind == QueryGraphStatus then last.payload
      else if last.kind == GetConsentError then last.response
      else Null
  }

  /** The reducer keeps exactly the status `LatestStatus` describes: the last decisive action wins. */
  lemma {:induction false} ReduceAllLatest(state: StatusValue, actions: seq<Action>)
    ensures ReduceAll(state, actions) == LatestStatus(state, actions)
    decreases |actions|
  {
    if actions != [] {
      var init := actions[..|actions| - 1];
      var last := actions[|actions| - 1];
      assert actions == init + [last];
      Reducers.ReduceAllSnoc(Reduce, state, init, last);
      ReduceAllLatest(state, init);
    }
  }
}
