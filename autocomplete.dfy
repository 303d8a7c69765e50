/**
 * The `autoComplete` slice: a fetch of suggestions that is idle, loading,
 * succeeded or failed, with the data of the last success and the error of
 * the last failure; and the arguments its fetch thunk hands to the
 * suggestion service. `D` is the parsed OpenAPI response, `E` the error
 * value and `R` a version's resources.
 */
module Autocomplete {
  import opened Types
  import Reducers

  datatype Status = Idle | Loading | Succeeded | Failed

  /** `AutocompleteResponse`: `None` stands for `null`. */
  datatype AutocompleteState<D, E> = AutocompleteState(status: Status, data: Option<D>, error: Option<E>)

  /** The three lifecycle actions of `fetchAutoCompleteOptions`; a missing payload is `None`. */
  datatype FetchAction<D, E> = Pending | Fulfilled(result: Option<D>) | Rejected(payload: Option<E>)

  function InitialState<D, E>(): AutocompleteState<D, E> {
    AutocompleteState(Idle, None, None)
  }

  /** The slice's extra reducers. */
  function Reduce<D, E>(s: AutocompleteState<D, E>, a: FetchAction<D, E>): AutocompleteState<D, E> {
    match a
    case Pending => AutocompleteState(Loading, None, None)
    case Fulfilled(result) => AutocompleteState(Succeeded, result, None)
    case Rejected(payload) => AutocompleteState(Failed, None, if payload.Some? then payload else s.error)
  }

  /** The state after the actions in order. */
  function ReduceAll<D, E>(s: AutocompleteState<D, E>, actions: seq<FetchAction<D, E>>): AutocompleteState<D, E> {
    Reducers.ReduceAll(Reduce, s, actions)
  }

  /** The status an action leads to. */
  function StatusAfter<D, E>(a: FetchAction<D, E>): Status {
    match a
    case Pending => Loading
    case Fulfilled(_) => Succeeded
    case Rejected(_) => Failed
  }

  /**
   * What each action does: the status is fixed by the action alone; data is
   * the fulfilled result and is cleared otherwise; the error is cleared by
   * `pending` and `fulfilled`, and `rejected` overwrites it only with a payload.
   */
  lemma ReduceEffects<D, E>(s: AutocompleteState<D, E>, a: FetchAction<D, E>)
    ensures Reduce(s, a).status == StatusAfter(a)
    ensures Reduce(s, a).data == if a.Fulfilled? then a.result else None
    ensures a.Pending? || a.Fulfilled? ==> Reduce(s, a).error == None
    ensures a.Rejected? && a.payload.Some? ==> Reduce(s, a).error == a.payload
    ensures a.Rejected? && a.payload.None? ==> Reduce(s, a).error == s.error
  {
  }

  /** Data is held only after a success and an error only after a failure. */
  predicate Coherent<D, E>(s: AutocompleteState<D, E>) {
    && (s.status == Loading || s.status == Failed || s.status == Idle ==> s.data.None?)
    && (s.error.Some? ==> s.status == Failed)
  }

  lemma InitialStateCoherent<D, E>()
    ensures Coherent(InitialState<D, E>())
    ensures InitialState<D, E>().status == Idle
  {
  }

  lemma ReducePreservesCoherent<D, E>(s: AutocompleteState<D, E>, a: FetchAction<D, E>)
    requires Coherent(s)
    ensures Coherent(Reduce(s, a))
  {
  }

  /** No sequence of actions from a coherent state (the initial one) shows data while loading or failed. */
  lemma {:induction false} ReduceAllCoherent<D, E>(s: AutocompleteState<D, E>, actions: seq<FetchAction<D, E>>)
    requires Coherent(s)
    ensures Coherent(ReduceAll(s, actions))
    decreases |actions|
  {
    if actions != [] {
      ReducePreservesCoherent(s, actions[0]);
      ReduceAllCoherent(Reduce(s, actions[0]), actions[1..]);
    }
  }

  /**
   * The error a run of actions leaves, read from the last action back: the
   * payload of the latest rejection that had one, unless a `pending` or a
   * `fulfilled` came after it; the starting error if neither happened.
   */
  function LatestError<D, E>(start: Option<E>, actions: seq<FetchAction<D, E>>): Option<E> {
    if actions == [] then start
    else
      var last := actions[|actions| - 1];
      match last
      case Pending => None
      case Fulfilled(_) => None
      case Rejected(payload) => if payload.Some? then payload else LatestError(start, actions[..|actions| - 1])
  }

  /** The reducer keeps exactly the error `LatestError` describes. */
  lemma {:induction false} ReduceAllError<D, E>(s: AutocompleteState<D, E>, actions: seq<FetchAction<D, E>>)
    ensures ReduceAll(s, actions).error == LatestError(s.error, actions)
    decreases |actions|
  {
    if actions != [] {
      var init := actions[..|actions| - 1];
      var last := actions[|actions| - 1];
      assert actions == init + [last];
      Reducers.ReduceAllSnoc(Reduce, s, init, last);
      ReduceAllError(s, init);
    }
  }

  /** After a non-empty run, the data is the result of its last action if that was a success, and null otherwise. */
  lemma ReduceAllData<D, E>(s: AutocompleteState<D, E>, actions: seq<FetchAction<D, E>>)
    requires actions != []
    ensures var last := actions[|actions| - 1];
      ReduceAll(s, actions).data == if last.Fulfilled? then last.result else None
  {
    var init := actions[..|actions| - 1];
    assert actions == init + [actions[|actions| - 1]];
    Reducers.ReduceAllSnoc(Reduce, s, init, actions[|actions| - 1]);
  }

  /** The context the thunk uses: `'paths'` when the caller gives none. */
  function ContextOrDefault(context: Option<string>): string {
    if context.Some? then context.value else "paths"
  }

  /**
   * The resources handed to the suggestion service: the entry for `version`
   * when the resource map has at least one key, and undefined otherwise
   * (also when the map has no entry for `version`).
   */
  function SelectResources<R>(resourcesData: map<string, R>, version: string): Option<R> {
    if |resourcesData.Keys| > 0 then
      if version in resourcesData then Some(resourcesData[version]) else None
    else None
  }

  /** The emptiness test never changes the outcome: the resources are given exactly when the version has an entry. */
  lemma SelectResourcesIff<R>(resourcesData: map<string, R>, version: string)
    ensures SelectResources(resourcesData, version).Some? <==> version in resourcesData
    ensures version in resourcesData ==> SelectResources(resourcesData, version) == Some(resourcesData[version])
  {
    if version in resourcesData {
      assert version in resourcesData.Keys;
    }
  }

  lemma ContextDefault(context: Option<string>)
    ensures context.None? ==> ContextOrDefault(context) == "paths"
    ensures context.Some? ==> ContextOrDefault(context) == context.value
  {
  }

  /** What `getSuggestions` receives. */
  datatype SuggestionRequest<R> = SuggestionRequest(url: string, devxApiUrl: string, version: string,
                                                    context: string, resources: Option<R>)

  /** The thunk's call to the suggestion service, from its argument and the store's state. */
  function SuggestionRequestFor<R>(url: string, version: string, context: Option<string>,
                                   devxApiUrl: string, resourcesData: map<string, R>): SuggestionRequest<R>
  {
    SuggestionRequest(url, devxApiUrl, version, ContextOrDefault(context), SelectResources(resourcesData, version))
  }

  /** The request carries the caller's url and version, the default context and the version's resources if any. */
  lemma SuggestionRequestFields<R>(url: string, version: string, context: Option<string>,
                                   devxApiUrl: string, resourcesData: map<string, R>)
    ensures var q := SuggestionRequestFor(url, version, context, devxApiUrl, resourcesData);
      && q.url == url && q.version == version && q.devxApiUrl == devxApiUrl
      && q.context == (if context.None? then "paths" else context.value)
      && (q.resources.Some? <==> version in resourcesData)
      && (version in resourcesData ==> q.resources.value == resourcesData[version])
  {
    SelectResourcesIff(resourcesData, version);
  }

  /** The slice's state in the store, updated in place by the reducers. */
  class AutocompleteSlice<D, E> {
    var status: Status
    var data: Option<D>
    var error: Option<E>

    function Value(): AutocompleteState<D, E>
      reads this
    {
      AutocompleteState(status, data, error)
    }

    constructor ()
      ensures Value() == InitialState()
    {
      status, data, error := Idle, None, None;
    }

    method Pending()
      modifies this
      ensures Value() == Reduce(old(Value()), FetchAction.Pending)
    {
      status := Loading;
      data := None;
      error := None;
    }

    method Fulfilled(result: Option<D>)
      modifies this
      ensures Value() == Reduce(old(Value()), FetchAction.Fulfilled(result))
    {
      status := Succeeded;
      data := result;
      error := None;
    }

    method Rejected(payload: Option<E>)
      modifies this
      ensures Value() == Reduce(old(Value()), FetchAction.Rejected(payload))
    {
      status := Failed;
      data := None;
      if payload.Some? {
        error := payload;
      }
    }
  }
}
