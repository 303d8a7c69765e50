/**
 * The `auth` slice: whether a token is held, whether signing out (or in)
 * is under way, and the scopes the user has consented to; the merge rule
 * for the scopes a consent returns; and the `signOut` sequence.
 */
module Auth {
  import opened Types
  import Reducers

  /** `authToken` of `AuthenticateResult`. */
  datatype AuthToken = AuthToken(pending: bool, token: bool)

  /** `AuthenticateResult`, the slice's state. */
  datatype AuthState = AuthState(authToken: AuthToken, consentedScopes: seq<string>)

  /** The four actions of the slice. */
  datatype AuthAction =
    | GetAuthTokenSuccess
    | SignOutSuccess
    | SetAuthenticationPending
    | GetConsentedScopesSuccess(payload: seq<string>)

  /** The explorer's mode (`graphExplorerMode`, which may be unset). */
  datatype Mode = Complete | TryIt

  /** Which logout of the authentication wrapper `signOut` calls. */
  datatype Logout = Redirect | PopUp

  function InitialState(): AuthState {
    AuthState(AuthToken(false, false), [])
  }

  /** No token, nothing pending, no scopes. */
  predicate SignedOut(s: AuthState) {
    !s.authToken.token && !s.authToken.pending && s.consentedScopes == []
  }

  /** The slice's reducer. */
  function Reduce(s: AuthState, a: AuthAction): AuthState {
    match a
    case GetAuthTokenSuccess => s.(authToken := AuthToken(false, true))
    case SignOutSuccess => AuthState(AuthToken(false, false), [])
    case SetAuthenticationPending => s.(authToken := AuthToken(true, true))
    case GetConsentedScopesSuccess(scopes) => s.(consentedScopes := scopes)
  }

  /** The state after dispatching `actions` in order. */
  function ReduceAll(s: AuthState, actions: seq<AuthAction>): AuthState {
    Reducers.ReduceAll(Reduce, s, actions)
  }

  /** The slice starts signed out. */
  lemma InitialStateSignedOut()
    ensures SignedOut(InitialState())
    ensures forall s :: SignedOut(s) <==> s == InitialState()
  {
  }

  /**
   * What each action changes and keeps: a token success or a pending sign
   * out leave the scopes alone, storing scopes leaves the token alone, and
   * a sign out success resets everything.
   */
  lemma ReduceEffects(s: AuthState, a: AuthAction)
    ensures a == GetAuthTokenSuccess ==>
      Reduce(s, a).authToken.token && !Reduce(s, a).authToken.pending && Reduce(s, a).consentedScopes == s.consentedScopes
    ensures a == SetAuthenticationPending ==>
      Reduce(s, a).authToken.token && Reduce(s, a).authToken.pending && Reduce(s, a).consentedScopes == s.consentedScopes
    ensures a == SignOutSuccess ==> SignedOut(Reduce(s, a))
    ensures a.GetConsentedScopesSuccess? ==>
      Reduce(s, a).authToken == s.authToken && Reduce(s, a).consentedScopes == a.payload
  {
  }

  /** Something is pending only while a token is held. */
  predicate PendingHasToken(s: AuthState) {
    s.authToken.pending ==> s.authToken.token
  }

  lemma ReducePreservesPendingHasToken(s: AuthState, a: AuthAction)
    requires PendingHasToken(s)
    ensures PendingHasToken(Reduce(s, a))
  {
  }

  /** From the initial state, no sequence of actions leaves `pending` set without `token`. */
  lemma {:induction false} ReduceAllPendingHasToken(s: AuthState, actions: seq<AuthAction>)
    requires PendingHasToken(s)
    ensures PendingHasToken(ReduceAll(s, actions))
    decreases |actions|
  {
    if actions != [] {
      ReducePreservesPendingHasToken(s, actions[0]);
      ReduceAllPendingHasToken(Reduce(s, actions[0]), actions[1..]);
    }
  }

  /** Every action, dispatched twice in a row, has the effect of dispatching it once. */
  lemma ReduceIdempotent(s: AuthState, a: AuthAction)
    ensures Reduce(Reduce(s, a), a) == Reduce(s, a)
  {
  }

  /** A sign out success erases whatever the action before it did. */
  lemma SignOutSuccessAbsorbs(s: AuthState, a: AuthAction)
    ensures Reduce(Reduce(s, a), SignOutSuccess) == InitialState()
  {
  }

  /** Storing scopes and the token actions act on disjoint fields, so their order does not matter. */
  lemma ScopesCommuteWithToken(s: AuthState, scopes: seq<string>, a: AuthAction)
    requires a == GetAuthTokenSuccess || a == SetAuthenticationPending
    ensures Reduce(Reduce(s, a), GetConsentedScopesSuccess(scopes)) == Reduce(Reduce(s, GetConsentedScopesSuccess(scopes)), a)
  {
  }

  /** Whatever came before, a sequence that ends with a sign out success leaves the slice signed out. */
  lemma SignOutSuccessLast(s: AuthState, actions: seq<AuthAction>)
    ensures SignedOut(ReduceAll(s, actions + [SignOutSuccess]))
  {
    Reducers.ReduceAllSnoc(Reduce, s, actions, SignOutSuccess);
  }

  /** The logout `signOut` calls: a redirect in complete mode, a pop-up otherwise (including an unset mode). */
  function LogoutFor(mode: Option<Mode>): Logout {
    if mode == Some(Complete) then Redirect else PopUp
  }

  /** `signOut` ends signed out from any state and in either mode. */
  lemma SignOutSignsOut(s: AuthState)
    ensures SignedOut(ReduceAll(s, [SetAuthenticationPending, SignOutSuccess]))
    ensures ReduceAll(s, [SetAuthenticationPending, SignOutSuccess]) == InitialState()
  {
    Reducers.ReduceAllPair(Reduce, s, SetAuthenticationPending, SignOutSuccess);
  }

  /** `signOut` redirects exactly in complete mode. */
  lemma LogoutForMode(mode: Option<Mode>)
    ensures LogoutFor(mode) == Redirect <==> mode == Some(Complete)
  {
  }

  /**
   * `validateConsentedScopes`: when an argument is missing the consent
   * response is returned as is; otherwise the response is kept if it has
   * as many scopes as the already consented ones and the requested ones
   * together, and that concatenation is returned if not.
   */
  function ValidateConsentedScopes(
    scopeToBeConsented: Option<seq<string>>,
    consentedScopes: Option<seq<string>>,
    consentedResponse: Option<seq<string>>): Option<seq<string>>
  {
    if consentedScopes.None? || consentedResponse.None? || scopeToBeConsented.None? then consentedResponse
    else
      var expectedScopes := consentedScopes.value + scopeToBeConsented.value;
      if |expectedScopes| == |consentedResponse.value| then consentedResponse
      else Some(expectedScopes)
  }

  /** A missing argument hands the response through. */
  lemma ValidateMissingArgument(
    scopeToBeConsented: Option<seq<string>>,
    consentedScopes: Option<seq<string>>,
    consentedResponse: Option<seq<string>>)
    requires scopeToBeConsented.None? || consentedScopes.None? || consentedResponse.None?
    ensures ValidateConsentedScopes(scopeToBeConsented, consentedScopes, consentedResponse) == consentedResponse
  {
  }

  /**
   * With every argument present the result always holds as many scopes as
   * the consented and the requested ones together, and it is either the
   * response itself or exactly those scopes (the consented ones first).
   */
  lemma ValidateAllPresent(scopeToBeConsented: seq<string>, consentedScopes: seq<string>, consentedResponse: seq<string>)
    ensures var r := ValidateConsentedScopes(Some(scopeToBeConsented), Some(consentedScopes), Some(consentedResponse));
      && r.Some?
      && |r.value| == |consentedScopes| + |scopeToBeConsented|
      && (r.value == consentedResponse || r.value == consentedScopes + scopeToBeConsented)
      && (|consentedResponse| != |consentedScopes| + |scopeToBeConsented| ==>
            multiset(r.value) == multiset(consentedScopes) + multiset(scopeToBeConsented))
  {
  }

  /**
   * The response is returned exactly when an argument is missing or its
   * length is the expected one; only lengths are compared, never contents.
   */
  lemma ValidateKeepsResponseIff(scopeToBeConsented: seq<string>, consentedScopes: seq<string>, consentedResponse: seq<string>)
    ensures ValidateConsentedScopes(Some(scopeToBeConsented), Some(consentedScopes), Some(consentedResponse)) == Some(consentedResponse)
        <==> |consentedResponse| == |consentedScopes| + |scopeToBeConsented|
  {
  }

  /**
   * The state a successful consent leaves: the token success, then the
   * scopes validated against `snapshot`, the consented scopes the thunk read
   * from the store before it awaited the consent; `s` is the state when the
   * consent returns, which actions dispatched during the wait may have
   * changed (the thunk's calls to the authentication library and its other
   * dispatches are not part of this model).
   */
  function ConsentSucceeded(s: AuthState, snapshot: seq<string>, scopes: seq<string>, responseScopes: seq<string>): AuthState {
    var validated := ValidateConsentedScopes(Some(scopes), Some(snapshot), Some(responseScopes));
    ReduceAll(s, [GetAuthTokenSuccess, GetConsentedScopesSuccess(validated.value)])
  }

  /**
   * After a consent the token is held, nothing is pending and the scopes are
   * the validated ones: the response when its length is that of the snapshot
   * and the requested scopes together, the snapshot followed by the requested
   * scopes otherwise. Nothing of `s` but its type survives.
   */
  lemma ConsentSucceededState(s: AuthState, snapshot: seq<string>, scopes: seq<string>, responseScopes: seq<string>)
    ensures var t := ConsentSucceeded(s, snapshot, scopes, responseScopes);
      && t.authToken == AuthToken(false, true)
      && |t.consentedScopes| == |snapshot| + |scopes|
      && (|responseScopes| == |snapshot| + |scopes| ==> t.consentedScopes == responseScopes)
      && (|responseScopes| != |snapshot| + |scopes| ==> t.consentedScopes == snapshot + scopes)
  {
    var validated := ValidateConsentedScopes(Some(scopes), Some(snapshot), Some(responseScopes));
    Reducers.ReduceAllPair(Reduce, s, GetAuthTokenSuccess, GetConsentedScopesSuccess(validated.value));
  }

  /**
   * A sign out that completes while the consent is awaited does not keep the
   * scopes cleared: when the response's length is off, the scopes read
   * before the wait come back, followed by the requested ones.
   */
  lemma ConsentAfterSignOutRestoresScopes(before: AuthState, scopes: seq<string>, responseScopes: seq<string>)
    requires |responseScopes| != |before.consentedScopes| + |scopes|
    ensures var t := ConsentSucceeded(Reduce(before, SignOutSuccess), before.consentedScopes, scopes, responseScopes);
      && t.consentedScopes == before.consentedScopes + scopes
      && t.authToken.token
  {
    var s := Reduce(before, SignOutSuccess);
    var validated := ValidateConsentedScopes(Some(scopes), Some(before.consentedScopes), Some(responseScopes));
    Reducers.ReduceAllPair(Reduce, s, GetAuthTokenSuccess, GetConsentedScopesSuccess(validated.value));
  }

  /** The slice's state in the store, updated in place by the reducers. */
  class AuthSlice {
    var pending: bool
    var token: bool
    var consentedScopes: seq<string>

    function Value(): AuthState
      reads this
    {
      AuthState(AuthToken(pending, token), consentedScopes)
    }

    constructor ()
      ensures Value() == InitialState()
    {
      pending, token, consentedScopes := false, false, [];
    }

    method GetAuthTokenSuccess()
      modifies this
      ensures Value() == Reduce(old(Value()), AuthAction.GetAuthTokenSuccess)
    {
      token := true;
      pending := false;
    }

    method SignOutSuccess()
      modifies this
      ensures Value() == Reduce(old(Value()), AuthAction.SignOutSuccess)
    {
      token := false;
      pending := false;
      consentedScopes := [];
    }

    method SetAuthenticationPending()
      modifies this
      ensures Value() == Reduce(old(Value()), AuthAction.SetAuthenticationPending)
    {
      token := true;
      pending := true;
    }

    method GetConsentedScopesSuccess(payload: seq<string>)
      modifies this
      ensures Value() == Reduce(old(Value()), AuthAction.GetConsentedScopesSuccess(payload))
    {
      consentedScopes := payload;
    }

    /** `signOut`: mark pending, log out by the mode's route, then record the sign out. */
    method SignOut(mode: Option<Mode>) returns (logout: Logout)
      modifies this
      ensures logout == LogoutFor(mode)
      ensures Value() == ReduceAll(old(Value()), [AuthAction.SetAuthenticationPending, AuthAction.SignOutSuccess])
      ensures SignedOut(Value())
    {
      SetAuthenticationPending();
      if mode == Some(Complete) {
        logout := Redirect;
      } else {
        logout := PopUp;
      }
      SignOutSuccess();
      SignOutSignsOut(old(Value()));
    }

    /** `signIn`: a token success. */
    method SignIn()
      modifies this
      ensures Value() == Reduce(old(Value()), AuthAction.GetAuthTokenSuccess)
    {
      GetAuthTokenSuccess();
    }

    /** `storeScopes`: the given scopes become the consented ones. */
    method StoreScopes(scopes: seq<string>)
      modifies this
      ensures Value() == Reduce(old(Value()), AuthAction.GetConsentedScopesSuccess(scopes))
    {
      GetConsentedScopesSuccess(scopes);
    }
  }
}
