/**
 * The client's authentication state and the reducer that every dispatched
 * action goes through. The token read from local storage at start-up is
 * an input.
 */
module AuthContext {
  import opened Wrappers
  import opened Js

  /** `user`, `token` and `error` hold whatever value they were given; `null` is `Null`. */
  datatype AuthState = AuthState(user: Value, token: Value, isAuthenticated: bool, isLoading: bool, error: Value)

  /** The nine action types, with the payload each one reads, and any other type. */
  datatype Action =
    | LoginStart
    | LoginSuccess(user: Value, token: Value)
    | LoginFailure(failure: Value)
    | RegisterStart
    | RegisterSuccess(user: Value, token: Value)
    | RegisterFailure(failure: Value)
    | Logout
    | ClearError
    | UpdateProfile(profile: Value)
    | Unknown(actionType: string)

  predicate IsSuccess(a: Action) {
    a.LoginSuccess? || a.RegisterSuccess?
  }

  /** The actions that drop the session: the two failures and logging out. */
  predicate SignsOut(a: Action) {
    a.LoginFailure? || a.RegisterFailure? || a.Logout?
  }

  /** `initialState`: nobody signed in, nothing loading, no error, the stored token kept. */
  function Initial(storedToken: Option<string>): (s: AuthState)
    ensures !s.isAuthenticated && !s.isLoading && s.user == Null && s.error == Null
    ensures storedToken.Some? <==> s.token.Str?
  {
    AuthState(Null, if storedToken.Some? then Str(storedToken.value) else Null, false, false, Null)
  }

  /** `authReducer`. Only a success signs in; only a failure or a logout signs out. */
  function Reduce(s: AuthState, a: Action): (r: AuthState)
    ensures r.isAuthenticated == (IsSuccess(a) || (s.isAuthenticated && !SignsOut(a)))
  {
    match a
    case LoginStart | RegisterStart => s.(isLoading := true, error := Null)
    case LoginSuccess(_, _) | RegisterSuccess(_, _) =>
      s.(user := a.user, token := a.token, isAuthenticated := true, isLoading := false, error := Null)
    case LoginFailure(_) | RegisterFailure(_) =>
      s.(user := Null, token := Null, isAuthenticated := false, isLoading := false, error := a.failure)
    case Logout => s.(user := Null, token := Null, isAuthenticated := false, isLoading := false, error := Null)
    case ClearError => s.(error := Null)
    case UpdateProfile(profile) => s.(user := profile)
    case Unknown(_) => s
  }

  /** A start action only raises `isLoading` and clears the error. */
  lemma StartOnlyLoads(s: AuthState, a: Action)
    requires a.LoginStart? || a.RegisterStart?
    ensures Reduce(s, a).isLoading && Reduce(s, a).error == Null
    ensures Reduce(s, a).(isLoading := s.isLoading, error := s.error) == s
  {
  }

  /** A success installs the payload's user and token and leaves a settled, error-free session. */
  lemma SuccessSignsIn(s: AuthState, a: Action)
    requires IsSuccess(a)
    ensures Reduce(s, a) == AuthState(a.user, a.token, true, false, Null)
  {
  }

  /** A failure drops user and token and records the payload as the error. */
  lemma FailureSignsOut(s: AuthState, a: Action)
    requires a.LoginFailure? || a.RegisterFailure?
    ensures Reduce(s, a) == AuthState(Null, Null, false, false, a.failure)
  {
  }

  /** Logging out leaves nothing behind, whatever the state was. */
  lemma LogoutClearsAll(s: AuthState)
    ensures Reduce(s, Logout) == AuthState(Null, Null, false, false, Null)
  {
  }

  /** CLEAR_ERROR changes only the error, UPDATE_PROFILE only the user, an unknown action nothing. */
  lemma NarrowActions(s: AuthState, profile: Value, actionType: string)
    ensures Reduce(s, ClearError) == s.(error := Null)
    ensures Reduce(s, UpdateProfile(profile)) == s.(user := profile)
    ensures Reduce(s, Unknown(actionType)) == s
  {
  }

  /** The state after dispatching `actions` in order. */
  function Run(s: AuthState, actions: seq<Action>): AuthState
    decreases |actions|
  {
    if actions == [] then s else Reduce(Run(s, actions[..|actions| - 1]), actions[|actions| - 1])
  }

  /** The action at `i` signed in and nothing after it signed out. */
  predicate SignedInAt(actions: seq<Action>, i: int) {
    0 <= i < |actions| && IsSuccess(actions[i]) && forall j :: i < j < |actions| ==> !SignsOut(actions[j])
  }

  /**
   * After any sequence of actions the session is authenticated exactly
   * when some success was not followed by a failure or a logout, or it
   * was authenticated to begin with and nothing signed it out.
   */
  lemma {:induction false} AuthenticatedIff(s: AuthState, actions: seq<Action>)
    ensures Run(s, actions).isAuthenticated <==>
      (exists i :: SignedInAt(actions, i)) || (s.isAuthenticated && forall j :: 0 <= j < |actions| ==> !SignsOut(actions[j]))
    decreases |actions|
  {
    if actions != [] {
      var n := |actions| - 1;
      var front, last := actions[..n], actions[n];
      AuthenticatedIff(s, front);
      if IsSuccess(last) {
        assert SignedInAt(actions, n);
      } else if SignsOut(last) {
        forall i | 0 <= i < n ensures !SignedInAt(actions, i) {
          assert !(n > i && !SignsOut(actions[n]));
        }
      } else {
        if exists i :: SignedInAt(front, i) {
          var i :| SignedInAt(front, i);
          assert SignedInAt(actions, i);
        }
        if exists i :: SignedInAt(actions, i) {
          var i :| SignedInAt(actions, i);
          assert SignedInAt(front, i);
        }
        if forall j :: 0 <= j < n ==> !SignsOut(front[j]) {
          assert forall j :: 0 <= j < |actions| ==> !SignsOut(actions[j]) by {
            forall j | 0 <= j < |actions| ensures !SignsOut(actions[j]) {
              if j < n {
                assert actions[j] == front[j];
              }
            }
          }
        }
      }
    }
  }

  /** From the initial state, nothing but a success that was not undone can authenticate the session. */
  lemma NoSuccessNoSession(storedToken: Option<string>, actions: seq<Action>)
    requires forall j :: 0 <= j < |actions| ==> !IsSuccess(actions[j])
    ensures !Run(Initial(storedToken), actions).isAuthenticated
  {
    AuthenticatedIff(Initial(storedToken), actions);
  }
}
