/** `authReducer` (js/main.js:34-48), with `jwtDecode` (js/main.js:25-32)
    passed in as an opaque function that yields `None` for a malformed token.
    A `null` token makes `jwtDecode` throw inside its own `try`, so it too
    decodes to `undefined`. */
module Auth {
  import opened Values
  import opened Actions
  import opened Slices

  function Reduce(decode: string -> Option<Value>, input: Option<Slice>, action: Action): (r: Step)
    ensures KeepsIdentity(input, r)
    ensures action.AuthLogin? ==>
      && r.changed
      && r.slice.AuthSlice? && r.slice.auth.LoggedIn?
      && r.slice.auth.token == action.token
      && (action.token.Some? ==> r.slice.auth.payload == decode(action.token.value))
      && (action.token.None? ==> r.slice.auth.payload == None)
    ensures action.AuthLogout? ==> r.changed && r.slice == AuthSlice(LoggedOut)
    ensures !action.AuthLogin? && !action.AuthLogout? ==> r == Unrecognised(input, AuthSlice(LoggedOut))
  {
    match action
    case AuthLogin(token) =>
      var payload := if token.Some? then decode(token.value) else None;
      Step(AuthSlice(LoggedIn(token, payload)), true)
    case AuthLogout => Step(AuthSlice(LoggedOut), true)
    case _ => Unrecognised(input, AuthSlice(LoggedOut))
  }

  /** Logging out when already logged out still builds a new `{}`, so the
      store notifies its subscribers again. */
  lemma LogoutAlwaysChanges(decode: string -> Option<Value>)
    ensures var r := Reduce(decode, Some(AuthSlice(LoggedOut)), AuthLogout);
            r.slice == AuthSlice(LoggedOut) && r.changed
  {
  }

  /** A login does not depend on who was logged in before: the same token
      gives the same slice from every state. */
  lemma LoginReplacesState(decode: string -> Option<Value>, input: Option<Slice>, input': Option<Slice>,
                           token: Option<string>)
    ensures Reduce(decode, input, AuthLogin(token)) == Reduce(decode, input', AuthLogin(token))
  {
  }

  /** Logging out after a login ends where logging out alone ends, from every
      state: nothing of the session survives. */
  lemma LogoutForgetsLogin(decode: string -> Option<Value>, input: Option<Slice>, token: Option<string>)
    ensures var loggedIn := Reduce(decode, input, AuthLogin(token)).slice;
            Reduce(decode, Some(loggedIn), AuthLogout) == Reduce(decode, input, AuthLogout)
  {
  }
}
