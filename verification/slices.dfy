/** The slices of the root state and what every slice reducer returns. */
module Slices {
  import opened Values
  import opened Actions

  /** `state.promise[name]`: the last recorded phase of one named operation. */
  datatype PromiseEntry = PromiseEntry(status: Status, payload: Value, error: Value)

  /** `state.cart[id]`. */
  datatype CartEntry = CartEntry(count: int, good: Good)

  /** `state.auth`: `{}` or `{token, payload}`; `token` is `None` for `null`,
      and `payload` is `None` when the token did not decode. */
  datatype AuthState = LoggedOut | LoggedIn(token: Option<string>, payload: Option<Value>)

  /** The value stored under one key of the root state. `Foreign` is whatever
      sits under a key no reducer owns. */
  datatype Slice =
    | PromiseSlice(entries: map<string, PromiseEntry>)
    | CartSlice(items: map<string, CartEntry>)
    | AuthSlice(auth: AuthState)
    | Foreign(value: Value)

  /** What a reducer returns: its new slice, and whether that slice is a
      different object from the one it was given (JavaScript `!==`). */
  datatype Step = Step(slice: Slice, changed: bool)

  /** The only exception a reducer of the core throws: reading `count` of a
      missing cart entry. */
  datatype Error = TypeError

  /** The identity convention: a reducer that reports no change has handed
      back the very slice it received (so that slice was not `undefined`). */
  predicate KeepsIdentity(input: Option<Slice>, step: Step) {
    !step.changed ==> input == Some(step.slice)
  }

  /** The closing `return state` of a reducer. An `undefined` state was replaced
      by the default-parameter object `{}`, a fresh object, so it counts as changed. */
  function Unrecognised(input: Option<Slice>, empty: Slice): (r: Step)
    ensures KeepsIdentity(input, r)
    ensures r.changed <==> input.None?
    ensures r.slice == input.GetOr(empty)
  {
    match input
    case None => Step(empty, true)
    case Some(s) => Step(s, false)
  }

  /** `a` and `b` agree on every key other than `key`. */
  ghost predicate SameElsewhere<V>(a: map<string, V>, b: map<string, V>, key: string) {
    forall k :: k != key ==> (k in a <==> k in b) && (k in a ==> a[k] == b[k])
  }
}
