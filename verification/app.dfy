/** The application's wiring: the `reducers` object (js/main.js:139-143)
    and `const store = createStore(combineReducers(reducers))` (js/main.js:193).
    The texts found under the keys 'promise' and 'auth' at start-up, and
    `jwtDecode`, are parameters. */
module App {
  import opened Values
  import opened Actions
  import opened Slices
  import opened Reducers
  import opened Combine
  import opened Stores
  import opened AsyncAction

  function AppReducers(decode: string -> Option<Value>, promiseText: Stored, authText: Stored): (cs: seq<Child>)
    ensures DistinctNames(cs)
  {
    [ Child("promise", LocalStored(PromiseReducer, "promise", true, promiseText)),
      Child("cart", CartReducer),
      Child("auth", LocalStored(AuthReducer(decode), "auth", true, authText)) ]
  }

  function AppStore(decode: string -> Option<Value>, promiseText: Stored, authText: Stored): (s: Store)
    ensures s.Valid()
  {
    CreateStore(AppReducers(decode, promiseText, authText))
  }

  /** At start-up the promise and auth slices come from storage when the
      stored text is usable and are `{}` otherwise; the cart starts empty. */
  lemma StartupState(decode: string -> Option<Value>, promiseText: Stored, authText: Stored)
    ensures var s := AppStore(decode, promiseText, authText);
            && s.state.Keys == {"promise", "cart", "auth"}
            && s.state["promise"] == (if promiseText.Text? then promiseText.value else PromiseSlice(map[]))
            && s.state["cart"] == CartSlice(map[])
            && s.state["auth"] == (if authText.Text? then authText.value else AuthSlice(LoggedOut))
            && s.subscribers == [] && s.trace == []
  {
    var cs := AppReducers(decode, promiseText, authText);
    StartupChild(PromiseReducer, "promise", promiseText, PromiseSlice(map[]));
    StartupChild(AuthReducer(decode), "auth", authText, AuthSlice(LoggedOut));
    assert cs[0].name == "promise" && cs[1].name == "cart" && cs[2].name == "auth";
    assert Names(cs) == {"promise", "cart", "auth"};
  }

  /** Start-up consumes both one-shot flags, and a stored text that was not
      used is replaced by "{}". */
  lemma StartupReducers(decode: string -> Option<Value>, promiseText: Stored, authText: Stored)
    ensures AppStore(decode, promiseText, authText).children ==
      [ Child("promise", LocalStored(PromiseReducer, "promise", false, if promiseText.Text? then promiseText else EmptyObject)),
        Child("cart", CartReducer),
        Child("auth", LocalStored(AuthReducer(decode), "auth", false, if authText.Text? then authText else EmptyObject)) ]
  {
    var cs := AppReducers(decode, promiseText, authText);
    StartupChild(PromiseReducer, "promise", promiseText, PromiseSlice(map[]));
    StartupChild(AuthReducer(decode), "auth", authText, AuthSlice(LoggedOut));
    CreatedChild(cs, 0);
    CreatedChild(cs, 1);
    CreatedChild(cs, 2);
  }

  /** What `createStore` leaves in position `i` of the children. */
  lemma CreatedChild(cs: seq<Child>, i: int)
    requires DistinctNames(cs) && 0 <= i < |cs|
    ensures |CreateStore(cs).children| == |cs|
    ensures CreateStore(cs).children[i] == Child(cs[i].name, Reduce(cs[i].reducer, None, Init).reducer)
  {
    assert Lookup(map[], cs[i].name) == None;
  }

  /** After start-up the store is ready to record asynchronous operations. */
  lemma StartupReady(decode: string -> Option<Value>, promiseText: Stored, authText: Stored)
    ensures PromiseReady(AppStore(decode, promiseText, authText).children)
  {
    StartupReducers(decode, promiseText, authText);
    var children := AppStore(decode, promiseText, authText).children;
    assert children[0].name == "promise" && HandlesPromises(children[0].reducer);
  }

  /** The first call of a wrapper, made by `createStore` with `undefined` and
      `{}`, around a reducer that answers it with a fresh empty object. */
  lemma StartupChild(inner: Reducer, key: string, text: Stored, empty: Slice)
    requires Reduce(inner, None, Init) == Run(inner, Ok(Step(empty, true)))
    requires IsEmptyObject(empty)
    ensures var out := Reduce(LocalStored(inner, key, true, text), None, Init);
            && out.result == Ok(Step(if text.Text? then text.value else empty, true))
            && out.reducer == LocalStored(inner, key, false, if text.Text? then text else EmptyObject)
  {
    if !text.Text? {
      RunsInner(LocalStored(inner, key, true, text), None, Init);
    }
  }
}
