# A Redux-style state container, modelled in Dafny

`js/main.js` holds a small hand-written state container: a root reducer assembled by
`combineReducers` from three slice reducers (`promise`, `cart`, `auth`), two of which are
wrapped by `localStoredReducer` so that their slice persists in `localStorage`. The store
(`createStore`) keeps the state and a list of subscribers. `dispatch` runs the root reducer and
notifies every subscriber when the root object changes. It also accepts the async thunk
`actionPromise`, which records the phases of a named asynchronous operation.

The model is functional:

- **Reducers as data.** Reducers are values of the datatype `Reducers.Reducer`. The private
  state of a `localStoredReducer` closure becomes fields: its one-shot flag is `first`, and the
  text stored under its key is `cell`.
- **Identity as a flag.** Every reducer returns a `Slices.Step`, which pairs the new slice with
  a flag `changed`. The flag means JavaScript `!==` between the result and the argument.
  `KeepsIdentity` states the convention: "unchanged" means the argument itself was returned.
  An `undefined` argument (`None`) is replaced by the default `{}`, which is a new object.
- **Exceptions as results.** The one exception the core can raise (`CART_SUB` for a good that
  is not in the cart reads `.count` of `undefined`) is `Err(TypeError)`. It propagates through
  `totalReducer` and out of `dispatch` as it does in JavaScript.
- **The store as a value.** The store is `Stores.Store(children, state, subscribers, trace)`.
  Subscriber callbacks are opaque identities. `trace` records every callback call together with
  the state that `getState()` returns during it.
- **The async thunk in two steps.** `actionPromise` is split into `AsyncAction.Start` (the part
  before `await`) and `AsyncAction.Settle` (the part after it). Any other dispatches may run
  in between.

## Model

| member | source | states |
|---|---|---|
| Slices.Unrecognised | js/main.js:1-8 | the closing `return state`: the given slice comes back unchanged, and only an `undefined` state (replaced by the fresh default `{}`) counts as a change |
| Promises.Reduce | js/main.js:1-8 | a PROMISE action stores `{status, payload, error}` under its name in a new object, leaves every other name untouched, and always reports a change; any other action hands the state back |
| Promises.RecordTwice | js/main.js:1-8 | recording the same phase twice gives the same map, but still a new object |
| Promises.LatestPhaseWins | js/main.js:1-8 | recording two phases of one operation keeps only the later one, as if the first had never been recorded |
| Promises.OtherNamesCommute | js/main.js:1-8 | phases of operations with different names commute |
| Actions.PromiseCreatorsDistinct | js/main.js:10-12 | `actionPending`, `actionFulfilled` and `actionRejected` make three different PROMISE actions for the given name, none of them a cart action |
| Actions.CartCreatorsDefault | js/main.js:110-113 | `actionCartAdd`, `actionCartSub` and `actionCartSet` make cart actions for the given good and count, and the count is 1 when omitted |
| Promises.CreatorsRecordPhase | js/main.js:10-12 | PENDING records neither payload nor error, FULFILLED records only the payload, REJECTED records only the error |
| Auth.Reduce | js/main.js:34-48 | AUTH_LOGIN stores the token and its decoded payload, with no payload for a `null` token; AUTH_LOGOUT gives a fresh `{}`; any other action keeps the identical state |
| Auth.LoginReplacesState | js/main.js:38-43 | a login gives the same slice whatever state it starts from |
| Auth.LogoutForgetsLogin | js/main.js:38-46 | logging out after a login ends where logging out alone ends, from every state |
| Auth.LogoutAlwaysChanges | js/main.js:44-46 | logging out while logged out still yields a new object, so subscribers are notified again |
| Cart.Reduce | js/main.js:53-109 | it throws exactly for CART_SUB of a good that is not in the cart; every cart action builds a new object and leaves the other goods alone; ADD adds to the count and keeps the stored good; SUB subtracts and clamps at 0; SET with count < 1 removes and with count > 0 stores; DEL removes; CLEAR empties; other actions keep the identical state |
| Cart.CountsStayNonNegative | js/main.js:71-96 | counts never go negative unless a negative amount is added |
| Cart.AddThenSub | js/main.js:56-84 | adding n and then subtracting n restores the previous count (0 for a good that was absent) |
| Cart.AddZeroIsFreshCopy | js/main.js:56-69 | adding zero leaves every entry as it was, yet the result counts as a change |
| Cart.DelAbsentIsFreshCopy | js/main.js:98-103 | deleting an absent good leaves every entry as it was, yet the result counts as a change |
| Cart.SubKeepsZeroEntry | js/main.js:76-81 | subtracting past zero keeps the good in the cart with count 0 |
| Cart.DefaultCountIsOne | js/main.js:110-113 | the creators' default count of 1 adds one of the good, and SET leaves exactly one |
| Reducers.Serialize | js/main.js:124-132 | what is written as "{}" is exactly an empty slice; `undefined` is written as a text that does not parse; every other slice is read back as itself |
| Reducers.Reduce | js/main.js:116-136 | every reducer keeps the identity convention; only CART_SUB throws; a wrapper's flag is spent after one call; on its first call a wrapper whose key holds usable text returns that value without running its reducer |
| Reducers.RunsInner | js/main.js:131-133 | in every other call the wrapper returns exactly what its reducer returns and writes that result under its key; after an exception, what is stored stays as it was |
| Reducers.ReloadRoundTrip | js/main.js:120-133 | a slice the wrapper wrote comes back unchanged from a fresh wrapper on the same key, unless it was written as "{}" or "undefined", in which case the fresh wrapper runs its reducer |
| Reducers.LaterCallsRunInner | js/main.js:117-133 | once the flag is spent, every later call runs the inner reducer and stores its result |
| Reducers.PromiseHandled | js/main.js:116-136 | a promise reducer, whether bare or wrapped with its flag spent, answers PROMISE actions exactly as `promiseReducer` does, and stays that way after any action |
| Combine.ChangedNamesSpec | js/main.js:175-180 | a name is in `newTotalState` exactly when a child with that name returned a different object |
| Combine.Collect | js/main.js:175-180 | the loop runs the children in order, each on its own slice; it keeps exactly the changed slices; a child's exception stops the loop after the earlier children have run |
| Combine.CombinedReduce | js/main.js:170-191 | the result is the identical root when no child changed; otherwise the old root with exactly the changed slices overwritten and every other key kept; the root is unchanged exactly when the changed set is empty; it succeeds exactly when every child succeeds |
| Stores.CreateStore | js/main.js:145-147 | the initial state has exactly the children's names as keys, each holding what that child returns for `undefined` and `{}`; there are no subscribers |
| Stores.EveryNameChangesFromEmpty | js/main.js:146 | from `undefined` every child that does not throw reports a change |
| Stores.Without | js/main.js:151 | the filter removes every occurrence of the callback and keeps every other callback with its multiplicity |
| Stores.WithoutDistributes | js/main.js:151 | filtering preserves order across concatenation |
| Stores.Subscribe | js/main.js:150 | the callback is appended at the end; nothing else changes |
| Stores.Unsubscribe | js/main.js:151 | every occurrence of the callback is removed and every other callback keeps its multiplicity |
| Stores.UnsubscribeKeepsOrder | js/main.js:150-151 | the remaining subscribers keep the order in which they subscribed, which is the order they are notified in: a later subscriber stays last, and a later copy of the removed callback goes too |
| Stores.UnsubscribeUndoesSubscribe | js/main.js:150-151 | one unsubscribe undoes any number of subscriptions of the same callback and keeps everyone else in order |
| Stores.Notify | js/main.js:160 | every current subscriber is called once, in order, and each sees the new state |
| Stores.Dispatch | js/main.js:157-161 | a changed root replaces the state and appends one notice per subscriber in order; an unchanged root or an exception leaves the state and the trace as they were; only CART_SUB can throw |
| Stores.DispatchAll | js/main.js:153-162 | a sequence of dispatches keeps the subscribers and only appends to the trace |
| Stores.QuietRunKeepsState | js/main.js:157-161 | when no dispatch produces a new root, `getState()` returns the very same state and no subscriber is called |
| Stores.NeverNotifiedWhenAbsent | js/main.js:150-160 | a callback that is not subscribed is never called |
| Stores.UnsubscribedNeverNotified | js/main.js:150-160 | after unsubscribing, no later dispatch calls the callback |
| AsyncAction.Start | js/main.js:13-14 | the thunk's synchronous part dispatches PENDING and returns the waiting promise |
| AsyncAction.Settle | js/main.js:15-21 | on success FULFILLED is dispatched and the promise resolves to the payload; on failure REJECTED is dispatched and it resolves to `undefined` without rethrowing |
| AsyncAction.DispatchAny | js/main.js:153-156 | a plain action goes through the root reducer and returns `undefined`; a thunk is called and its result returned, and it changes the state only through its own dispatch |
| AsyncAction.StaysReady | js/main.js:139-143 | the promise child keeps answering PROMISE actions as `promiseReducer` after any dispatch, including one that throws |
| AsyncAction.StaysReadyAll | js/main.js:139-143 | the same holds across any sequence of dispatches |
| AsyncAction.RecordsPromise | js/main.js:1-8 | with the store's reducers, a PROMISE action never throws, always changes the root, stores `promiseReducer`'s result under "promise", and notifies every subscriber with that root |
| AsyncAction.PendingPhase | js/main.js:13-14 | subscribers see the operation PENDING, with no payload and no error |
| AsyncAction.SettledPhase | js/main.js:15-21 | subscribers see FULFILLED with the payload or REJECTED with the error, and the thunk returns the payload or `undefined` |
| AsyncAction.Lifecycle | js/main.js:13-22 | with any dispatches in between, the PENDING notices stay at the front of the trace and the settlement notices close it |
| App.AppReducers | js/main.js:139-143 | the three reducers are named distinctly |
| App.AppStore | js/main.js:193 | the application store is well formed |
| App.StartupState | js/main.js:139-147 | at start-up the promise and auth slices come from storage when the stored text is usable and are `{}` otherwise; the cart starts empty; no one is subscribed |
| App.StartupReducers | js/main.js:116-147 | start-up spends both one-shot flags, and a stored text that was not used is overwritten with "{}" |
| App.StartupReady | js/main.js:139-147 | after start-up the store records asynchronous operations as `promiseReducer` does |

Three behaviours of the code a reader might not expect; the model keeps them as written:

- CART_DEL of an absent good returns a new object, so subscribers are notified
  (`Cart.DelAbsentIsFreshCopy`).
- CART_SUB keeps a good at count 0 rather than removing it (`Cart.SubKeepsZeroEntry`).
- CART_SUB of an absent good throws.

## Left out

- The DOM, routing, the GraphQL client and the network (everything after line 193), `console.log` and `alert`: none of them affect the state container.
- jwtDecode (js/main.js:25-32) is a parameter of `AuthReducer` (`string -> Option<Value>`), because base64 and JSON decoding are not modelled; `None` stands for the `undefined` it returns after `alert`.
- Auth.Reduce: a login token is a string or `null` (`None`); other values, such as `undefined`, are not modelled.
- Auth.Reduce: the side write `localStorage.authToken = token` (js/main.js:35-37) is not modelled, because nothing in the core reads that key.
- Reducers.Serialize: `JSON.stringify`/`JSON.parse` are modelled as an exact round trip of the slice. The texts "null" and "undefined", and values that lose information on the way, are not modelled separately.
- Reducers.Reduce: `localStorage` is modelled as one cell per wrapper, which is faithful only because the keys in use ('promise' and 'auth') are distinct.
- Slices: a slice of the wrong kind (only reachable through foreign stored text) is read as `{}` by the branches that rebuild it; JavaScript would spread whatever object is there.
- Cart.Reduce: counts are integers. The string concatenation that `+=` performs when a count is not a number is not modelled.
- Cart.Reduce: CART_ADD and CART_SUB in JavaScript mutate the entry object, which is shared with the previous state. The model copies the entry, so an old state kept elsewhere does not see the new count.
- Stores.Notify: subscribers are opaque identities. A callback that subscribes, unsubscribes or dispatches while it is being called is not modelled.
- Stores.Notify: a callback that throws is not modelled. In JavaScript the loop at js/main.js:160 stops there, `state` has already been replaced, and the exception leaves `dispatch`. The application's own subscribers can throw, for example when `auth.payload` is `undefined` after a token that did not decode.
- AsyncAction.Settle: because a throwing callback is not modelled, neither is its effect inside the thunk's `try` (js/main.js:15-18). There the exception is caught, REJECTED is dispatched with it, and the thunk resolves to `undefined`, so an operation that succeeded can end up REJECTED.
- AsyncAction.DispatchAny: the only function action modelled is `actionPromise`; an arbitrary thunk would be code the model cannot see.
- AsyncAction.Lifecycle: the interleaving of the awaited promise with other work is modelled only as "any sequence of plain dispatches between the two steps".
- Actions: only the action types the reducers recognise, plus `{}` (`Init`), are modelled. Any other type is treated like `Init`, because every reducer falls through on it. `actionAuthLogin`, `actionAuthLogout`, `actionCartDel` and `actionCartClear` are the constructors `AuthLogin`, `AuthLogout`, `CartDel` and `CartClear`.
- `getState` is the `state` field of `Stores.Store`.
