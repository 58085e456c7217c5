/** `actionPromise` (js/main.js:10-22) and the function-action branch of
    `dispatch` (js/main.js:154-156). The thunk runs in two steps: `Start`
    is the synchronous part up to `await promise`; `Settle` is the rest,
    once the awaited operation has an outcome. Other dispatches may happen
    in between. */
module AsyncAction {
  import opened Values
  import opened Actions
  import opened Slices
  import opened Reducers
  import opened Combine
  import opened Stores
  import Promises

  /** How the awaited operation ended. */
  datatype Outcome = Resolved(payload: Value) | Failed(error: Value)

  /** The promise the async thunk returns while it waits. */
  datatype Task = Task(promiseName: string)

  datatype Started = Started(store: Store, task: Task)

  /** The store after settlement, and the value the thunk's promise resolves
      to (`None` for `undefined`). */
  datatype Settled = Settled(store: Store, returned: Option<Value>)

  /** What `dispatch` accepts: a plain action, or the thunk `actionPromise(name, promise)`. */
  datatype Dispatchable = Plain(action: Action) | PromiseThunk(promiseName: string)

  /** `dispatch`'s outcome; `returned` is the thunk's own return value. */
  datatype AnyDispatched = AnyDispatched(store: Store, thrown: Option<Error>, returned: Option<Task>)

  /** The thunk's first step: dispatch PENDING and hand back the waiting promise. */
  function Start(s: Store, promiseName: string): (r: Started)
    requires s.Valid()
    ensures r.store.Valid()
    ensures r.store == Dispatch(s, ActionPending(promiseName)).store
    ensures r.task.promiseName == promiseName
  {
    Started(Dispatch(s, ActionPending(promiseName)).store, Task(promiseName))
  }

  /** The action the thunk dispatches once the operation has settled. */
  function Settlement(task: Task, outcome: Outcome): Action {
    match outcome
    case Resolved(payload) => ActionFulfilled(task.promiseName, payload)
    case Failed(error) => ActionRejected(task.promiseName, error)
  }

  /** The thunk's second step: dispatch FULFILLED and resolve with the payload,
      or dispatch REJECTED and resolve with `undefined`, never rethrowing. */
  function Settle(s: Store, task: Task, outcome: Outcome): (r: Settled)
    requires s.Valid()
    ensures r.store.Valid()
    ensures r.store == Dispatch(s, Settlement(task, outcome)).store
    ensures outcome.Resolved? ==> r.returned == Some(outcome.payload)
    ensures outcome.Failed? ==> r.returned == None
  {
    var d := Dispatch(s, Settlement(task, outcome));
    match outcome
    case Resolved(payload) => Settled(d.store, Some(payload))
    case Failed(_) => Settled(d.store, None)
  }

  /** `dispatch(action)`: a function is called with `dispatch` and `getState`
      and its result returned, the state changing only through the dispatches
      it makes itself; anything else goes to the root reducer and returns
      `undefined`. */
  function DispatchAny(s: Store, d: Dispatchable): (r: AnyDispatched)
    requires s.Valid()
    ensures d.Plain? ==> r == AnyDispatched(Dispatch(s, d.action).store, Dispatch(s, d.action).thrown, None)
    ensures d.PromiseThunk? ==>
      && r.store == Dispatch(s, ActionPending(d.promiseName)).store
      && r.thrown == None
      && r.returned == Some(Task(d.promiseName))
  {
    match d
    case Plain(action) =>
      var out := Dispatch(s, action);
      AnyDispatched(out.store, out.thrown, None)
    case PromiseThunk(name) =>
      var started := Start(s, name);
      AnyDispatched(started.store, None, Some(started.task))
  }

  /** The root reducer has a child named "promise" that answers `PROMISE`
      actions as `promiseReducer` does. */
  ghost predicate PromiseReady(cs: seq<Child>) {
    exists i :: 0 <= i < |cs| && cs[i].name == "promise" && HandlesPromises(cs[i].reducer)
  }

  /** Any dispatch keeps the "promise" child ready. */
  lemma StaysReady(s: Store, action: Action)
    requires s.Valid() && PromiseReady(s.children)
    ensures PromiseReady(Dispatch(s, action).store.children)
  {
    var k :| 0 <= k < |s.children| && s.children[k].name == "promise" && HandlesPromises(s.children[k].reducer);
    var o := CombinedReduce(s.children, s.state, action);
    var c := s.children[k];
    PromiseHandled(c.reducer, Lookup(s.state, c.name), action);
    if o.result.Err? {
      var f :| FailedAt(s.children, o.children, s.state, action, f, o.result.error);
      if k > f {
        assert o.children[k] == c;
      }
    }
    assert o.children[k].name == "promise" && HandlesPromises(o.children[k].reducer);
  }

  lemma {:induction false} StaysReadyAll(s: Store, actions: seq<Action>)
    requires s.Valid() && PromiseReady(s.children)
    ensures PromiseReady(DispatchAll(s, actions).children)
    decreases |actions|
  {
    if actions != [] {
      StaysReady(s, actions[0]);
      StaysReadyAll(Dispatch(s, actions[0]).store, actions[1..]);
    }
  }

  /** A `PROMISE` action never throws, always yields a new root whose
      "promise" slice is what `promiseReducer` returns, and calls every
      subscriber once, in order, with that root. */
  lemma RecordsPromise(s: Store, action: Action)
    requires s.Valid() && PromiseReady(s.children)
    requires action.PromiseAction?
    ensures var d := Dispatch(s, action);
            && d.thrown == None
            && Changes(s, action)
            && "promise" in d.store.state
            && d.store.state["promise"] == Promises.Reduce(Lookup(s.state, "promise"), action).slice
            && d.store.trace == s.trace + Notify(s.subscribers, d.store.state)
  {
    var k :| 0 <= k < |s.children| && s.children[k].name == "promise" && HandlesPromises(s.children[k].reducer);
    var c := s.children[k];
    PromiseHandled(c.reducer, Lookup(s.state, c.name), action);
    assert ChildChanged(c, s.state, action);
    ChangedNamesSpec(s.children, s.state, action, "promise");
    var d := Dispatch(s, action);
    assert forall i :: 0 <= i < |s.children| ==> ChildRun(s.children[i], s.state, action).result.Ok?;
    assert Changes(s, action);
    var n := Notify(s.subscribers, d.store.state);
    assert d.store.trace == s.trace + n by {
      assert |d.store.trace| == |s.trace + n|;
      forall i | 0 <= i < |d.store.trace|
        ensures d.store.trace[i] == (s.trace + n)[i]
      {
        if i < |s.trace| {
          assert d.store.trace[..|s.trace|][i] == s.trace[i];
        }
      }
    }
  }

  /** The thunk's first step: it throws nothing, returns the waiting promise,
      and subscribers see the entry PENDING with no payload and no error. */
  lemma PendingPhase(s: Store, name: string)
    requires s.Valid() && PromiseReady(s.children)
    ensures var started := DispatchAny(s, PromiseThunk(name));
            var pending := started.store;
            && started.thrown == None
            && started.returned == Some(Task(name))
            && pending.Valid() && PromiseReady(pending.children)
            && pending.subscribers == s.subscribers
            && "promise" in pending.state && pending.state["promise"].PromiseSlice?
            && name in pending.state["promise"].entries
            && pending.state["promise"].entries[name] == PromiseEntry(Pending, Undefined, Undefined)
            && pending.trace == s.trace + Notify(s.subscribers, pending.state)
  {
    RecordsPromise(s, ActionPending(name));
    StaysReady(s, ActionPending(name));
  }

  /** The thunk's second step: subscribers see FULFILLED with the payload, or
      REJECTED with the error, and the thunk's promise resolves to the payload
      or to `undefined`. */
  lemma SettledPhase(s: Store, task: Task, outcome: Outcome)
    requires s.Valid() && PromiseReady(s.children)
    ensures var settled := Settle(s, task, outcome);
            var done := settled.store;
            && "promise" in done.state && done.state["promise"].PromiseSlice?
            && task.promiseName in done.state["promise"].entries
            && done.state["promise"].entries[task.promiseName] ==
                 (match outcome
                  case Resolved(v) => PromiseEntry(Fulfilled, v, Undefined)
                  case Failed(e) => PromiseEntry(Rejected, Undefined, e))
            && done.trace == s.trace + Notify(s.subscribers, done.state)
            && settled.returned == (if outcome.Resolved? then Some(outcome.payload) else None)
  {
    RecordsPromise(s, Settlement(task, outcome));
  }

  /** The whole life of `dispatch(actionPromise(name, promise))`, with any
      other dispatches while the operation is pending: the PENDING notices
      (see PendingPhase) stay at the front of what follows, and the
      settlement notices close the trace. */
  lemma Lifecycle(s: Store, name: string, between: seq<Action>, outcome: Outcome)
    requires s.Valid() && PromiseReady(s.children)
    ensures var started := DispatchAny(s, PromiseThunk(name));
            var pending := started.store;
            var waited := DispatchAll(pending, between);
            var done := Settle(waited, Task(name), outcome).store;
            && |pending.trace| <= |done.trace| && done.trace[..|pending.trace|] == pending.trace
            && done.trace == waited.trace + Notify(s.subscribers, done.state)
  {
    var pending := Dispatch(s, ActionPending(name)).store;
    assert DispatchAny(s, PromiseThunk(name)).store == pending;
    StaysReady(s, ActionPending(name));
    StaysReadyAll(pending, between);
    var waited := DispatchAll(pending, between);
    SettledPhase(waited, Task(name), outcome);
    var done := Settle(waited, Task(name), outcome).store;
    PrefixOfPrefix(pending.trace, waited.trace, done.trace);
  }

  /** Being a prefix of the trace is transitive. */
  lemma PrefixOfPrefix(a: seq<Notice>, b: seq<Notice>, c: seq<Notice>)
    requires |a| <= |b| && b[..|a|] == a
    requires |b| <= |c| && c[..|b|] == b
    ensures |a| <= |c| && c[..|a|] == a
  {
    assert c[..|a|] == c[..|b|][..|a|];
  }
}
