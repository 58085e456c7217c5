/** `createStore` (js/main.js:145-168) as a value: the root reducer's
    children, the current state, the subscriber list, and the trace of every
    subscriber call so far with the state the callback reads through `getState`. */
module Stores {
  import opened Values
  import opened Actions
  import opened Slices
  import opened Reducers
  import opened Combine

  /** A subscribed callback, by identity. */
  type Callback = nat

  /** One call of a subscriber, and the state `getState()` returned during it. */
  datatype Notice = Notice(callback: Callback, state: State)

  datatype Store = Store(children: seq<Child>, state: State, subscribers: seq<Callback>, trace: seq<Notice>) {
    predicate Valid() {
      DistinctNames(children)
    }
  }

  /** The names of a root reducer's children. */
  function Names(cs: seq<Child>): set<string> {
    set i | 0 <= i < |cs| :: cs[i].name
  }

  /** A child given `undefined` never hands back `undefined`, so it always
      reports a change unless it throws. */
  lemma {:induction false} EveryNameChangesFromEmpty(cs: seq<Child>, action: Action)
    requires forall i :: 0 <= i < |cs| ==> ChildRun(cs[i], map[], action).result.Ok?
    ensures ChangedNames(cs, map[], action) == Names(cs)
    decreases |cs|
  {
    if cs != [] {
      assert ChildRun(cs[0], map[], action).result.Ok?;
      assert forall i :: 0 <= i < |cs[1..]| ==> cs[1..][i] == cs[i + 1];
      EveryNameChangesFromEmpty(cs[1..], action);
      assert Names(cs) == {cs[0].name} + Names(cs[1..]) by {
        forall k | k in Names(cs)
          ensures k in {cs[0].name} + Names(cs[1..])
        {
          var i :| 0 <= i < |cs| && cs[i].name == k;
          if i > 0 {
            assert cs[1..][i - 1].name == k;
          }
        }
      }
    }
  }

  /** `createStore(reducer)`: the state starts as `reducer(undefined, {})`,
      so every child initialises its own slice; no subscribers yet. */
  function CreateStore(children: seq<Child>): (s: Store)
    requires DistinctNames(children)
    ensures s.Valid() && s.subscribers == [] && s.trace == []
    ensures |s.children| == |children|
    ensures forall i :: 0 <= i < |children| ==>
      && s.children[i] == Child(children[i].name, ChildRun(children[i], map[], Init).reducer)
      && ChildRun(children[i], map[], Init).result.Ok?
    ensures s.state.Keys == Names(children)
    ensures forall i :: 0 <= i < |children| ==>
      s.state[children[i].name] == ChildRun(children[i], map[], Init).result.value.slice
  {
    var o := CombinedReduce(children, map[], Init);
    EveryNameChangesFromEmpty(children, Init);
    assert forall i :: 0 <= i < |children| ==> ChildChanged(children[i], map[], Init);
    Store(o.children, o.result.value.state, [], [])
  }

  /** `xs.filter(c => c !== x)`. */
  function Without(xs: seq<Callback>, x: Callback): (r: seq<Callback>)
    ensures x !in r
    ensures forall y :: y != x ==> multiset(r)[y] == multiset(xs)[y]
    ensures |r| <= |xs|
  {
    if xs == [] then []
    else
      assert xs == [xs[0]] + xs[1..];
      (if xs[0] == x then [] else [xs[0]]) + Without(xs[1..], x)
  }

  /** Filtering keeps the order of what it keeps. */
  lemma {:induction false} WithoutDistributes(a: seq<Callback>, b: seq<Callback>, x: Callback)
    ensures Without(a + b, x) == Without(a, x) + Without(b, x)
    decreases |a|
  {
    if a != [] {
      assert (a + b)[1..] == a[1..] + b;
      WithoutDistributes(a[1..], b, x);
    } else {
      assert a + b == b;
    }
  }

  /** `subscribe(cb)`: the callback goes at the end of the list, once per call. */
  function Subscribe(s: Store, cb: Callback): (r: Store)
    ensures |r.subscribers| == |s.subscribers| + 1
    ensures r.subscribers[..|s.subscribers|] == s.subscribers && r.subscribers[|s.subscribers|] == cb
    ensures r.children == s.children && r.state == s.state && r.trace == s.trace
  {
    s.(subscribers := s.subscribers + [cb])
  }

  /** The function `subscribe(cb)` returns: it removes every occurrence of
      `cb`, and only those, keeping the order of the others. */
  function Unsubscribe(s: Store, cb: Callback): (r: Store)
    ensures cb !in r.subscribers
    ensures forall y :: y != cb ==> multiset(r.subscribers)[y] == multiset(s.subscribers)[y]
    ensures r.children == s.children && r.state == s.state && r.trace == s.trace
  {
    s.(subscribers := Without(s.subscribers, cb))
  }

  /** One unsubscribe undoes any number of subscriptions of the same callback
      and leaves everyone else subscribed in their order. */
  lemma UnsubscribeUndoesSubscribe(s: Store, cb: Callback, times: nat)
    ensures Unsubscribe(SubscribeTimes(s, cb, times), cb).subscribers == Without(s.subscribers, cb)
    decreases times
  {
    if times > 0 {
      var t := SubscribeTimes(s, cb, times - 1);
      UnsubscribeUndoesSubscribe(s, cb, times - 1);
      WithoutDistributes(t.subscribers, [cb], cb);
      assert Without([cb], cb) == [];
    }
  }

  /** Unsubscribing keeps everyone else in the order they subscribed: a later
      subscriber stays last, and a later copy of the removed callback goes too.
      With `Without([], cb) == []` these two equations fix the result for every
      list built by `subscribe`. */
  lemma UnsubscribeKeepsOrder(s: Store, y: Callback, cb: Callback)
    ensures y != cb ==> Unsubscribe(Subscribe(s, y), cb).subscribers == Unsubscribe(s, cb).subscribers + [y]
    ensures Unsubscribe(Subscribe(s, cb), cb).subscribers == Unsubscribe(s, cb).subscribers
  {
    WithoutDistributes(s.subscribers, [y], cb);
    WithoutDistributes(s.subscribers, [cb], cb);
    assert Without([cb], cb) == [];
  }

  function SubscribeTimes(s: Store, cb: Callback, times: nat): Store
    decreases times
  {
    if times == 0 then s else Subscribe(SubscribeTimes(s, cb, times - 1), cb)
  }

  /** The loop `for (let cb of cbs) cb()`: every subscriber once, in order,
      each reading `state`. */
  function Notify(subscribers: seq<Callback>, state: State): (r: seq<Notice>)
    ensures |r| == |subscribers|
    ensures forall i :: 0 <= i < |r| ==> r[i] == Notice(subscribers[i], state)
  {
    if subscribers == [] then [] else [Notice(subscribers[0], state)] + Notify(subscribers[1..], state)
  }

  /** The root reducer ran without throwing and returned a new root. */
  predicate Changes(s: Store, action: Action)
    requires s.Valid()
  {
    var o := CombinedReduce(s.children, s.state, action);
    o.result.Ok? && o.result.value.changed
  }

  /** What a dispatch leaves behind, and the exception that escaped it. */
  datatype Dispatched = Dispatched(store: Store, thrown: Option<Error>)

  /** `dispatch(action)` for a plain action: run the root reducer on the
      current state; a new root replaces the state and calls every current
      subscriber once, in order; an unchanged root or an exception leaves
      the state and the trace alone. */
  function Dispatch(s: Store, action: Action): (d: Dispatched)
    requires s.Valid()
    ensures d.store.Valid()
    ensures d.store.subscribers == s.subscribers
    ensures d.store.children == CombinedReduce(s.children, s.state, action).children
    ensures d.thrown.Some? <==> CombinedReduce(s.children, s.state, action).result.Err?
    ensures d.thrown.Some? ==> action.CartSub?
    ensures !Changes(s, action) ==> d.store.state == s.state && d.store.trace == s.trace
    ensures Changes(s, action) ==>
      && d.store.state == CombinedReduce(s.children, s.state, action).result.value.state
      && |d.store.trace| == |s.trace| + |s.subscribers|
      && d.store.trace[..|s.trace|] == s.trace
      && forall i :: 0 <= i < |s.subscribers| ==>
           d.store.trace[|s.trace| + i] == Notice(s.subscribers[i], d.store.state)
  {
    var o := CombinedReduce(s.children, s.state, action);
    assert DistinctNames(o.children) by {
      assert forall i :: 0 <= i < |s.children| ==> o.children[i].name == s.children[i].name;
    }
    match o.result
    case Err(e) =>
      Dispatched(s.(children := o.children), Some(e))
    case Ok(step) =>
      if step.changed then
        AppendedNotices(s.trace, s.subscribers, step.state);
        Dispatched(s.(children := o.children, state := step.state,
                      trace := s.trace + Notify(s.subscribers, step.state)), None)
      else
        Dispatched(s.(children := o.children), None)
  }

  /** The shape of a trace after one round of notices. */
  lemma AppendedNotices(trace: seq<Notice>, subscribers: seq<Callback>, state: State)
    ensures var t := trace + Notify(subscribers, state);
            && |t| == |trace| + |subscribers|
            && t[..|trace|] == trace
            && forall i :: 0 <= i < |subscribers| ==> t[|trace| + i] == Notice(subscribers[i], state)
  {
    var t := trace + Notify(subscribers, state);
    assert t[..|trace|] == trace;
  }

  /** Plain actions dispatched one after another. */
  function DispatchAll(s: Store, actions: seq<Action>): (r: Store)
    requires s.Valid()
    ensures r.Valid()
    ensures r.subscribers == s.subscribers
    ensures |r.children| == |s.children|
    ensures |s.trace| <= |r.trace| && r.trace[..|s.trace|] == s.trace
    decreases |actions|
  {
    if actions == [] then s else DispatchAll(Dispatch(s, actions[0]).store, actions[1..])
  }

  /** No dispatch of the sequence makes the root reducer return a new root. */
  ghost predicate AllQuiet(s: Store, actions: seq<Action>)
    requires s.Valid()
    decreases |actions|
  {
    actions == [] || (!Changes(s, actions[0]) && AllQuiet(Dispatch(s, actions[0]).store, actions[1..]))
  }

  /** When no dispatch of a sequence produces a new root, `getState()` returns
      the very state it returned before, and no subscriber was called. */
  lemma {:induction false} QuietRunKeepsState(s: Store, actions: seq<Action>)
    requires s.Valid()
    requires AllQuiet(s, actions)
    ensures DispatchAll(s, actions).state == s.state
    ensures DispatchAll(s, actions).trace == s.trace
    decreases |actions|
  {
    if actions != [] {
      QuietRunKeepsState(Dispatch(s, actions[0]).store, actions[1..]);
    }
  }

  /** A callback that is not subscribed is never called, whatever is dispatched. */
  lemma {:induction false} NeverNotifiedWhenAbsent(s: Store, cb: Callback, actions: seq<Action>)
    requires s.Valid()
    requires cb !in s.subscribers
    ensures forall i :: |s.trace| <= i < |DispatchAll(s, actions).trace| ==>
              DispatchAll(s, actions).trace[i].callback != cb
    decreases |actions|
  {
    if actions != [] {
      var d := Dispatch(s, actions[0]).store;
      NeverNotifiedWhenAbsent(d, cb, actions[1..]);
      var r := DispatchAll(s, actions);
      forall i | |s.trace| <= i < |r.trace|
        ensures r.trace[i].callback != cb
      {
        if i < |d.trace| {
          assert r.trace[..|d.trace|] == d.trace;
          assert r.trace[i] == d.trace[i];
          if Changes(s, actions[0]) {
            assert d.trace[i] == Notice(s.subscribers[i - |s.trace|], d.state);
          }
        }
      }
    }
  }

  /** After `unsubscribe()` returns, no later dispatch calls the callback. */
  lemma UnsubscribedNeverNotified(s: Store, cb: Callback, actions: seq<Action>)
    requires s.Valid()
    ensures var u := Unsubscribe(s, cb);
            forall i :: |u.trace| <= i < |DispatchAll(u, actions).trace| ==>
              DispatchAll(u, actions).trace[i].callback != cb
  {
    NeverNotifiedWhenAbsent(Unsubscribe(s, cb), cb, actions);
  }
}
