/** `combineReducers` (js/main.js:170-191): one root reducer made of named
    child reducers, each owning the slice under its name. */
module Combine {
  import opened Values
  import opened Actions
  import opened Slices
  import opened Reducers

  /** The root state object: slice name to slice. */
  type State = map<string, Slice>

  /** One entry of the `reducers` object. */
  datatype Child = Child(name: string, reducer: Reducer)

  /** The entries of a JavaScript object have distinct keys. */
  predicate DistinctNames(cs: seq<Child>) {
    forall i, j :: 0 <= i < j < |cs| ==> cs[i].name != cs[j].name
  }

  /** `totalState[name]`, `None` when absent (`undefined`). */
  function Lookup(state: State, name: string): Option<Slice> {
    if name in state then Some(state[name]) else None
  }

  /** A child run on its own slice and nothing else. */
  function ChildRun(c: Child, state: State, action: Action): Run {
    Reduce(c.reducer, Lookup(state, c.name), action)
  }

  /** The child returned a slice other than the one it was given. */
  predicate ChildChanged(c: Child, state: State, action: Action) {
    var run := ChildRun(c, state, action);
    run.result.Ok? && run.result.value.changed
  }

  /** The names of the children that changed their slice. */
  function ChangedNames(cs: seq<Child>, state: State, action: Action): set<string>
    decreases |cs|
  {
    if cs == [] then {}
    else (if ChildChanged(cs[0], state, action) then {cs[0].name} else {}) + ChangedNames(cs[1..], state, action)
  }

  lemma {:induction false} ChangedNamesSpec(cs: seq<Child>, state: State, action: Action, k: string)
    ensures k in ChangedNames(cs, state, action) <==>
            exists i :: 0 <= i < |cs| && cs[i].name == k && ChildChanged(cs[i], state, action)
    decreases |cs|
  {
    if cs != [] {
      ChangedNamesSpec(cs[1..], state, action, k);
      if k in ChangedNames(cs[1..], state, action) {
        var i :| 0 <= i < |cs[1..]| && cs[1..][i].name == k && ChildChanged(cs[1..][i], state, action);
        assert cs[i + 1] == cs[1..][i];
      }
      if exists i :: 0 <= i < |cs| && cs[i].name == k && ChildChanged(cs[i], state, action) {
        var i :| 0 <= i < |cs| && cs[i].name == k && ChildChanged(cs[i], state, action);
        if i > 0 {
          assert cs[1..][i - 1] == cs[i];
        }
      }
    }
  }

  /** A name no child owns is never among the changed names. */
  lemma {:induction false} UnownedNotChanged(cs: seq<Child>, state: State, action: Action, k: string)
    requires forall i :: 0 <= i < |cs| ==> cs[i].name != k
    ensures k !in ChangedNames(cs, state, action)
    decreases |cs|
  {
    if cs != [] {
      assert cs[0].name != k;
      UnownedNotChanged(cs[1..], state, action, k);
    }
  }

  /** Child `c` (now `c'`) ran without throwing and `updates` holds its new slice
      exactly when that slice is a different object. */
  ghost predicate Reported(c: Child, c': Child, state: State, action: Action, updates: map<string, Slice>) {
    var run := ChildRun(c, state, action);
    && run.result.Ok?
    && c' == Child(c.name, run.reducer)
    && (c.name in updates <==> run.result.value.changed)
    && (c.name in updates ==> updates[c.name] == run.result.value.slice)
  }

  /** The children before `k` ran, child `k` threw `e`, and the children after
      it never ran. */
  ghost predicate FailedAt(cs: seq<Child>, cs': seq<Child>, state: State, action: Action, k: int, e: Error) {
    && |cs'| == |cs|
    && 0 <= k < |cs|
    && (forall i :: 0 <= i < k ==> ChildRun(cs[i], state, action).result.Ok?
                                   && cs'[i] == Child(cs[i].name, ChildRun(cs[i], state, action).reducer))
    && ChildRun(cs[k], state, action).result == Err(e)
    && cs'[k] == Child(cs[k].name, ChildRun(cs[k], state, action).reducer)
    && (forall i :: k < i < |cs| ==> cs'[i] == cs[i])
  }

  /** The children, advanced, and `newTotalState`: the changed slices only. */
  datatype Gathered = Gathered(children: seq<Child>, updates: Result<map<string, Slice>, Error>)

  /** The loop of `totalReducer`: runs the children in order, each on
      `totalState[name]`, and keeps the slices that changed. */
  function Collect(cs: seq<Child>, state: State, action: Action): (g: Gathered)
    requires DistinctNames(cs)
    ensures |g.children| == |cs|
    ensures g.updates.Ok? ==> g.updates.value.Keys == ChangedNames(cs, state, action)
    ensures g.updates.Ok? ==> forall i :: 0 <= i < |cs| ==> Reported(cs[i], g.children[i], state, action, g.updates.value)
    ensures g.updates.Err? ==> exists k :: FailedAt(cs, g.children, state, action, k, g.updates.error)
    decreases |cs|
  {
    if cs == [] then Gathered([], Ok(map[]))
    else
      var run := ChildRun(cs[0], state, action);
      var head := Child(cs[0].name, run.reducer);
      match run.result
      case Err(e) =>
        assert FailedAt(cs, [head] + cs[1..], state, action, 0, e);
        Gathered([head] + cs[1..], Err(e))
      case Ok(step) =>
        var rest := Collect(cs[1..], state, action);
        match rest.updates
        case Err(e) =>
          CollectFailedLater(cs, state, action, rest.children, e);
          Gathered([head] + rest.children, Err(e))
        case Ok(updates) =>
          var updates' := if step.changed then updates[cs[0].name := step.slice] else updates;
          CollectReported(cs, state, action, rest.children, updates, updates');
          Gathered([head] + rest.children, Ok(updates'))
  }

  lemma CollectFailedLater(cs: seq<Child>, state: State, action: Action, rest: seq<Child>, e: Error)
    requires cs != []
    requires ChildRun(cs[0], state, action).result.Ok?
    requires exists k :: FailedAt(cs[1..], rest, state, action, k, e)
    ensures exists k :: FailedAt(cs, [Child(cs[0].name, ChildRun(cs[0], state, action).reducer)] + rest, state, action, k, e)
  {
    var k :| FailedAt(cs[1..], rest, state, action, k, e);
    var cs' := [Child(cs[0].name, ChildRun(cs[0], state, action).reducer)] + rest;
    forall i | 0 < i < |cs|
      ensures cs[i] == cs[1..][i - 1] && cs'[i] == rest[i - 1]
    {
    }
    assert FailedAt(cs, cs', state, action, k + 1, e);
  }

  lemma CollectReported(cs: seq<Child>, state: State, action: Action, rest: seq<Child>,
                        updates: map<string, Slice>, updates': map<string, Slice>)
    requires cs != [] && DistinctNames(cs)
    requires ChildRun(cs[0], state, action).result.Ok?
    requires |rest| == |cs| - 1
    requires updates.Keys == ChangedNames(cs[1..], state, action)
    requires forall i :: 0 <= i < |cs| - 1 ==> Reported(cs[1..][i], rest[i], state, action, updates)
    requires var step := ChildRun(cs[0], state, action).result.value;
             updates' == if step.changed then updates[cs[0].name := step.slice] else updates
    ensures updates'.Keys == ChangedNames(cs, state, action)
    ensures var cs' := [Child(cs[0].name, ChildRun(cs[0], state, action).reducer)] + rest;
            forall i :: 0 <= i < |cs| ==> Reported(cs[i], cs'[i], state, action, updates')
  {
    var cs' := [Child(cs[0].name, ChildRun(cs[0], state, action).reducer)] + rest;
    UnownedNotChanged(cs[1..], state, action, cs[0].name);
    forall i | 0 <= i < |cs|
      ensures Reported(cs[i], cs'[i], state, action, updates')
    {
      if i > 0 {
        assert cs[i] == cs[1..][i - 1] && cs'[i] == rest[i - 1];
        assert cs[i].name != cs[0].name;
        assert Reported(cs[1..][i - 1], rest[i - 1], state, action, updates);
      }
    }
  }

  /** The root state and whether it is a different object from the old one. */
  datatype RootStep = RootStep(state: State, changed: bool)

  /** One call of the root reducer: the children, advanced, and its result. */
  datatype RootRun = RootRun(children: seq<Child>, result: Result<RootStep, Error>)

  /** `totalReducer`: the identical old root when no child changed its slice;
      otherwise the old root with exactly the changed slices overwritten.
      An exception of a child propagates after the earlier children ran. */
  function CombinedReduce(cs: seq<Child>, state: State, action: Action): (o: RootRun)
    requires DistinctNames(cs)
    ensures |o.children| == |cs|
    ensures forall i :: 0 <= i < |cs| ==> o.children[i].name == cs[i].name
    ensures o.result.Ok? <==> forall i :: 0 <= i < |cs| ==> ChildRun(cs[i], state, action).result.Ok?
    ensures o.result.Ok? ==>
      forall i :: 0 <= i < |cs| ==> o.children[i].reducer == ChildRun(cs[i], state, action).reducer
    ensures o.result.Err? ==> exists k :: FailedAt(cs, o.children, state, action, k, o.result.error)
    ensures o.result.Ok? ==> (o.result.value.changed <==> ChangedNames(cs, state, action) != {})
    ensures o.result.Ok? && !o.result.value.changed ==> o.result.value.state == state
    ensures o.result.Ok? ==> o.result.value.state.Keys == state.Keys + ChangedNames(cs, state, action)
    ensures o.result.Ok? ==>
      forall i :: 0 <= i < |cs| && ChildChanged(cs[i], state, action) ==>
        && cs[i].name in o.result.value.state
        && o.result.value.state[cs[i].name] == ChildRun(cs[i], state, action).result.value.slice
    ensures o.result.Ok? ==>
      forall k :: k in state && k !in ChangedNames(cs, state, action) ==>
        k in o.result.value.state && o.result.value.state[k] == state[k]
  {
    var g := Collect(cs, state, action);
    match g.updates
    case Err(e) =>
      FailureNotAllOk(cs, state, action, g.children, e);
      RootRun(g.children, Err(e))
    case Ok(updates) =>
      CombinedSpec(cs, state, action, g.children, updates);
      if |updates| > 0 then
        RootRun(g.children, Ok(RootStep(state + updates, true)))
      else
        RootRun(g.children, Ok(RootStep(state, false)))
  }

  lemma CombinedSpec(cs: seq<Child>, state: State, action: Action, cs': seq<Child>, updates: map<string, Slice>)
    requires |cs'| == |cs|
    requires updates.Keys == ChangedNames(cs, state, action)
    requires forall i :: 0 <= i < |cs| ==> Reported(cs[i], cs'[i], state, action, updates)
    ensures forall i :: 0 <= i < |cs| ==> ChildRun(cs[i], state, action).result.Ok?
    ensures forall i :: 0 <= i < |cs| ==> cs'[i] == Child(cs[i].name, ChildRun(cs[i], state, action).reducer)
    ensures |updates| > 0 <==> ChangedNames(cs, state, action) != {}
    ensures (state + updates).Keys == state.Keys + ChangedNames(cs, state, action)
    ensures forall i :: 0 <= i < |cs| && ChildChanged(cs[i], state, action) ==>
              && cs[i].name in state + updates
              && (state + updates)[cs[i].name] == ChildRun(cs[i], state, action).result.value.slice
    ensures forall k :: k in state && k !in ChangedNames(cs, state, action) ==>
              k in state + updates && (state + updates)[k] == state[k]
  {
    if |updates| == 0 {
      assert updates.Keys == {};
    }
    forall i | 0 <= i < |cs| && ChildChanged(cs[i], state, action)
      ensures cs[i].name in state + updates
      ensures (state + updates)[cs[i].name] == ChildRun(cs[i], state, action).result.value.slice
    {
      assert Reported(cs[i], cs'[i], state, action, updates);
      assert cs[i].name in updates;
    }
  }

  lemma FailureNotAllOk(cs: seq<Child>, state: State, action: Action, cs': seq<Child>, e: Error)
    requires exists k :: FailedAt(cs, cs', state, action, k, e)
    ensures !forall i :: 0 <= i < |cs| ==> ChildRun(cs[i], state, action).result.Ok?
  {
    var k :| FailedAt(cs, cs', state, action, k, e);
    assert ChildRun(cs[k], state, action).result.Err?;
  }
}
