/** The slice reducers as values, including `localStoredReducer`
    (js/main.js:116-136). A reducer closure's private state becomes fields:
    the wrapper's one-shot `flag` is `first`, and the text `localStorage`
    holds under the wrapper's key is its `cell`. */
module Reducers {
  import opened Values
  import opened Actions
  import opened Slices
  import Promises
  import Auth
  import Cart

  /** What `localStorage.getItem(key)` yields, as `JSON.parse` sees it. */
  datatype Stored =
    | Missing              // `null`: nothing stored under the key
    | EmptyObject          // the text "{}"
    | Text(value: Slice)   // any other text; it parses to `value`
    | Corrupt              // text that `JSON.parse` rejects

  /** A slice that `JSON.stringify` writes as "{}". */
  predicate IsEmptyObject(s: Slice) {
    match s
    case PromiseSlice(m) => m == map[]
    case CartSlice(m) => m == map[]
    case AuthSlice(a) => a.LoggedOut?
    case Foreign(v) => v == Obj(map[])
  }

  /** `JSON.stringify`, stored and read back. `undefined` is written as the
      text "undefined", which does not parse. */
  function Serialize(s: Slice): (t: Stored)
    ensures t.EmptyObject? <==> IsEmptyObject(s)
    ensures t.Corrupt? <==> s == Foreign(Undefined)
    ensures t.Text? ==> t.value == s
    ensures !t.Missing?
  {
    if IsEmptyObject(s) then EmptyObject
    else if s == Foreign(Undefined) then Corrupt
    else Text(s)
  }

  datatype Reducer =
    | PromiseReducer
    | CartReducer
    | AuthReducer(decode: string -> Option<Value>)
    | LocalStored(inner: Reducer, key: string, first: bool, cell: Stored)

  /** One call of a reducer: the reducer with its private state advanced, and
      the step it returned or the exception it threw. */
  datatype Run = Run(reducer: Reducer, result: Result<Step, Error>)

  /** Calls reducer `r` on slice `input` (`None` for `undefined`). */
  function Reduce(r: Reducer, input: Option<Slice>, action: Action): (out: Run)
    ensures out.result.Ok? ==> KeepsIdentity(input, out.result.value)
    ensures out.result.Err? ==> action.CartSub?
    ensures !r.LocalStored? ==> out.reducer == r
    ensures r.LocalStored? ==> out.reducer.LocalStored? && out.reducer.key == r.key && !out.reducer.first
    // first call, and the key holds a parsable text other than "{}": that
    // value is the result; the inner reducer does not run, nothing is written
    ensures r.LocalStored? && r.first && r.cell.Text? ==>
      out == Run(r.(first := false), Ok(Step(r.cell.value, true)))
    decreases r
  {
    match r
    case PromiseReducer => Run(r, Ok(Promises.Reduce(input, action)))
    case CartReducer => Run(r, Cart.Reduce(input, action))
    case AuthReducer(decode) => Run(r, Ok(Auth.Reduce(decode, input, action)))
    case LocalStored(inner, key, first, cell) =>
      if first && cell.Text? then
        Run(LocalStored(inner, key, false, cell), Ok(Step(cell.value, true)))
      else
        var run := Reduce(inner, input, action);
        match run.result
        case Ok(step) => Run(LocalStored(run.reducer, key, false, Serialize(step.slice)), run.result)
        case Err(_) => Run(LocalStored(run.reducer, key, false, cell), run.result)
  }

  /** Every call of a wrapper that does not return the stored value runs the
      inner reducer on the same state and action, returns exactly its outcome,
      and writes a result it returns under the key; an exception leaves the
      stored text as it was. */
  lemma RunsInner(r: Reducer, input: Option<Slice>, action: Action)
    requires r.LocalStored?
    requires !(r.first && r.cell.Text?)
    ensures var out, run := Reduce(r, input, action), Reduce(r.inner, input, action);
            && out.result == run.result
            && out.reducer.inner == run.reducer
            && out.reducer.cell == (if run.result.Ok? then Serialize(run.result.value.slice) else r.cell)
  {
  }

  /** A slice a wrapper returns comes back, unchanged, from the first call of
      a fresh wrapper reading the same key; only a slice that was written as
      "{}" (or as "undefined") makes the fresh wrapper run its reducer instead. */
  lemma {:induction false} ReloadRoundTrip(r: Reducer, input: Option<Slice>, action: Action,
                                           input': Option<Slice>, action': Action)
    requires r.LocalStored?
    requires Reduce(r, input, action).result.Ok?
    ensures var written := Reduce(r, input, action);
            var s := written.result.value.slice;
            var reloaded := Reduce(written.reducer.(first := true), input', action');
            && (Serialize(s).Text? ==> written.reducer.cell.Text?)
            && (written.reducer.cell.Text? ==> reloaded.result == Ok(Step(s, true)))
            && (!written.reducer.cell.Text? ==> reloaded.result == Reduce(written.reducer.inner, input', action').result)
  {
    var written := Reduce(r, input, action);
    if r.first && r.cell.Text? {
      assert written.reducer.cell == r.cell;
    } else {
      RunsInner(r, input, action);
    }
    if !written.reducer.cell.Text? {
      RunsInner(written.reducer.(first := true), input', action');
    }
  }

  /** The wrapper's flag is spent after one call: every later call runs the
      inner reducer and writes what it returns. */
  lemma LaterCallsRunInner(r: Reducer, input: Option<Slice>, action: Action,
                           input': Option<Slice>, action': Action)
    requires r.LocalStored?
    ensures var next := Reduce(r, input, action).reducer;
            var later := Reduce(next, input', action');
            var inner := Reduce(next.inner, input', action');
            && later.result == inner.result
            && (inner.result.Ok? ==> later.reducer.cell == Serialize(inner.result.value.slice))
  {
    RunsInner(Reduce(r, input, action).reducer, input', action');
  }

  /** A reducer that answers `PROMISE` actions as `promiseReducer` does: the
      bare reducer, or wrappers whose stored value has already been consulted. */
  predicate HandlesPromises(r: Reducer)
    decreases r
  {
    || r.PromiseReducer?
    || (r.LocalStored? && !r.first && HandlesPromises(r.inner))
  }

  /** Such a reducer returns exactly what `promiseReducer` returns on a
      `PROMISE` action, and stays such a reducer after any action. */
  lemma {:induction false} PromiseHandled(r: Reducer, input: Option<Slice>, action: Action)
    requires HandlesPromises(r)
    ensures HandlesPromises(Reduce(r, input, action).reducer)
    ensures action.PromiseAction? ==> Reduce(r, input, action).result == Ok(Promises.Reduce(input, action))
    decreases r
  {
    if r.LocalStored? {
      PromiseHandled(r.inner, input, action);
    }
  }
}
