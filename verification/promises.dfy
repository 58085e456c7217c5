/** `promiseReducer` (js/main.js:1-8): the map from operation name to its
    `{status, payload, error}` record. */
module Promises {
  import opened Values
  import opened Actions
  import opened Slices

  /** The promise map a slice holds. `undefined` becomes the default `{}`; a
      slice of another kind (never present in a store's state) reads as `{}`. */
  function EntriesOf(input: Option<Slice>): map<string, PromiseEntry> {
    if input.Some? && input.value.PromiseSlice? then input.value.entries else map[]
  }

  /** A `PROMISE` action records exactly one entry in a new object; every
      other action hands the state back. */
  function Reduce(input: Option<Slice>, action: Action): (r: Step)
    ensures KeepsIdentity(input, r)
    ensures action.PromiseAction? ==>
      && r.changed
      && r.slice.PromiseSlice?
      && action.promiseName in r.slice.entries
      && r.slice.entries[action.promiseName] == PromiseEntry(action.status, action.payload, action.error)
      && SameElsewhere(EntriesOf(input), r.slice.entries, action.promiseName)
    ensures !action.PromiseAction? ==> r == Unrecognised(input, PromiseSlice(map[]))
  {
    match action
    case PromiseAction(name, status, payload, error) =>
      Step(PromiseSlice(EntriesOf(input)[name := PromiseEntry(status, payload, error)]), true)
    case _ =>
      Unrecognised(input, PromiseSlice(map[]))
  }

  /** Recording a phase twice yields the same map as recording it once, but
      the second time is still a new object. */
  lemma RecordTwice(input: Option<Slice>, action: Action)
    requires action.PromiseAction?
    ensures var once := Reduce(input, action);
            var twice := Reduce(Some(once.slice), action);
            twice.slice == once.slice && twice.changed
  {
    var once := Reduce(input, action);
    var twice := Reduce(Some(once.slice), action);
    assert twice.slice.entries.Keys == once.slice.entries.Keys;
  }

  /** Only the latest phase of an operation is kept: recording `a` and then
      `b` for the same name gives what recording `b` alone gives. */
  lemma LatestPhaseWins(input: Option<Slice>, a: Action, b: Action)
    requires a.PromiseAction? && b.PromiseAction? && a.promiseName == b.promiseName
    ensures Reduce(Some(Reduce(input, a).slice), b).slice == Reduce(input, b).slice
  {
    var both := Reduce(Some(Reduce(input, a).slice), b).slice.entries;
    var only := Reduce(input, b).slice.entries;
    assert both.Keys == only.Keys;
  }

  /** Operations under different names do not interfere: their records
      commute. */
  lemma OtherNamesCommute(input: Option<Slice>, a: Action, b: Action)
    requires a.PromiseAction? && b.PromiseAction? && a.promiseName != b.promiseName
    ensures Reduce(Some(Reduce(input, a).slice), b).slice == Reduce(Some(Reduce(input, b).slice), a).slice
  {
    var ab := Reduce(Some(Reduce(input, a).slice), b).slice.entries;
    var ba := Reduce(Some(Reduce(input, b).slice), a).slice.entries;
    assert ab.Keys == ba.Keys;
  }

  /** The three creators record the phase with only the matching field set:
      PENDING has neither payload nor error, FULFILLED only the payload,
      REJECTED only the error. */
  lemma CreatorsRecordPhase(input: Option<Slice>, name: string, v: Value)
    ensures var p := Reduce(input, ActionPending(name)).slice;
            p.PromiseSlice? && name in p.entries && p.entries[name] == PromiseEntry(Pending, Undefined, Undefined)
    ensures var f := Reduce(input, ActionFulfilled(name, v)).slice;
            f.PromiseSlice? && name in f.entries && f.entries[name] == PromiseEntry(Fulfilled, v, Undefined)
    ensures var r := Reduce(input, ActionRejected(name, v)).slice;
            r.PromiseSlice? && name in r.entries && r.entries[name] == PromiseEntry(Rejected, Undefined, v)
  {
  }
}
