/** The action vocabulary the reducers understand, and the action creators
    of js/main.js. The untyped `{type, ...}` records become one closed union. */
module Actions {
  import opened Values

  /** The phase recorded for a named asynchronous operation. */
  datatype Status = Pending | Fulfilled | Rejected

  /** A catalogue item carried by cart actions; the cart is keyed by `id`,
      the item's `_id` field, and `data` is the rest of the object. */
  datatype Good = Good(id: string, data: Value)

  datatype Action =
    | Init  // `{}`: the action createStore starts with; its type is recognised by no reducer
    | PromiseAction(promiseName: string, status: Status, payload: Value, error: Value)
    | AuthLogin(token: Option<string>)  // `None`: the `null` login of a failed sign-in
    | AuthLogout
    | CartAdd(good: Good, count: int)
    | CartSub(good: Good, count: int)
    | CartSet(good: Good, count: int)
    | CartDel(good: Good)
    | CartClear

  /** The action types the cart reducer answers to. */
  predicate IsCartAction(a: Action) {
    a.CartAdd? || a.CartSub? || a.CartSet? || a.CartDel? || a.CartClear?
  }

  // Action creators. The promise ones leave the other result field undefined;
  // the cart ones default the count to 1.

  function ActionPending(promiseName: string): Action {
    PromiseAction(promiseName, Pending, Undefined, Undefined)
  }

  function ActionFulfilled(promiseName: string, payload: Value): Action {
    PromiseAction(promiseName, Fulfilled, payload, Undefined)
  }

  function ActionRejected(promiseName: string, error: Value): Action {
    PromiseAction(promiseName, Rejected, Undefined, error)
  }

  function ActionCartAdd(good: Good, count: int := 1): Action {
    CartAdd(good, count)
  }

  function ActionCartSub(good: Good, count: int := 1): Action {
    CartSub(good, count)
  }

  function ActionCartSet(good: Good, count: int := 1): Action {
    CartSet(good, count)
  }

  /** The three phases of one operation are three different PROMISE actions
      for that name, and none of them is a cart action. */
  lemma PromiseCreatorsDistinct(promiseName: string, payload: Value, error: Value)
    ensures var p, f, r := ActionPending(promiseName), ActionFulfilled(promiseName, payload), ActionRejected(promiseName, error);
            && p.PromiseAction? && f.PromiseAction? && r.PromiseAction?
            && p.promiseName == promiseName && f.promiseName == promiseName && r.promiseName == promiseName
            && p != f && f != r && p != r
            && !IsCartAction(p) && !IsCartAction(f) && !IsCartAction(r)
  {
  }

  /** The cart creators make cart actions for the good they are given, with a
      count of one when the count is omitted. */
  lemma CartCreatorsDefault(good: Good, count: int)
    ensures var a, s, t := ActionCartAdd(good, count), ActionCartSub(good, count), ActionCartSet(good, count);
            && IsCartAction(a) && IsCartAction(s) && IsCartAction(t)
            && a.good == good && s.good == good && t.good == good
            && a.count == count && s.count == count && t.count == count
    ensures ActionCartAdd(good).count == 1 && ActionCartSub(good).count == 1 && ActionCartSet(good).count == 1
  {
  }
}
