/** `cartReducer` (js/main.js:53-109): the map from a good's `_id` to
    `{count, good}`. */
module Cart {
  import opened Values
  import opened Actions
  import opened Slices

  /** The cart map a slice holds. `undefined` becomes the default `{}`; a
      slice of another kind (never present in a store's state) reads as `{}`. */
  function ItemsOf(input: Option<Slice>): map<string, CartEntry> {
    if input.Some? && input.value.CartSlice? then input.value.items else map[]
  }

  /** Every cart action builds a new object and leaves the entries of other
      goods alone; `CART_SUB` on a good that is not in the cart throws. */
  function Reduce(input: Option<Slice>, action: Action): (r: Result<Step, Error>)
    ensures r.Err? <==> action.CartSub? && action.good.id !in ItemsOf(input)
    ensures r.Ok? ==> KeepsIdentity(input, r.value)
    ensures r.Ok? && IsCartAction(action) ==> r.value.changed && r.value.slice.CartSlice?
    ensures r.Ok? && IsCartAction(action) && !action.CartClear? ==>
      SameElsewhere(ItemsOf(input), r.value.slice.items, action.good.id)
    ensures action.CartAdd? ==>
      var items, id := ItemsOf(input), action.good.id;
      && r.Ok?
      && id in r.value.slice.items
      && r.value.slice.items[id].count == (if id in items then items[id].count else 0) + action.count
      && r.value.slice.items[id].good == (if id in items then items[id].good else action.good)
    ensures action.CartSub? && r.Ok? ==>
      var items, id := ItemsOf(input), action.good.id;
      && id in r.value.slice.items
      && r.value.slice.items[id].good == items[id].good
      && r.value.slice.items[id].count >= 0
      && (items[id].count - action.count >= 1 ==> r.value.slice.items[id].count == items[id].count - action.count)
      && (items[id].count - action.count < 1 ==> r.value.slice.items[id].count == 0)
    ensures action.CartSet? ==>
      && r.Ok?
      && (action.count < 1 ==> action.good.id !in r.value.slice.items)
      && (action.count > 0 ==>
            action.good.id in r.value.slice.items
            && r.value.slice.items[action.good.id] == CartEntry(action.count, action.good))
    ensures action.CartDel? ==> r.Ok? && action.good.id !in r.value.slice.items
    ensures action.CartClear? ==> r.Ok? && r.value.slice.items == map[]
    ensures !IsCartAction(action) ==> r == Ok(Unrecognised(input, CartSlice(map[])))
  {
    var items := ItemsOf(input);
    match action
    case CartAdd(good, count) =>
      var id := good.id;
      if id in items then
        Ok(Step(CartSlice(items[id := CartEntry(items[id].count + count, items[id].good)]), true))
      else
        Ok(Step(CartSlice(items[id := CartEntry(count, good)]), true))
    case CartSub(good, count) =>
      var id := good.id;
      if id in items then
        var left := items[id].count - count;
        Ok(Step(CartSlice(items[id := CartEntry(if left < 1 then 0 else left, items[id].good)]), true))
      else
        Err(TypeError)
    case CartSet(good, count) =>
      var id := good.id;
      var removed := if count < 1 then items - {id} else items;
      Ok(Step(CartSlice(if count > 0 then removed[id := CartEntry(count, good)] else removed), true))
    case CartDel(good) =>
      Ok(Step(CartSlice(items - {good.id}), true))
    case CartClear =>
      Ok(Step(CartSlice(map[]), true))
    case _ =>
      Ok(Unrecognised(input, CartSlice(map[])))
  }

  /** Every entry holds a count of at least zero. */
  ghost predicate NonNegative(items: map<string, CartEntry>) {
    forall id :: id in items ==> items[id].count >= 0
  }

  /** Counts never go negative as long as nothing adds a negative amount:
      `CART_SUB` clamps and `CART_SET` only stores positive counts. */
  lemma CountsStayNonNegative(input: Option<Slice>, action: Action)
    requires NonNegative(ItemsOf(input))
    requires action.CartAdd? ==> action.count >= 0
    requires Reduce(input, action).Ok?
    requires IsCartAction(action)
    ensures NonNegative(Reduce(input, action).value.slice.items)
  {
    var r := Reduce(input, action).value.slice.items;
    forall id | id in r
      ensures r[id].count >= 0
    {
      if id != action.good.id || action.CartClear? {
        assert id in ItemsOf(input);
      }
    }
  }

  /** Adding `n` and then subtracting `n` gives back the count a good had
      (0 for a good that was absent, whose entry then stays in the cart). */
  lemma AddThenSub(input: Option<Slice>, good: Good, n: int)
    requires NonNegative(ItemsOf(input))
    requires n >= 0
    ensures var added := Reduce(input, CartAdd(good, n)).value;
            var subbed := Reduce(Some(added.slice), CartSub(good, n));
            var items := ItemsOf(input);
            && subbed.Ok?
            && good.id in subbed.value.slice.items
            && subbed.value.slice.items[good.id].count == (if good.id in items then items[good.id].count else 0)
  {
    var items := ItemsOf(input);
    if good.id in items {
      assert items[good.id].count >= 0;
    }
  }

  /** Adding zero of a good already in the cart leaves every entry as it was,
      yet the result is a new object and the store notifies. */
  lemma AddZeroIsFreshCopy(input: Option<Slice>, good: Good)
    requires good.id in ItemsOf(input)
    ensures var r := Reduce(input, CartAdd(good, 0));
            r.Ok? && r.value.changed && r.value.slice.items == ItemsOf(input)
  {
    var r := Reduce(input, CartAdd(good, 0)).value.slice.items;
    assert r.Keys == ItemsOf(input).Keys;
  }

  /** Deleting a good that is not in the cart leaves every entry as it was,
      yet the result is a new object and the store notifies. */
  lemma DelAbsentIsFreshCopy(input: Option<Slice>, good: Good)
    requires good.id !in ItemsOf(input)
    ensures var r := Reduce(input, CartDel(good));
            r.Ok? && r.value.changed && r.value.slice.items == ItemsOf(input)
  {
    var r := Reduce(input, CartDel(good)).value.slice.items;
    assert r.Keys == ItemsOf(input).Keys;
  }

  /** `CART_SUB` past zero keeps the good in the cart with count 0. */
  lemma SubKeepsZeroEntry(input: Option<Slice>, good: Good, n: int)
    requires good.id in ItemsOf(input)
    requires ItemsOf(input)[good.id].count <= n
    ensures var r := Reduce(input, CartSub(good, n));
            r.Ok? && good.id in r.value.slice.items && r.value.slice.items[good.id].count == 0
  {
  }

  /** The creators' default count is one: `actionCartAdd(good)` adds one of
      the good, and `actionCartSet(good)` leaves exactly one in the cart. */
  lemma DefaultCountIsOne(input: Option<Slice>, good: Good)
    ensures var r := Reduce(input, ActionCartAdd(good)).value.slice.items;
            var items := ItemsOf(input);
            good.id in r && r[good.id].count == (if good.id in items then items[good.id].count else 0) + 1
    ensures var r := Reduce(input, ActionCartSet(good)).value.slice.items;
            good.id in r && r[good.id] == CartEntry(1, good)
  {
  }
}
