/** The Pinia cart store of the delivery front end, as pure state transitions.

    Each action of the store becomes a function from the state before to the state
    after. The browser's localStorage entry `'cart'` is part of the state (`saved`):
    writing it is `SaveCartToLocalStorage`, reading it is `LoadCartFromLocalStorage`,
    and JSON serialisation is taken to be lossless. */
module CartStore {
  import opened Options
  import opened Seqs

  /** A dish as a menu page hands it to the store. `restaurantId` stands for the nested
      `dish.restaurant.id`; `price` is the already-parsed unit price (in cents), carried
      through untouched. `name` represents the descriptive fields the store never reads. */
  datatype Dish = Dish(id: int, restaurantId: int, name: string, price: int)

  /** A cart line: the dish's fields spread into a new record together with a quantity. */
  datatype Line = Line(dish: Dish, quantity: int)

  /** The store's state. `saved` is the localStorage entry: `None` when no entry exists. */
  datatype CartState = CartState(
    cart: seq<Line>,
    showModal: bool,
    dishToAdd: Option<Dish>,
    saved: Option<seq<Line>>)

  /** The state at application start: empty cart, no prompt, whatever the browser holds.
      It is valid whenever the stored copy is well-formed. */
  function Fresh(saved: Option<seq<Line>>): (r: CartState)
    ensures r.cart == [] && CartLength(r.cart) == 0
    ensures !r.showModal && r.dishToAdd == None && r.saved == saved
    ensures (saved.Some? ==> WellFormedCart(saved.value)) ==> Valid(r)
  {
    CartState([], false, None, saved)
  }

  // ---------------------------------------------------------------------------
  // Lookup by dish id

  predicate HasId(cart: seq<Line>, id: int)
  {
    exists i :: 0 <= i < |cart| && cart[i].dish.id == id
  }

  /** `k` is the position of the first line whose dish has id `id`. */
  predicate IsFirstIndex(cart: seq<Line>, id: int, k: int)
  {
    && 0 <= k < |cart|
    && cart[k].dish.id == id
    && forall j :: 0 <= j < k ==> cart[j].dish.id != id
  }

  /** `Array.prototype.findIndex` on the dish id: the first matching position, or -1. */
  function FindIndex(cart: seq<Line>, id: int): (k: int)
    ensures k == -1 <==> !HasId(cart, id)
    ensures k != -1 ==> IsFirstIndex(cart, id, k)
  {
    if |cart| == 0 then -1
    else if cart[0].dish.id == id then 0
    else
      var k := FindIndex(cart[1..], id);
      assert forall i :: 1 <= i < |cart| ==> cart[i] == cart[1..][i - 1];
      if k == -1 then -1 else k + 1
  }

  /** The first matching position is unique, whichever way it is found. */
  lemma {:induction false} FirstIndexUnique(cart: seq<Line>, id: int, k: int)
    requires IsFirstIndex(cart, id, k)
    ensures FindIndex(cart, id) == k
  {
  }

  /** Every first matching position is the one `FindIndex` returns. */
  lemma {:induction false} FindIndexIsTheFirstIndex(cart: seq<Line>, id: int)
    ensures forall k :: IsFirstIndex(cart, id, k) ==> k == FindIndex(cart, id)
  {
    forall k | IsFirstIndex(cart, id, k) {
      FirstIndexUnique(cart, id, k);
    }
  }

  // ---------------------------------------------------------------------------
  // Derived values

  /** The `cartLength` getter: the total number of units, summed over the lines. */
  function CartLength(cart: seq<Line>): (n: int)
    ensures AllPositive(cart) ==> n >= |cart|
  {
    if |cart| == 0 then 0 else cart[0].quantity + CartLength(cart[1..])
  }

  predicate AllPositive(cart: seq<Line>)
  {
    forall i :: 0 <= i < |cart| ==> cart[i].quantity >= 1
  }

  // ---------------------------------------------------------------------------
  // Invariants the store keeps when the pages go through `addToCart`

  /** No two lines carry the same dish id. */
  predicate UniqueIds(cart: seq<Line>)
  {
    forall i, j :: 0 <= i < j < |cart| ==> cart[i].dish.id != cart[j].dish.id
  }

  /** Every line comes from the restaurant of the first line. */
  predicate SingleRestaurant(cart: seq<Line>)
  {
    forall i :: 0 <= i < |cart| ==> cart[i].dish.restaurantId == cart[0].dish.restaurantId
  }

  predicate WellFormedCart(cart: seq<Line>)
  {
    UniqueIds(cart) && AllPositive(cart) && SingleRestaurant(cart)
  }

  /** The whole store: a well-formed cart, the modal raised exactly while a dish is pending,
      and a well-formed stored copy whenever one exists. */
  predicate Valid(st: CartState)
  {
    && WellFormedCart(st.cart)
    && (st.showModal <==> st.dishToAdd.Some?)
    && (st.saved.Some? ==> WellFormedCart(st.saved.value))
  }

  /** `canAddToCart`: the cart is empty or its first line comes from the dish's restaurant.
      For a one-restaurant cart, that is exactly when a new line for the dish would keep the
      cart to one restaurant. */
  predicate CanAddToCart(st: CartState, dish: Dish)
    ensures SingleRestaurant(st.cart) ==>
              (CanAddToCart(st, dish) <==> SingleRestaurant(st.cart + [Line(dish, 1)]))
  {
    var grown := st.cart + [Line(dish, 1)];
    assert |st.cart| > 0 ==> grown[|st.cart|].dish.restaurantId == dish.restaurantId;
    |st.cart| == 0 || st.cart[0].dish.restaurantId == dish.restaurantId
  }

  // ---------------------------------------------------------------------------
  // Actions

  /** `saveCartToLocalStorage`: the storage entry becomes a copy of the cart. */
  function SaveCartToLocalStorage(st: CartState): (r: CartState)
    ensures r.saved == Some(st.cart)
    ensures r.cart == st.cart && r.showModal == st.showModal && r.dishToAdd == st.dishToAdd
  {
    st.(saved := Some(st.cart))
  }

  /** `loadCartFromLocalStorage`: an existing entry replaces the cart; none leaves all as is. */
  function LoadCartFromLocalStorage(st: CartState): (r: CartState)
    ensures st.saved.Some? ==> r.cart == st.saved.value
    ensures st.saved.None? ==> r == st
    ensures r.showModal == st.showModal && r.dishToAdd == st.dishToAdd && r.saved == st.saved
  {
    match st.saved
    case Some(stored) => st.(cart := stored)
    case None => st
  }

  /** `addDishToCart`: one more unit of the first line with the dish's id, or a new line
      with quantity 1 at the end; the cart is then saved. */
  function AddDishToCart(st: CartState, dish: Dish): (r: CartState)
    ensures r.showModal == st.showModal && r.dishToAdd == st.dishToAdd
    ensures r.saved == Some(r.cart)
    ensures !HasId(st.cart, dish.id) ==> r.cart == st.cart + [Line(dish, 1)]
    ensures forall k :: IsFirstIndex(st.cart, dish.id, k) ==>
              && |r.cart| == |st.cart|
              && r.cart[k] == st.cart[k].(quantity := st.cart[k].quantity + 1)
              && forall j :: 0 <= j < |st.cart| && j != k ==> r.cart[j] == st.cart[j]
  {
    var k := FindIndex(st.cart, dish.id);
    var cart :=
      if k != -1 then st.cart[k := st.cart[k].(quantity := st.cart[k].quantity + 1)]
      else st.cart + [Line(dish, 1)];
    assert forall k' :: IsFirstIndex(st.cart, dish.id, k') ==> k' == k by {
      FindIndexIsTheFirstIndex(st.cart, dish.id);
    }
    SaveCartToLocalStorage(st.(cart := cart))
  }

  /** `addToCart`: a dish from another restaurant than the cart's first line is parked in
      `dishToAdd` and the confirmation modal is raised, with the cart and storage untouched;
      otherwise the dish is added as by `addDishToCart`. */
  function AddToCart(st: CartState, dish: Dish): (r: CartState)
    ensures !CanAddToCart(st, dish) ==>
              && r.cart == st.cart
              && r.saved == st.saved
              && r.showModal
              && r.dishToAdd == Some(dish)
    ensures CanAddToCart(st, dish) ==> r == AddDishToCart(st, dish)
  {
    if |st.cart| > 0 && st.cart[0].dish.restaurantId != dish.restaurantId then
      st.(dishToAdd := Some(dish), showModal := true)
    else
      AddDishToCart(st, dish)
  }

  /** `removeFromCart`: the first line with the id loses one unit, or disappears when it
      has no more than one; an absent id changes nothing. The cart is saved in every case. */
  function RemoveFromCart(st: CartState, id: int): (r: CartState)
    ensures r.showModal == st.showModal && r.dishToAdd == st.dishToAdd
    ensures r.saved == Some(r.cart)
    ensures !HasId(st.cart, id) ==> r.cart == st.cart
    ensures forall k :: IsFirstIndex(st.cart, id, k) && st.cart[k].quantity > 1 ==>
              && |r.cart| == |st.cart|
              && r.cart[k] == st.cart[k].(quantity := st.cart[k].quantity - 1)
              && forall j :: 0 <= j < |st.cart| && j != k ==> r.cart[j] == st.cart[j]
    ensures forall k :: IsFirstIndex(st.cart, id, k) && st.cart[k].quantity <= 1 ==>
              && |r.cart| == |st.cart| - 1
              && (forall j :: 0 <= j < k ==> r.cart[j] == st.cart[j])
              && (forall j :: k < j < |st.cart| ==> r.cart[j - 1] == st.cart[j])
  {
    var k := FindIndex(st.cart, id);
    assert forall k' :: IsFirstIndex(st.cart, id, k') ==> k' == k by {
      FindIndexIsTheFirstIndex(st.cart, id);
    }
    if k == -1 then
      SaveCartToLocalStorage(st)
    else if st.cart[k].quantity > 1 then
      SaveCartToLocalStorage(st.(cart := st.cart[k := st.cart[k].(quantity := st.cart[k].quantity - 1)]))
    else
      SpliceKeepsNeighbours(st.cart, k);
      SaveCartToLocalStorage(st.(cart := st.cart[..k] + st.cart[k + 1..]))
  }

  /** Splicing out position `k` keeps the lines before it in place and shifts the lines
      after it one position to the left. */
  lemma {:induction false} SpliceKeepsNeighbours(cart: seq<Line>, k: int)
    requires 0 <= k < |cart|
    ensures var c := cart[..k] + cart[k + 1..];
            && |c| == |cart| - 1
            && (forall j :: 0 <= j < k ==> c[j] == cart[j])
            && (forall j :: k < j < |cart| ==> c[j - 1] == cart[j])
  {
  }

  /** `deleteFromCart`: every line with the id goes, whatever its quantity; the others stay
      in order. The cart is then saved. */
  function DeleteFromCart(st: CartState, id: int): (r: CartState)
    ensures r.showModal == st.showModal && r.dishToAdd == st.dishToAdd
    ensures r.saved == Some(r.cart)
    ensures !HasId(r.cart, id)
    ensures Subsequence(r.cart, st.cart)
    ensures forall l :: l in st.cart && l.dish.id != id ==> multiset(r.cart)[l] == multiset(st.cart)[l]
  {
    var p := (l: Line) => l.dish.id != id;
    var cart := Filter(st.cart, p);
    FilterIsSubsequence(st.cart, p);
    assert forall i :: 0 <= i < |cart| ==> cart[i] in cart;
    SaveCartToLocalStorage(st.(cart := cart))
  }

  /** `cancelClearCart`: the pending dish is dropped and the modal closed; cart and storage
      stay as they are. */
  function CancelClearCart(st: CartState): (r: CartState)
    ensures !r.showModal && r.dishToAdd == None
    ensures r.cart == st.cart && r.saved == st.saved
  {
    st.(showModal := false, dishToAdd := None)
  }

  /** `confirmAddToCart`: the cart is emptied and the pending dish, if any, added through
      `addDishToCart`; the modal is closed and the pending dish cleared. Storage is written
      only by that inner `addDishToCart`. */
  function ConfirmAddToCart(st: CartState): (r: CartState)
    ensures !r.showModal && r.dishToAdd == None
    ensures st.dishToAdd.Some? ==> r.cart == [Line(st.dishToAdd.value, 1)] && r.saved == Some(r.cart)
    ensures st.dishToAdd.None? ==> r.cart == [] && r.saved == st.saved
  {
    var emptied := st.(cart := []);
    assert !HasId(emptied.cart, 0);
    var added :=
      match st.dishToAdd
      case Some(d) => AddDishToCart(emptied, d)
      case None => emptied;
    added.(showModal := false, dishToAdd := None)
  }

  /** `clearCart`: the cart becomes empty and is saved. */
  function ClearCart(st: CartState): (r: CartState)
    ensures r.cart == [] && CartLength(r.cart) == 0
    ensures r.saved == Some([])
    ensures r.showModal == st.showModal && r.dishToAdd == st.dishToAdd
  {
    SaveCartToLocalStorage(st.(cart := []))
  }

  // ---------------------------------------------------------------------------
  // The actions the pages invoke, and runs of them

  datatype Action =
    | Add(dish: Dish)
    | Remove(id: int)
    | Delete(id: int)
    | Confirm
    | Cancel
    | Clear
    | Load

  function Step(st: CartState, a: Action): CartState
  {
    match a
    case Add(d) => AddToCart(st, d)
    case Remove(id) => RemoveFromCart(st, id)
    case Delete(id) => DeleteFromCart(st, id)
    case Confirm => ConfirmAddToCart(st)
    case Cancel => CancelClearCart(st)
    case Clear => ClearCart(st)
    case Load => LoadCartFromLocalStorage(st)
  }

  function Run(st: CartState, actions: seq<Action>): CartState
    decreases |actions|
  {
    if |actions| == 0 then st else Run(Step(st, actions[0]), actions[1..])
  }
}
