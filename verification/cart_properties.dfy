/** What the cart store's actions promise beyond a single call: the unit count each one
    moves, the invariants they keep, the conflict round, and the storage round trip. */
module CartProperties {
  import opened Options
  import opened Seqs
  import opened CartStore

  // ---------------------------------------------------------------------------
  // Unit counts

  lemma {:induction false} CartLengthAppend(a: seq<Line>, b: seq<Line>)
    ensures CartLength(a + b) == CartLength(a) + CartLength(b)
    decreases |a|
  {
    if |a| == 0 {
      assert a + b == b;
    } else {
      assert (a + b)[1..] == a[1..] + b;
      CartLengthAppend(a[1..], b);
    }
  }

  /** Replacing one line moves the unit count by the difference of the two quantities. */
  lemma {:induction false} CartLengthUpdate(cart: seq<Line>, k: int, l: Line)
    requires 0 <= k < |cart|
    ensures CartLength(cart[k := l]) == CartLength(cart) - cart[k].quantity + l.quantity
    decreases |cart|
  {
    if k > 0 {
      assert cart[k := l][1..] == cart[1..][k - 1 := l];
      CartLengthUpdate(cart[1..], k - 1, l);
    } else {
      assert cart[k := l][1..] == cart[1..];
    }
  }

  /** Splicing one line out lowers the unit count by that line's quantity. */
  lemma {:induction false} CartLengthSplice(cart: seq<Line>, k: int)
    requires 0 <= k < |cart|
    ensures CartLength(cart[..k] + cart[k + 1..]) == CartLength(cart) - cart[k].quantity
  {
    var before, after := cart[..k], cart[k + 1..];
    assert cart == before + ([cart[k]] + after);
    CartLengthAppend(before, [cart[k]] + after);
    CartLengthAppend(before, after);
    assert ([cart[k]] + after)[1..] == after;
  }

  /** `addDishToCart` always adds exactly one unit. */
  lemma {:induction false} AddDishToCartAddsOneUnit(st: CartState, dish: Dish)
    ensures CartLength(AddDishToCart(st, dish).cart) == CartLength(st.cart) + 1
  {
    var r := AddDishToCart(st, dish);
    var k := FindIndex(st.cart, dish.id);
    if k == -1 {
      CartLengthAppend(st.cart, [Line(dish, 1)]);
    } else {
      assert r.cart == st.cart[k := st.cart[k].(quantity := st.cart[k].quantity + 1)];
      CartLengthUpdate(st.cart, k, st.cart[k].(quantity := st.cart[k].quantity + 1));
    }
  }

  /** `removeFromCart` takes away one unit when the id is present and none otherwise. */
  lemma {:induction false} RemoveFromCartRemovesOneUnit(st: CartState, id: int)
    requires AllPositive(st.cart)
    ensures HasId(st.cart, id) ==> CartLength(RemoveFromCart(st, id).cart) == CartLength(st.cart) - 1
    ensures !HasId(st.cart, id) ==> CartLength(RemoveFromCart(st, id).cart) == CartLength(st.cart)
  {
    var r := RemoveFromCart(st, id);
    var k := FindIndex(st.cart, id);
    if k != -1 {
      if st.cart[k].quantity > 1 {
        assert r.cart == st.cart[k := st.cart[k].(quantity := st.cart[k].quantity - 1)];
        CartLengthUpdate(st.cart, k, st.cart[k].(quantity := st.cart[k].quantity - 1));
      } else {
        assert r.cart == st.cart[..k] + st.cart[k + 1..];
        CartLengthSplice(st.cart, k);
      }
    }
  }

  /** A line holding three units survives two `removeFromCart` calls, with two and then one
      unit left, disappears on the third, and a fourth call changes nothing. */
  lemma {:induction false} RemoveThreeUnitsThenNoOp(st: CartState, id: int, k: int)
    requires UniqueIds(st.cart)
    requires IsFirstIndex(st.cart, id, k) && st.cart[k].quantity == 3
    ensures var s1 := RemoveFromCart(st, id);
            IsFirstIndex(s1.cart, id, k) && s1.cart[k].quantity == 2
    ensures var s2 := RemoveFromCart(RemoveFromCart(st, id), id);
            IsFirstIndex(s2.cart, id, k) && s2.cart[k].quantity == 1
    ensures var s3 := RemoveFromCart(RemoveFromCart(RemoveFromCart(st, id), id), id);
            && !HasId(s3.cart, id)
            && s3.cart == st.cart[..k] + st.cart[k + 1..]
            && RemoveFromCart(s3, id).cart == s3.cart
  {
    var s1 := RemoveFromCart(st, id);
    assert IsFirstIndex(s1.cart, id, k);
    var s2 := RemoveFromCart(s1, id);
    assert IsFirstIndex(s2.cart, id, k);
    var s3 := RemoveFromCart(s2, id);
    assert forall j :: 0 <= j < |st.cart| ==> s2.cart[j].dish == st.cart[j].dish;
    assert s3.cart == st.cart[..k] + st.cart[k + 1..];
    forall i | 0 <= i < |s3.cart|
      ensures s3.cart[i].dish.id != id
    {
      if i >= k {
        assert s3.cart[i] == st.cart[i + 1];
      }
    }
  }

  /** Filtering out one id from a cart with unique ids splices out the line that has it. */
  lemma {:induction false} FilterOutIdSplices(cart: seq<Line>, id: int, k: int)
    requires UniqueIds(cart) && IsFirstIndex(cart, id, k)
    ensures Filter(cart, (l: Line) => l.dish.id != id) == cart[..k] + cart[k + 1..]
  {
    var p := (l: Line) => l.dish.id != id;
    var before, after := cart[..k], cart[k + 1..];
    assert forall i :: 0 <= i < |before| ==> p(before[i]) by {
      assert forall i :: 0 <= i < |before| ==> before[i] == cart[i];
    }
    assert forall i :: 0 <= i < |after| ==> p(after[i]) by {
      assert forall i :: 0 <= i < |after| ==> after[i] == cart[k + 1 + i];
    }
    assert cart == before + [cart[k]] + after;
    FilterDropsOne(before, cart[k], after, p);
  }

  /** `deleteFromCart` of an absent id changes nothing; of a present id, in a cart with
      unique ids, it splices out that one line and with it all of its units. */
  lemma {:induction false} DeleteFromCartRemovesLineUnits(st: CartState, id: int)
    requires UniqueIds(st.cart)
    ensures !HasId(st.cart, id) ==> DeleteFromCart(st, id).cart == st.cart
    ensures forall k :: IsFirstIndex(st.cart, id, k) ==>
              && DeleteFromCart(st, id).cart == st.cart[..k] + st.cart[k + 1..]
              && CartLength(DeleteFromCart(st, id).cart) == CartLength(st.cart) - st.cart[k].quantity
  {
    var p := (l: Line) => l.dish.id != id;
    var r := DeleteFromCart(st, id).cart;
    assert r == Filter(st.cart, p);
    var k := FindIndex(st.cart, id);
    if k == -1 {
      FilterKeepsAll(st.cart, p);
    } else {
      FilterOutIdSplices(st.cart, id, k);
      CartLengthSplice(st.cart, k);
      FindIndexIsTheFirstIndex(st.cart, id);
    }
  }

  // ---------------------------------------------------------------------------
  // Invariants, action by action

  lemma {:induction false} AddDishToCartKeepsIdsAndQuantities(st: CartState, dish: Dish)
    requires UniqueIds(st.cart) && AllPositive(st.cart)
    ensures UniqueIds(AddDishToCart(st, dish).cart) && AllPositive(AddDishToCart(st, dish).cart)
  {
    var r := AddDishToCart(st, dish);
    var k := FindIndex(st.cart, dish.id);
    if k != -1 {
      assert forall j :: 0 <= j < |st.cart| ==> r.cart[j].dish == st.cart[j].dish;
    }
  }

  /** Called directly, `addDishToCart` does not check the restaurant, so it can mix two. */
  lemma {:induction false} AddDishToCartCanMixRestaurants()
    ensures var st := Fresh(None).(cart := [Line(Dish(1, 10, "margherita", 700), 1)]);
            && SingleRestaurant(st.cart)
            && !SingleRestaurant(AddDishToCart(st, Dish(2, 20, "ramen", 900)).cart)
  {
    var st := Fresh(None).(cart := [Line(Dish(1, 10, "margherita", 700), 1)]);
    var r := AddDishToCart(st, Dish(2, 20, "ramen", 900));
    assert r.cart[1].dish.restaurantId == 20;
  }

  lemma {:induction false} AddToCartKeepsWellFormed(st: CartState, dish: Dish)
    requires WellFormedCart(st.cart)
    ensures WellFormedCart(AddToCart(st, dish).cart)
  {
    if CanAddToCart(st, dish) {
      AddDishToCartKeepsIdsAndQuantities(st, dish);
      var r := AddDishToCart(st, dish);
      var k := FindIndex(st.cart, dish.id);
      if k != -1 {
        assert forall j :: 0 <= j < |st.cart| ==> r.cart[j].dish == st.cart[j].dish;
      }
    }
  }

  /** Changing one line's quantity to another positive one keeps a cart well-formed. */
  lemma {:induction false} SetQuantityKeepsWellFormed(cart: seq<Line>, k: int, q: int)
    requires WellFormedCart(cart) && 0 <= k < |cart| && q >= 1
    ensures WellFormedCart(cart[k := cart[k].(quantity := q)])
  {
    var c := cart[k := cart[k].(quantity := q)];
    assert forall j :: 0 <= j < |cart| ==> c[j].dish == cart[j].dish;
  }

  /** Splicing one line out keeps a cart well-formed. */
  lemma {:induction false} SpliceKeepsWellFormed(cart: seq<Line>, k: int)
    requires WellFormedCart(cart) && 0 <= k < |cart|
    ensures WellFormedCart(cart[..k] + cart[k + 1..])
  {
    var c := cart[..k] + cart[k + 1..];
    // each surviving line sits at its old position or one to the left of it
    assert forall i :: 0 <= i < |c| ==> c[i] == cart[if i < k then i else i + 1];
  }

  lemma {:induction false} RemoveFromCartKeepsWellFormed(st: CartState, id: int)
    requires WellFormedCart(st.cart)
    ensures WellFormedCart(RemoveFromCart(st, id).cart)
  {
    var r := RemoveFromCart(st, id);
    var k := FindIndex(st.cart, id);
    if k != -1 {
      if st.cart[k].quantity > 1 {
        assert r.cart == st.cart[k := st.cart[k].(quantity := st.cart[k].quantity - 1)];
        SetQuantityKeepsWellFormed(st.cart, k, st.cart[k].quantity - 1);
      } else {
        assert r.cart == st.cart[..k] + st.cart[k + 1..];
        SpliceKeepsWellFormed(st.cart, k);
      }
    }
  }

  lemma {:induction false} FilterKeepsUniqueIds(s: seq<Line>, p: Line -> bool)
    requires UniqueIds(s)
    ensures UniqueIds(Filter(s, p))
    decreases |s|
  {
    if |s| > 0 {
      FilterKeepsUniqueIds(s[1..], p);
      if p(s[0]) {
        var t := Filter(s[1..], p);
        forall l | l in t
          ensures l.dish.id != s[0].dish.id
        {
          var j :| 0 <= j < |s[1..]| && s[1..][j] == l;
          assert s[j + 1] == l;
        }
        assert Filter(s, p) == [s[0]] + t;
      }
    }
  }

  /** Lines drawn from a well-formed cart in any way keep one restaurant and positive
      quantities. */
  lemma {:induction false} DrawnLinesKeepRestaurantAndQuantities(a: seq<Line>, b: seq<Line>)
    requires SingleRestaurant(b) && AllPositive(b)
    requires forall l :: l in a ==> l in b
    ensures SingleRestaurant(a) && AllPositive(a)
  {
    forall i | 0 <= i < |a|
      ensures |b| > 0 && a[i].dish.restaurantId == b[0].dish.restaurantId && a[i].quantity >= 1
    {
      assert a[i] in b;
    }
  }

  lemma {:induction false} DeleteFromCartKeepsWellFormed(st: CartState, id: int)
    requires WellFormedCart(st.cart)
    ensures WellFormedCart(DeleteFromCart(st, id).cart)
  {
    var p := (l: Line) => l.dish.id != id;
    assert DeleteFromCart(st, id).cart == Filter(st.cart, p);
    FilterKeepsUniqueIds(st.cart, p);
    DrawnLinesKeepRestaurantAndQuantities(Filter(st.cart, p), st.cart);
  }

  /** An action whose new cart is well-formed, whose storage is either untouched or a copy
      of the new cart, and whose prompt flags are untouched keeps the store valid. */
  lemma {:induction false} CartChangeKeepsValid(st: CartState, r: CartState)
    requires Valid(st) && WellFormedCart(r.cart)
    requires r.showModal == st.showModal && r.dishToAdd == st.dishToAdd
    requires r.saved == st.saved || r.saved == Some(r.cart)
    ensures Valid(r)
  {
  }

  lemma {:induction false} ConfirmAddToCartKeepsValid(st: CartState)
    requires Valid(st)
    ensures Valid(ConfirmAddToCart(st))
  {
    var r := ConfirmAddToCart(st);
    if st.dishToAdd.Some? {
      assert r.cart == [Line(st.dishToAdd.value, 1)];
    }
  }

  /** Every action a page can take keeps the store valid. */
  lemma {:induction false} StepKeepsValid(st: CartState, a: Action)
    requires Valid(st)
    ensures Valid(Step(st, a))
  {
    match a
    case Add(d) =>
      AddToCartKeepsWellFormed(st, d);
      if CanAddToCart(st, d) {
        CartChangeKeepsValid(st, AddToCart(st, d));
      }
    case Remove(id) =>
      RemoveFromCartKeepsWellFormed(st, id);
      CartChangeKeepsValid(st, RemoveFromCart(st, id));
    case Delete(id) =>
      DeleteFromCartKeepsWellFormed(st, id);
      CartChangeKeepsValid(st, DeleteFromCart(st, id));
    case Confirm => ConfirmAddToCartKeepsValid(st);
    case Cancel =>
    case Clear => CartChangeKeepsValid(st, ClearCart(st));
    case Load =>
  }

  lemma {:induction false} RunKeepsValid(st: CartState, actions: seq<Action>)
    requires Valid(st)
    ensures Valid(Run(st, actions))
    decreases |actions|
  {
    if |actions| > 0 {
      StepKeepsValid(st, actions[0]);
      RunKeepsValid(Step(st, actions[0]), actions[1..]);
    }
  }

  // ---------------------------------------------------------------------------
  // Adding dishes of one restaurant

  /** The `addToCart` calls for a list of dishes, in order. */
  function AddAll(dishes: seq<Dish>): (actions: seq<Action>)
    ensures |actions| == |dishes|
    ensures forall i :: 0 <= i < |dishes| ==> actions[i] == Add(dishes[i])
  {
    seq(|dishes|, i requires 0 <= i < |dishes| => Add(dishes[i]))
  }

  /** Adding dishes that all come from restaurant `rid` to a cart empty or already from
      `rid` never raises the modal and adds one unit per call. */
  lemma {:induction false} AddingOneRestaurantCountsCalls(st: CartState, dishes: seq<Dish>, rid: int)
    requires |st.cart| == 0 || st.cart[0].dish.restaurantId == rid
    requires forall i :: 0 <= i < |dishes| ==> dishes[i].restaurantId == rid
    ensures CartLength(Run(st, AddAll(dishes)).cart) == CartLength(st.cart) + |dishes|
    ensures Run(st, AddAll(dishes)).showModal == st.showModal
    decreases |dishes|
  {
    if |dishes| > 0 {
      var d := dishes[0];
      var next := AddToCart(st, d);
      assert next == AddDishToCart(st, d);
      AddDishToCartAddsOneUnit(st, d);
      // the first line, which alone decides the next call's branch, keeps its restaurant
      if FindIndex(st.cart, d.id) != -1 {
        assert next.cart[0].dish == st.cart[0].dish;
      }
      assert AddAll(dishes)[1..] == AddAll(dishes[1..]);
      AddingOneRestaurantCountsCalls(next, dishes[1..], rid);
    }
  }

  /** Starting from an empty cart, the unit count is the number of `addToCart` calls. */
  lemma {:induction false} FromEmptyCartLengthCountsCalls(saved: Option<seq<Line>>, dishes: seq<Dish>, rid: int)
    requires forall i :: 0 <= i < |dishes| ==> dishes[i].restaurantId == rid
    ensures CartLength(Run(Fresh(saved), AddAll(dishes)).cart) == |dishes|
  {
    AddingOneRestaurantCountsCalls(Fresh(saved), dishes, rid);
  }

  // ---------------------------------------------------------------------------
  // The conflict round

  /** A foreign dish followed by confirmation leaves a cart of just that dish. */
  lemma {:induction false} ConflictThenConfirm(st: CartState, dish: Dish)
    requires |st.cart| > 0 && st.cart[0].dish.restaurantId != dish.restaurantId
    ensures var r := ConfirmAddToCart(AddToCart(st, dish));
            && r.cart == [Line(dish, 1)]
            && CartLength(r.cart) == 1
            && !r.showModal && r.dishToAdd == None
            && r.saved == Some([Line(dish, 1)])
  {
  }

  /** A foreign dish followed by cancellation leaves the cart and storage as they were and
      puts a valid store back into its exact earlier state when no prompt was open. */
  lemma {:induction false} ConflictThenCancel(st: CartState, dish: Dish)
    requires |st.cart| > 0 && st.cart[0].dish.restaurantId != dish.restaurantId
    ensures var r := CancelClearCart(AddToCart(st, dish));
            && r.cart == st.cart && r.saved == st.saved
            && !r.showModal && r.dishToAdd == None
    ensures Valid(st) && !st.showModal ==> CancelClearCart(AddToCart(st, dish)) == st
  {
  }

  // ---------------------------------------------------------------------------
  // Storage

  /** What a freshly started store reads back after `loadCartFromLocalStorage`. */
  function Reload(st: CartState): Option<seq<Line>>
  {
    var restarted := LoadCartFromLocalStorage(Fresh(st.saved));
    if st.saved.Some? then Some(restarted.cart) else None
  }

  /** After every action that writes storage, a fresh store reloads the cart exactly. */
  lemma {:induction false} PersistingActionsRoundTrip(st: CartState, a: Action)
    requires a.Remove? || a.Delete? || a.Clear? || (a.Add? && CanAddToCart(st, a.dish))
    ensures Reload(Step(st, a)) == Some(Step(st, a).cart)
  {
  }

  /** `confirmAddToCart` with no pending dish empties the cart without writing storage, so
      a reload brings back the cart as it was last saved. */
  lemma {:induction false} ConfirmWithoutPendingDishLeavesStaleEntry(st: CartState)
    requires st.dishToAdd.None?
    ensures ConfirmAddToCart(st).cart == []
    ensures Reload(ConfirmAddToCart(st)) == Reload(st)
  {
  }
}
