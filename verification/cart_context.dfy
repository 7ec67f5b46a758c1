/** The client cart reducer: add one unit of a product, remove one unit, and
    clear. Entries are keyed by (restaurant id, product id). */
module CartContext {

  datatype Product = Product(productId: nat, productName: string, price: real)

  datatype CartItem = CartItem(
    restaurantId: nat,
    productId: nat,
    productName: string,
    price: real,
    quantity: int)

  predicate HasKey(item: CartItem, restaurantId: nat, productId: nat) {
    item.restaurantId == restaurantId && item.productId == productId
  }

  predicate SameKey(a: CartItem, b: CartItem) {
    HasKey(a, b.restaurantId, b.productId)
  }

  /** At most one entry per key. */
  predicate UniqueKeys(items: seq<CartItem>) {
    forall i, j :: 0 <= i < j < |items| ==> !SameKey(items[i], items[j])
  }

  /** Every entry holds at least one unit. */
  predicate Positive(items: seq<CartItem>) {
    forall k :: 0 <= k < |items| ==> items[k].quantity >= 1
  }

  predicate CartInvariant(items: seq<CartItem>) {
    UniqueKeys(items) && Positive(items)
  }

  /** The index of the first entry with the key, or -1 (`findIndex`). */
  function FindIndex(items: seq<CartItem>, restaurantId: nat, productId: nat): (r: int)
    ensures -1 <= r < |items|
    ensures r == -1 <==> forall k :: 0 <= k < |items| ==> !HasKey(items[k], restaurantId, productId)
    ensures r >= 0 ==> HasKey(items[r], restaurantId, productId)
    ensures r >= 0 ==> forall k :: 0 <= k < r ==> !HasKey(items[k], restaurantId, productId)
  {
    if |items| == 0 then -1
    else if HasKey(items[0], restaurantId, productId) then 0
    else
      var rest := FindIndex(items[1..], restaurantId, productId);
      assert forall k :: 1 <= k < |items| ==> items[k] == items[1..][k - 1];
      if rest == -1 then -1 else rest + 1
  }

  /** Adds one unit: an existing entry for the key gets one more unit in
      place; otherwise a new entry with quantity 1 and the product's id, name
      and price is appended. */
  function AddToCart(items: seq<CartItem>, restaurantId: nat, product: Product): (r: seq<CartItem>)
    ensures var i := FindIndex(items, restaurantId, product.productId);
      i >= 0 ==>
        && |r| == |items|
        && r[i] == items[i].(quantity := items[i].quantity + 1)
        && forall k :: 0 <= k < |items| && k != i ==> r[k] == items[k]
    ensures FindIndex(items, restaurantId, product.productId) == -1 ==>
      && |r| == |items| + 1
      && r[..|items|] == items
      && r[|items|] == CartItem(restaurantId, product.productId, product.productName, product.price, 1)
    ensures CartInvariant(items) ==> CartInvariant(r)
  {
    var i := FindIndex(items, restaurantId, product.productId);
    if i != -1 then items[i := items[i].(quantity := items[i].quantity + 1)]
    else items + [CartItem(restaurantId, product.productId, product.productName, product.price, 1)]
  }

  /** The add step as the source writes it. The spread copies the list but
      not its entries, so the increment lands in the entry the previous state
      shares with the new one. The result is the new list together with the
      previous list as the call leaves it. */
  function AddToCartInPlace(items: seq<CartItem>, restaurantId: nat, product: Product): (r: (seq<CartItem>, seq<CartItem>))
    ensures r.0 == AddToCart(items, restaurantId, product)
    ensures FindIndex(items, restaurantId, product.productId) >= 0 ==> r.1 == r.0
    ensures FindIndex(items, restaurantId, product.productId) == -1 ==> r.1 == items
  {
    var i := FindIndex(items, restaurantId, product.productId);
    if i != -1 then
      var bumped := items[i := items[i].(quantity := items[i].quantity + 1)];
      (bumped, bumped)
    else (items + [CartItem(restaurantId, product.productId, product.productName, product.price, 1)], items)
  }

  /** React may run a state updater a second time on the same previous state
      (StrictMode does so in development) and keep the second result. With the
      in-place step the second run sees the first run's increment, so one
      click adds two units. */
  lemma InPlaceReplayDoubleCounts(items: seq<CartItem>, restaurantId: nat, product: Product)
    requires FindIndex(items, restaurantId, product.productId) >= 0
    ensures var i := FindIndex(items, restaurantId, product.productId);
            var prevAfter := AddToCartInPlace(items, restaurantId, product).1;
            var kept := AddToCartInPlace(prevAfter, restaurantId, product).0;
            |kept| == |items| && kept[i].quantity == items[i].quantity + 2
  {
    var pid := product.productId;
    var i := FindIndex(items, restaurantId, pid);
    var prevAfter := AddToCartInPlace(items, restaurantId, product).1;
    assert HasKey(prevAfter[i], restaurantId, pid);
    assert FindIndex(prevAfter, restaurantId, pid) == i;
  }

  /** The intended behaviour, which `AddToCart` has: the updater leaves the
      previous state alone, so a replayed run gives the same list, with one
      unit more than before the click. */
  lemma ReplayedAddCountsOnce(items: seq<CartItem>, restaurantId: nat, product: Product)
    requires FindIndex(items, restaurantId, product.productId) >= 0
    ensures var i := FindIndex(items, restaurantId, product.productId);
            var kept := AddToCart(items, restaurantId, product);
            |kept| == |items| && kept[i].quantity == items[i].quantity + 1
  {
  }

  /** One unit fewer on every entry with the key (the `map` step). */
  function Decrement(items: seq<CartItem>, restaurantId: nat, productId: nat): (r: seq<CartItem>)
    ensures |r| == |items|
    ensures forall k :: 0 <= k < |items| ==>
      r[k] == if HasKey(items[k], restaurantId, productId)
              then items[k].(quantity := items[k].quantity - 1) else items[k]
  {
    if |items| == 0 then []
    else
      var head := if HasKey(items[0], restaurantId, productId)
                  then items[0].(quantity := items[0].quantity - 1) else items[0];
      [head] + Decrement(items[1..], restaurantId, productId)
  }

  /** The entries with a positive quantity, in order (the `filter` step). */
  function KeepPositive(items: seq<CartItem>): (r: seq<CartItem>)
    ensures |r| <= |items|
    ensures forall x :: x in r <==> x in items && x.quantity > 0
    ensures Positive(r)
  {
    if |items| == 0 then []
    else if items[0].quantity > 0 then [items[0]] + KeepPositive(items[1..])
    else KeepPositive(items[1..])
  }

  lemma {:induction false} KeepPositiveAppend(a: seq<CartItem>, b: seq<CartItem>)
    ensures KeepPositive(a + b) == KeepPositive(a) + KeepPositive(b)
    decreases |a|
  {
    if |a| > 0 {
      assert (a + b)[1..] == a[1..] + b;
      KeepPositiveAppend(a[1..], b);
    } else {
      assert a + b == b;
    }
  }

  lemma {:induction false} KeepPositiveOfPositive(items: seq<CartItem>)
    requires Positive(items)
    ensures KeepPositive(items) == items
    decreases |items|
  {
    if |items| > 0 {
      KeepPositiveOfPositive(items[1..]);
    }
  }

  /** Dropping the first entry keeps keys unique. */
  lemma UniqueKeysTail(items: seq<CartItem>)
    requires |items| > 0 && UniqueKeys(items)
    ensures UniqueKeys(items[1..])
  {
    var tail := items[1..];
    forall i, j | 0 <= i < j < |tail| ensures !SameKey(tail[i], tail[j]) {
      assert tail[i] == items[i + 1] && tail[j] == items[j + 1];
    }
  }

  /** An entry whose key no entry of `rest` has can be put in front of it. */
  lemma UniqueKeysCons(x: CartItem, rest: seq<CartItem>)
    requires UniqueKeys(rest)
    requires forall y :: y in rest ==> !SameKey(x, y)
    ensures UniqueKeys([x] + rest)
  {
    var r := [x] + rest;
    forall i, j | 0 <= i < j < |r| ensures !SameKey(r[i], r[j]) {
      assert r[j] == rest[j - 1];
      if i > 0 {
        assert r[i] == rest[i - 1];
      }
    }
  }

  /** Filtering keeps at most one entry per key. */
  lemma {:induction false} KeepPositiveUnique(items: seq<CartItem>)
    requires UniqueKeys(items)
    ensures UniqueKeys(KeepPositive(items))
    decreases |items|
  {
    if |items| > 0 {
      var tail := items[1..];
      UniqueKeysTail(items);
      KeepPositiveUnique(tail);
      var rest := KeepPositive(tail);
      if items[0].quantity > 0 {
        forall y | y in rest ensures !SameKey(items[0], y) {
          var j :| 0 <= j < |tail| && tail[j] == y;
          assert items[j + 1] == y;
        }
        UniqueKeysCons(items[0], rest);
      }
    }
  }

  /** Removes one unit of the key's entry and drops entries left with no
      units. Whatever the input, every remaining entry holds at least one
      unit, and at most one entry per key is kept if that held before. */
  function RemoveFromCart(items: seq<CartItem>, restaurantId: nat, productId: nat): (r: seq<CartItem>)
    ensures Positive(r)
    ensures |r| <= |items|
    ensures UniqueKeys(items) ==> UniqueKeys(r)
  {
    var dec := Decrement(items, restaurantId, productId);
    assert UniqueKeys(items) ==> UniqueKeys(dec) by {
      if UniqueKeys(items) {
        forall i, j | 0 <= i < j < |dec| ensures !SameKey(dec[i], dec[j]) {
          assert !SameKey(items[i], items[j]);
        }
      }
    }
    if UniqueKeys(dec) then KeepPositiveUnique(dec); KeepPositive(dec)
    else KeepPositive(dec)
  }

  /** Filtering a positive prefix and suffix around one empty entry drops
      just that entry. */
  lemma KeepPositiveDropsOne(a: seq<CartItem>, x: CartItem, b: seq<CartItem>)
    requires Positive(a) && Positive(b) && x.quantity <= 0
    ensures KeepPositive(a + [x] + b) == a + b
  {
    var ax := a + [x];
    KeepPositiveAppend(ax, b);
    KeepPositiveAppend(a, [x]);
    KeepPositiveOfPositive(a);
    KeepPositiveOfPositive(b);
    assert KeepPositive([x]) == [] by {
      assert [x][1..] == [];
    }
    assert KeepPositive(ax) == a;
  }

  /** Under the invariant, decrementing touches only the key's entry. */
  lemma DecrementOnlyAt(items: seq<CartItem>, restaurantId: nat, productId: nat, i: int)
    requires UniqueKeys(items)
    requires i == FindIndex(items, restaurantId, productId) && i >= 0
    ensures Decrement(items, restaurantId, productId) == items[i := items[i].(quantity := items[i].quantity - 1)]
  {
    var dec := Decrement(items, restaurantId, productId);
    var expected := items[i := items[i].(quantity := items[i].quantity - 1)];
    forall k | 0 <= k < |items| ensures dec[k] == expected[k] {
      if k > i {
        assert !SameKey(items[i], items[k]);
      }
    }
    assert dec == expected;
  }

  /** With no entry for the key, removal leaves a valid cart as it was. */
  lemma RemoveAbsent(items: seq<CartItem>, restaurantId: nat, productId: nat)
    requires CartInvariant(items)
    requires FindIndex(items, restaurantId, productId) == -1
    ensures RemoveFromCart(items, restaurantId, productId) == items
  {
    assert Decrement(items, restaurantId, productId) == items;
    KeepPositiveOfPositive(items);
  }

  /** An entry with several units loses exactly one; nothing else changes. */
  lemma RemoveOneOfSeveral(items: seq<CartItem>, restaurantId: nat, productId: nat, i: int)
    requires CartInvariant(items)
    requires i == FindIndex(items, restaurantId, productId) && i >= 0
    requires items[i].quantity > 1
    ensures RemoveFromCart(items, restaurantId, productId) == items[i := items[i].(quantity := items[i].quantity - 1)]
  {
    DecrementOnlyAt(items, restaurantId, productId, i);
    var dec := Decrement(items, restaurantId, productId);
    assert Positive(dec);
    KeepPositiveOfPositive(dec);
  }

  /** An entry with a single unit is dropped; the others keep their order. */
  lemma RemoveLastUnit(items: seq<CartItem>, restaurantId: nat, productId: nat, i: int)
    requires CartInvariant(items)
    requires i == FindIndex(items, restaurantId, productId) && i >= 0
    requires items[i].quantity == 1
    ensures RemoveFromCart(items, restaurantId, productId) == items[..i] + items[i + 1..]
  {
    DecrementOnlyAt(items, restaurantId, productId, i);
    var x := items[i].(quantity := 0);
    SplitAt(items, i, x);
    assert Positive(items[..i]) && Positive(items[i + 1..]);
    KeepPositiveDropsOne(items[..i], x, items[i + 1..]);
  }

  /** Replacing entry `i` is cutting the list around it. */
  lemma SplitAt(items: seq<CartItem>, i: int, x: CartItem)
    requires 0 <= i < |items|
    ensures items[i := x] == items[..i] + [x] + items[i + 1..]
  {
  }

  /** The first entry with the key is at `i` when `i` has it and no earlier
      one does. */
  lemma FindIndexAt(items: seq<CartItem>, restaurantId: nat, productId: nat, i: int)
    requires 0 <= i < |items| && HasKey(items[i], restaurantId, productId)
    requires forall k :: 0 <= k < i ==> !HasKey(items[k], restaurantId, productId)
    ensures FindIndex(items, restaurantId, productId) == i
  {
  }

  /** Adding one unit and then removing one unit of the same key restores a
      cart that keeps the invariant. */
  lemma AddThenRemove(items: seq<CartItem>, restaurantId: nat, product: Product)
    requires CartInvariant(items)
    ensures RemoveFromCart(AddToCart(items, restaurantId, product), restaurantId, product.productId) == items
  {
    if FindIndex(items, restaurantId, product.productId) >= 0 {
      AddThenRemoveExisting(items, restaurantId, product);
    } else {
      AddThenRemoveNew(items, restaurantId, product);
    }
  }

  lemma AddThenRemoveExisting(items: seq<CartItem>, restaurantId: nat, product: Product)
    requires CartInvariant(items)
    requires FindIndex(items, restaurantId, product.productId) >= 0
    ensures RemoveFromCart(AddToCart(items, restaurantId, product), restaurantId, product.productId) == items
  {
    var pid := product.productId;
    var i := FindIndex(items, restaurantId, pid);
    var bumped := items[i := items[i].(quantity := items[i].quantity + 1)];
    AddExistingBumps(items, restaurantId, product, i);
    BumpKeepsFirstIndex(items, restaurantId, pid, i);
    RemoveOneOfSeveral(bumped, restaurantId, pid, i);
    UnbumpRestores(items, i);
  }

  lemma AddExistingBumps(items: seq<CartItem>, restaurantId: nat, product: Product, i: int)
    requires i == FindIndex(items, restaurantId, product.productId) && i >= 0
    ensures AddToCart(items, restaurantId, product) == items[i := items[i].(quantity := items[i].quantity + 1)]
  {
  }

  /** After one more unit at the first entry with the key, that entry is still
      the first with the key, and holds more than one unit. */
  lemma BumpKeepsFirstIndex(items: seq<CartItem>, restaurantId: nat, productId: nat, i: int)
    requires CartInvariant(items)
    requires i == FindIndex(items, restaurantId, productId) && i >= 0
    ensures var bumped := items[i := items[i].(quantity := items[i].quantity + 1)];
      && CartInvariant(bumped)
      && FindIndex(bumped, restaurantId, productId) == i
      && bumped[i].quantity > 1
  {
    var bumped := items[i := items[i].(quantity := items[i].quantity + 1)];
    assert forall k :: 0 <= k < |items| && k != i ==> bumped[k] == items[k];
    FindIndexAt(bumped, restaurantId, productId, i);
  }

  lemma UnbumpRestores(items: seq<CartItem>, i: int)
    requires 0 <= i < |items|
    ensures var bumped := items[i := items[i].(quantity := items[i].quantity + 1)];
      bumped[i := bumped[i].(quantity := bumped[i].quantity - 1)] == items
  {
  }

  lemma AddThenRemoveNew(items: seq<CartItem>, restaurantId: nat, product: Product)
    requires CartInvariant(items)
    requires FindIndex(items, restaurantId, product.productId) == -1
    ensures RemoveFromCart(AddToCart(items, restaurantId, product), restaurantId, product.productId) == items
  {
    var pid := product.productId;
    var n := |items|;
    var added := AddToCart(items, restaurantId, product);
    assert added == items + [CartItem(restaurantId, pid, product.productName, product.price, 1)];
    assert CartInvariant(added);
    FindIndexAt(added, restaurantId, pid, n);
    RemoveLastUnit(added, restaurantId, pid, n);
    assert added[..n] == items;
    assert added[n + 1..] == [];
  }

  /** Clearing empties the cart, whatever it held; the empty cart keeps the
      invariant and holds no key. */
  function ClearCart(items: seq<CartItem>): (r: seq<CartItem>)
    ensures |r| == 0
    ensures CartInvariant(r)
    ensures forall restaurantId: nat, productId: nat :: FindIndex(r, restaurantId, productId) == -1
  {
    []
  }

  /** After a clear, adding a product gives a one-entry cart holding one unit
      of it, and removing anything leaves the cart empty. */
  lemma AddAfterClear(items: seq<CartItem>, restaurantId: nat, product: Product)
    ensures AddToCart(ClearCart(items), restaurantId, product)
            == [CartItem(restaurantId, product.productId, product.productName, product.price, 1)]
    ensures RemoveFromCart(ClearCart(items), restaurantId, product.productId) == []
  {
    var cleared := ClearCart(items);
    assert FindIndex(cleared, restaurantId, product.productId) == -1;
  }
}
