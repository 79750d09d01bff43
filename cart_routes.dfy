/**
 * The cart routes. Each handler looks up the requesting user's cart (the
 * user comes from the authentication middleware), searches its lines for an
 * item, and writes the changed lines back. The changes are specified by the
 * functions AddLine, SetQuantity and RemoveItem, whose lemmas state what they
 * do to the lines and that they keep "at most one line per item".
 */
module CartRoutes {
  import opened Common
  import opened ItemSchema
  import opened Persistence

  /** The lines of a user's cart; a user without a cart has none. */
  function CartOf(carts: map<UserId, seq<Line>>, user: UserId): seq<Line>
  {
    if user in carts then carts[user] else []
  }

  predicate HasItem(lines: seq<Line>, id: ItemId)
  {
    exists k :: 0 <= k < |lines| && lines[k].item == id
  }

  /** JavaScript's `quantity || 1`: a missing or zero quantity counts as 1, any other number as given. */
  function AddedQuantity(quantity: Option<int>): (q: int)
    ensures q != 0
    ensures quantity.None? ==> q == 1
    ensures quantity == Some(0) ==> q == 1
    ensures quantity.Some? && quantity.value != 0 ==> q == quantity.value
  {
    if quantity.None? || quantity.value == 0 then 1 else quantity.value
  }

  /** The `findIndex` search: the index of the first line holding `id`, or -1 when there is none. */
  method FindIndex(lines: seq<Line>, id: ItemId) returns (i: int)
    ensures -1 <= i < |lines|
    ensures i == -1 <==> !HasItem(lines, id)
    ensures i >= 0 ==> lines[i].item == id && forall k :: 0 <= k < i ==> lines[k].item != id
  {
    i := 0;
    while i < |lines|
      invariant 0 <= i <= |lines|
      invariant forall k :: 0 <= k < i ==> lines[k].item != id
    {
      if lines[i].item == id {
        return;
      }
      i := i + 1;
    }
    i := -1;
  }

  // ---------------------------------------------------------------------------
  // The cart total reported by GET

  /**
   * The `reduce` over the populated lines: Σ price × quantity, added from the
   * first line to the last. A line whose item no longer exists is populated
   * as null, and reading its price throws: there is no total then.
   */
  function CartTotal(lines: seq<Line>, items: map<ItemId, Item>): (r: Option<int>)
    ensures r.Some? <==> forall k :: 0 <= k < |lines| ==> lines[k].item in items
  {
    if lines == [] then Some(0)
    else
      var init := lines[..|lines| - 1];
      var last := lines[|lines| - 1];
      assert forall k :: 0 <= k < |init| ==> init[k] == lines[k];
      match CartTotal(init, items)
      case None => None
      case Some(sum) =>
        if last.item in items then Some(sum + items[last.item].price * last.quantity) else None
  }

  /** With valid items and positive quantities the total is never negative. */
  lemma {:induction false} CartTotalNonNegative(lines: seq<Line>, items: map<ItemId, Item>)
    requires ValidCatalog(items)
    requires forall k :: 0 <= k < |lines| ==> lines[k].quantity >= 1
    requires CartTotal(lines, items).Some?
    ensures CartTotal(lines, items).value >= 0
  {
    if lines != [] {
      var init := lines[..|lines| - 1];
      var last := lines[|lines| - 1];
      assert forall k :: 0 <= k < |init| ==> init[k] == lines[k];
      CartTotalNonNegative(init, items);
      assert ValidItem(items[last.item]);
    }
  }

  // ---------------------------------------------------------------------------
  // Adding an item

  /**
   * The lines after adding `q` of item `id`: the first line of that item has
   * its quantity raised by `q`; without one, a new line is appended.
   */
  function AddLine(lines: seq<Line>, id: ItemId, q: int): seq<Line>
  {
    if lines == [] then [Line(id, q)]
    else if lines[0].item == id then [Line(id, lines[0].quantity + q)] + lines[1..]
    else [lines[0]] + AddLine(lines[1..], id, q)
  }

  /** Adding an item the cart holds (first at `i`) raises that line only; the line count is unchanged. */
  lemma {:induction false} AddLineMerges(lines: seq<Line>, id: ItemId, q: int, i: nat)
    requires i < |lines| && lines[i].item == id
    requires forall k :: 0 <= k < i ==> lines[k].item != id
    ensures AddLine(lines, id, q) == lines[i := Line(id, lines[i].quantity + q)]
    decreases i
  {
    if i > 0 {
      AddLineMerges(lines[1..], id, q, i - 1);
    }
  }

  /** Adding an item the cart does not hold appends exactly one line at the end. */
  lemma {:induction false} AddLineAppends(lines: seq<Line>, id: ItemId, q: int)
    requires !HasItem(lines, id)
    ensures AddLine(lines, id, q) == lines + [Line(id, q)]
  {
    if lines != [] {
      assert lines[0].item != id;
      assert !HasItem(lines[1..], id) by {
        forall k | 0 <= k < |lines[1..]| ensures lines[1..][k].item != id {
          assert lines[1..][k] == lines[k + 1];
        }
      }
      AddLineAppends(lines[1..], id, q);
      assert lines == [lines[0]] + lines[1..];
    }
  }

  /** Adding keeps at most one line per item. */
  lemma AddLineDistinct(lines: seq<Line>, id: ItemId, q: int)
    requires DistinctItems(lines)
    ensures DistinctItems(AddLine(lines, id, q))
    ensures HasItem(AddLine(lines, id, q), id)
  {
    if HasItem(lines, id) {
      var i :| 0 <= i < |lines| && lines[i].item == id;
      AddLineMerges(lines, id, q, i);
      assert AddLine(lines, id, q)[i].item == id;
    } else {
      AddLineAppends(lines, id, q);
      assert AddLine(lines, id, q)[|lines|].item == id;
    }
  }

  // ---------------------------------------------------------------------------
  // Setting a quantity

  /** The lines with the quantity of the first line of item `id` set to `q`. */
  function SetQuantity(lines: seq<Line>, id: ItemId, q: int): seq<Line>
  {
    if lines == [] then []
    else if lines[0].item == id then [Line(id, q)] + lines[1..]
    else [lines[0]] + SetQuantity(lines[1..], id, q)
  }

  /** Setting the quantity of an item the cart holds (first at `i`) changes that line's quantity and nothing else. */
  lemma {:induction false} SetQuantityAt(lines: seq<Line>, id: ItemId, q: int, i: nat)
    requires i < |lines| && lines[i].item == id
    requires forall k :: 0 <= k < i ==> lines[k].item != id
    ensures SetQuantity(lines, id, q) == lines[i := Line(id, q)]
    decreases i
  {
    if i > 0 {
      SetQuantityAt(lines[1..], id, q, i - 1);
    }
  }

  /** Setting a quantity keeps at most one line per item. */
  lemma SetQuantityDistinct(lines: seq<Line>, id: ItemId, q: int)
    requires DistinctItems(lines) && HasItem(lines, id)
    ensures DistinctItems(SetQuantity(lines, id, q))
  {
    var i :| 0 <= i < |lines| && lines[i].item == id;
    SetQuantityAt(lines, id, q, i);
  }

  // ---------------------------------------------------------------------------
  // Removing an item

  /** The `filter` that drops every line of item `id` and keeps the others in order. */
  function RemoveItem(lines: seq<Line>, id: ItemId): seq<Line>
  {
    if lines == [] then []
    else (if lines[0].item == id then [] else [lines[0]]) + RemoveItem(lines[1..], id)
  }

  /** The lines kept are exactly the lines of other items. */
  lemma {:induction false} RemoveItemMembers(lines: seq<Line>, id: ItemId)
    ensures forall l :: l in RemoveItem(lines, id) <==> l in lines && l.item != id
  {
    if lines != [] {
      RemoveItemMembers(lines[1..], id);
      assert lines == [lines[0]] + lines[1..];
    }
  }

  /** The filter works piecewise, so the kept lines stay in their original order. */
  lemma {:induction false} RemoveItemConcat(a: seq<Line>, b: seq<Line>, id: ItemId)
    ensures RemoveItem(a + b, id) == RemoveItem(a, id) + RemoveItem(b, id)
  {
    if a != [] {
      RemoveItemConcat(a[1..], b, id);
      assert (a + b)[0] == a[0];
      assert (a + b)[1..] == a[1..] + b;
      var head := if a[0].item == id then [] else [a[0]];
      calc {
        RemoveItem(a + b, id);
        head + RemoveItem(a[1..] + b, id);
        head + (RemoveItem(a[1..], id) + RemoveItem(b, id));
        (head + RemoveItem(a[1..], id)) + RemoveItem(b, id);
        RemoveItem(a, id) + RemoveItem(b, id);
      }
    } else {
      assert a + b == b;
    }
  }

  /** Removing an item the cart does not hold leaves the lines unchanged. */
  lemma {:induction false} RemoveItemAbsent(lines: seq<Line>, id: ItemId)
    requires !HasItem(lines, id)
    ensures RemoveItem(lines, id) == lines
  {
    if lines != [] {
      assert lines[0].item != id;
      assert !HasItem(lines[1..], id) by {
        forall k | 0 <= k < |lines[1..]| ensures lines[1..][k].item != id {
          assert lines[1..][k] == lines[k + 1];
        }
      }
      RemoveItemAbsent(lines[1..], id);
      assert lines == [lines[0]] + lines[1..];
    }
  }

  /** Removal is idempotent. */
  lemma RemoveItemIdempotent(lines: seq<Line>, id: ItemId)
    ensures RemoveItem(RemoveItem(lines, id), id) == RemoveItem(lines, id)
  {
    var r := RemoveItem(lines, id);
    RemoveItemMembers(lines, id);
    assert !HasItem(r, id) by {
      forall k | 0 <= k < |r| ensures r[k].item != id {
        assert r[k] in r;
      }
    }
    RemoveItemAbsent(r, id);
  }

  /** In a cart with one line per item, removing the item of line `k` deletes exactly that line. */
  lemma RemoveItemAt(lines: seq<Line>, id: ItemId, k: nat)
    requires DistinctItems(lines)
    requires k < |lines| && lines[k].item == id
    ensures RemoveItem(lines, id) == lines[..k] + lines[k + 1..]
  {
    var a, b := lines[..k], lines[k + 1..];
    assert lines == a + [lines[k]] + b;
    assert !HasItem(a, id) by {
      forall j | 0 <= j < |a| ensures a[j].item != id {
        assert a[j] == lines[j];
      }
    }
    assert !HasItem(b, id) by {
      forall j | 0 <= j < |b| ensures b[j].item != id {
        assert b[j] == lines[k + 1 + j];
      }
    }
    RemoveItemConcat(a + [lines[k]], b, id);
    RemoveItemConcat(a, [lines[k]], id);
    RemoveItemAbsent(a, id);
    RemoveItemAbsent(b, id);
  }

  /** Removing keeps at most one line per item. */
  lemma RemoveItemDistinct(lines: seq<Line>, id: ItemId)
    requires DistinctItems(lines)
    ensures DistinctItems(RemoveItem(lines, id))
    ensures !HasItem(RemoveItem(lines, id), id)
  {
    if HasItem(lines, id) {
      var k :| 0 <= k < |lines| && lines[k].item == id;
      RemoveItemAt(lines, id, k);
      var r := RemoveItem(lines, id);
      forall j | 0 <= j < |r| ensures r[j].item != id {
        if j < k {
          assert r[j] == lines[j];
        } else {
          assert r[j] == lines[j + 1];
        }
      }
    } else {
      RemoveItemAbsent(lines, id);
    }
  }

  // ---------------------------------------------------------------------------
  // Clearing

  /** The carts after clearing a user's cart: an existing cart keeps no lines, a missing one stays missing. */
  function Cleared(carts: map<UserId, seq<Line>>, user: UserId): (r: map<UserId, seq<Line>>)
    ensures r.Keys == carts.Keys
    ensures user in r ==> r[user] == []
    ensures forall u :: u in carts && u != user ==> r[u] == carts[u]
  {
    if user in carts then carts[user := []] else carts
  }

  /** Clearing twice has the effect of clearing once. */
  lemma ClearIdempotent(carts: map<UserId, seq<Line>>, user: UserId)
    ensures Cleared(Cleared(carts, user), user) == Cleared(carts, user)
  {
  }

  // ---------------------------------------------------------------------------
  // The handlers

  datatype CartView = CartView(lines: seq<Line>, total: int)

  /** GET: the user's cart, created empty when missing, with its total. */
  method GetCart(db: Store, user: UserId) returns (r: Result<CartView, HttpError>)
    requires db.Valid()
    modifies db
    ensures db.Valid()
    ensures db.items == old(db.items) && db.orders == old(db.orders)
    ensures db.carts == if user in old(db.carts) then old(db.carts) else old(db.carts)[user := []]
    ensures match CartTotal(db.carts[user], db.items)
            case Some(t) => r == Ok(CartView(db.carts[user], t))
            case None => r == Err(HttpError(InternalError, "Error fetching cart"))
    ensures user !in old(db.carts) ==> r == Ok(CartView([], 0))
  {
    if user !in db.carts {
      db.carts := db.carts[user := []];
    }
    var lines := db.carts[user];
    var total := CartTotal(lines, db.items);
    if total.None? {
      return Err(HttpError(InternalError, "Error fetching cart"));
    }
    r := Ok(CartView(lines, total.value));
  }

  /**
   * POST: add an item. The stock is compared with the quantity being added
   * only, not with what the cart already holds.
   */
  method AddToCart(db: Store, user: UserId, itemId: Option<ItemId>, quantity: Option<int>)
    returns (r: Result<seq<Line>, HttpError>)
    requires db.Valid()
    modifies db
    ensures db.Valid()
    ensures db.items == old(db.items) && db.orders == old(db.orders)
    ensures itemId.None? || itemId.value == [] ==> r == Err(HttpError(BadRequest, "Item ID is required"))
    ensures (itemId.Some? && itemId.value != [] && itemId.value !in old(db.items))
              ==> r == Err(HttpError(NotFound, "Item not found"))
    ensures (itemId.Some? && itemId.value != [] && itemId.value in old(db.items)
              && old(db.items)[itemId.value].stock < AddedQuantity(quantity))
              ==> r == Err(HttpError(BadRequest, "Not enough stock available"))
    ensures (itemId.Some? && itemId.value != [] && itemId.value in old(db.items)
              && old(db.items)[itemId.value].stock >= AddedQuantity(quantity))
              ==> r == Ok(AddLine(CartOf(old(db.carts), user), itemId.value, AddedQuantity(quantity)))
    ensures r.Ok? ==> db.carts == old(db.carts)[user := r.value]
    ensures r.Err? ==> db.carts == old(db.carts)
  {
    if itemId.None? || itemId.value == [] {
      return Err(HttpError(BadRequest, "Item ID is required"));
    }
    var id := itemId.value;
    if id !in db.items {
      return Err(HttpError(NotFound, "Item not found"));
    }
    var q := AddedQuantity(quantity);
    if db.items[id].stock < q {
      return Err(HttpError(BadRequest, "Not enough stock available"));
    }
    var lines := CartOf(db.carts, user);
    ghost var before := lines;
    var i := FindIndex(lines, id);
    if i > -1 {
      AddLineMerges(lines, id, q, i);
      lines := lines[i := Line(id, lines[i].quantity + q)];
    } else {
      AddLineAppends(lines, id, q);
      lines := lines + [Line(id, q)];
    }
    AddLineDistinct(before, id, q);
    db.carts := db.carts[user := lines];
    r := Ok(lines);
  }

  /** PUT /:itemId: set the quantity of a line, after four checks in a fixed order. */
  method UpdateQuantity(db: Store, user: UserId, itemId: ItemId, quantity: int)
    returns (r: Result<seq<Line>, HttpError>)
    requires db.Valid()
    modifies db
    ensures db.Valid()
    ensures db.items == old(db.items) && db.orders == old(db.orders)
    ensures quantity < 1 ==> r == Err(HttpError(BadRequest, "Quantity must be at least 1"))
    ensures quantity >= 1 && user !in old(db.carts) ==> r == Err(HttpError(NotFound, "Cart not found"))
    ensures (quantity >= 1 && user in old(db.carts) && !HasItem(old(db.carts)[user], itemId))
              ==> r == Err(HttpError(NotFound, "Item not in cart"))
    ensures (quantity >= 1 && user in old(db.carts) && HasItem(old(db.carts)[user], itemId)
              && itemId !in old(db.items))
              ==> r == Err(HttpError(InternalError, "Error updating cart"))
    ensures (quantity >= 1 && user in old(db.carts) && HasItem(old(db.carts)[user], itemId)
              && itemId in old(db.items) && old(db.items)[itemId].stock < quantity)
              ==> r == Err(HttpError(BadRequest, "Not enough stock available"))
    ensures (quantity >= 1 && user in old(db.carts) && HasItem(old(db.carts)[user], itemId)
              && itemId in old(db.items) && old(db.items)[itemId].stock >= quantity)
              ==> r == Ok(SetQuantity(old(db.carts)[user], itemId, quantity))
    ensures r.Ok? ==> db.carts == old(db.carts)[user := r.value]
    ensures r.Err? ==> db.carts == old(db.carts)
  {
    if quantity < 1 {
      return Err(HttpError(BadRequest, "Quantity must be at least 1"));
    }
    if user !in db.carts {
      return Err(HttpError(NotFound, "Cart not found"));
    }
    var lines := db.carts[user];
    var i := FindIndex(lines, itemId);
    if i == -1 {
      return Err(HttpError(NotFound, "Item not in cart"));
    }
    // A deleted item is looked up as null; reading its stock throws.
    if itemId !in db.items {
      return Err(HttpError(InternalError, "Error updating cart"));
    }
    if db.items[itemId].stock < quantity {
      return Err(HttpError(BadRequest, "Not enough stock available"));
    }
    SetQuantityAt(lines, itemId, quantity, i);
    SetQuantityDistinct(lines, itemId, quantity);
    lines := lines[i := Line(itemId, quantity)];
    db.carts := db.carts[user := lines];
    r := Ok(lines);
  }

  /** DELETE /:itemId: drop every line of the item; an item not in the cart is not an error. */
  method RemoveFromCart(db: Store, user: UserId, itemId: ItemId) returns (r: Result<seq<Line>, HttpError>)
    requires db.Valid()
    modifies db
    ensures db.Valid()
    ensures db.items == old(db.items) && db.orders == old(db.orders)
    ensures user !in old(db.carts) ==> r == Err(HttpError(NotFound, "Cart not found")) && db.carts == old(db.carts)
    ensures user in old(db.carts) ==> r == Ok(RemoveItem(old(db.carts)[user], itemId))
                                      && db.carts == old(db.carts)[user := r.value]
  {
    if user !in db.carts {
      return Err(HttpError(NotFound, "Cart not found"));
    }
    var lines := RemoveItem(db.carts[user], itemId);
    RemoveItemDistinct(db.carts[user], itemId);
    db.carts := db.carts[user := lines];
    r := Ok(lines);
  }

  /** DELETE /: empty the user's cart if there is one; the cart sent back is null when there is none. */
  method ClearCart(db: Store, user: UserId) returns (r: Option<seq<Line>>)
    requires db.Valid()
    modifies db
    ensures db.Valid()
    ensures db.items == old(db.items) && db.orders == old(db.orders)
    ensures db.carts == Cleared(old(db.carts), user)
    ensures r == if user in old(db.carts) then Some([]) else None
  {
    if user in db.carts {
      db.carts := db.carts[user := []];
      return Some([]);
    }
    r := None;
  }
}
