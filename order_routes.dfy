/**
 * The order routes. Checkout walks the cart's lines in order; for each one it
 * re-reads the item, checks the stock, decrements it and saves it at once, so
 * a failure on a later line returns without undoing the decrements already
 * made. Only when every line passes is the order stored and the cart emptied.
 *
 * The walk is specified by Apply (the catalog after the decrements of a run
 * of lines), Passes (every line finds its item with enough stock when its
 * turn comes) and Snapshot (the order lines), each defined over a prefix of
 * the cart so that the loop's invariants can name them directly.
 */
module OrderRoutes {
  import opened Common
  import opened ItemSchema
  import opened Persistence
  import CartRoutes

  // ---------------------------------------------------------------------------
  // Specification of the checkout walk

  /** Line `l` finds its item with at least `l.quantity` in stock. */
  predicate CanTake(items: map<ItemId, Item>, l: Line)
  {
    l.item in items && items[l.item].stock >= l.quantity
  }

  /** The catalog after the stock of `l`'s item is decremented by `l.quantity`. */
  function Take(items: map<ItemId, Item>, l: Line): map<ItemId, Item>
  {
    if l.item in items then items[l.item := items[l.item].(stock := items[l.item].stock - l.quantity)]
    else items
  }

  /** The catalog after the lines are taken one after another, in cart order. */
  function Apply(items: map<ItemId, Item>, lines: seq<Line>): map<ItemId, Item>
  {
    if lines == [] then items
    else Take(Apply(items, lines[..|lines| - 1]), lines[|lines| - 1])
  }

  /** Every line, when its turn comes, finds its item with enough stock left after the earlier lines. */
  predicate Passes(items: map<ItemId, Item>, lines: seq<Line>)
  {
    lines == [] ||
    (Passes(items, lines[..|lines| - 1]) && CanTake(Apply(items, lines[..|lines| - 1]), lines[|lines| - 1]))
  }

  /** Checkout stops at line `k`: all lines before it passed, and it does not. */
  predicate FailsAt(items: map<ItemId, Item>, lines: seq<Line>, k: int)
  {
    0 <= k < |lines| && Passes(items, lines[..k]) && !CanTake(Apply(items, lines[..k]), lines[k])
  }

  /**
   * The response of a failing line. A deleted item is populated as null, and
   * reading its id throws (500); otherwise the stock is too low (400).
   */
  function FailureError(items: map<ItemId, Item>, l: Line): HttpError
  {
    if l.item !in items then HttpError(InternalError, "Error creating order")
    else HttpError(BadRequest, "Not enough stock for " + items[l.item].name)
  }

  /** The order lines: per cart line, its item, its quantity and the price of the item as re-read for it. */
  function Snapshot(items: map<ItemId, Item>, lines: seq<Line>): seq<OrderLine>
    requires Passes(items, lines)
  {
    if lines == [] then []
    else
      var last := lines[|lines| - 1];
      Snapshot(items, lines[..|lines| - 1])
        + [OrderLine(last.item, last.quantity, Apply(items, lines[..|lines| - 1])[last.item].price)]
  }

  /** The total quantity of the lines that reference item `id`. */
  function QuantityOf(lines: seq<Line>, id: ItemId): int
  {
    if lines == [] then 0
    else QuantityOf(lines[..|lines| - 1], id) + (if lines[|lines| - 1].item == id then lines[|lines| - 1].quantity else 0)
  }

  // ---------------------------------------------------------------------------
  // Properties of the walk

  /**
   * Taking a run of lines keeps the same items and changes nothing but stock:
   * each item's stock drops by exactly the total quantity of the lines that
   * reference it.
   */
  lemma {:induction false} ApplyStock(items: map<ItemId, Item>, lines: seq<Line>)
    ensures Apply(items, lines).Keys == items.Keys
    ensures forall id :: id in items ==>
      Apply(items, lines)[id] == items[id].(stock := items[id].stock - QuantityOf(lines, id))
  {
    if lines != [] {
      ApplyStock(items, lines[..|lines| - 1]);
    }
  }

  /** Line `k` of the run can be taken when its turn comes. */
  predicate TakeableAt(items: map<ItemId, Item>, lines: seq<Line>, k: nat)
    requires k < |lines|
  {
    CanTake(Apply(items, lines[..k]), lines[k])
  }

  /** Whether line `k` can be taken depends only on the lines up to it. */
  lemma TakeableAtPrefix(items: map<ItemId, Item>, lines: seq<Line>, n: nat, k: nat)
    requires k < n <= |lines|
    ensures TakeableAt(items, lines[..n], k) == TakeableAt(items, lines, k)
  {
    assert lines[..n][..k] == lines[..k];
  }

  /** Passes holds of a run of lines exactly when every line can be taken at its turn. */
  lemma {:induction false} PassesEach(items: map<ItemId, Item>, lines: seq<Line>)
    ensures Passes(items, lines) <==> forall k :: 0 <= k < |lines| ==> TakeableAt(items, lines, k)
  {
    if lines != [] {
      var n := |lines| - 1;
      var init := lines[..n];
      PassesEach(items, init);
      forall k | 0 <= k < n ensures TakeableAt(items, init, k) == TakeableAt(items, lines, k) {
        TakeableAtPrefix(items, lines, n, k);
      }
      assert Passes(items, lines) == (Passes(items, init) && TakeableAt(items, lines, n));
    }
  }

  /** A prefix of a passing run passes. */
  lemma PassesPrefix(items: map<ItemId, Item>, lines: seq<Line>, n: nat)
    requires Passes(items, lines) && n <= |lines|
    ensures Passes(items, lines[..n])
  {
    PassesEach(items, lines);
    PassesEach(items, lines[..n]);
    forall k | 0 <= k < n ensures TakeableAt(items, lines[..n], k) {
      TakeableAtPrefix(items, lines, n, k);
    }
  }

  /** A run fails at `k` exactly when line `k` is the first that cannot be taken. */
  lemma FailsAtFirst(items: map<ItemId, Item>, lines: seq<Line>, k: nat)
    requires k < |lines|
    ensures FailsAt(items, lines, k) <==>
      !TakeableAt(items, lines, k) && forall j :: 0 <= j < k ==> TakeableAt(items, lines, j)
  {
    PassesEach(items, lines[..k]);
    forall j | 0 <= j < k ensures TakeableAt(items, lines[..k], j) == TakeableAt(items, lines, j) {
      TakeableAtPrefix(items, lines, k, j);
    }
  }

  /** A run that stops at some line does not pass, and a run that does not pass stops at some line. */
  lemma {:induction false} FailsIffNotPasses(items: map<ItemId, Item>, lines: seq<Line>)
    ensures !Passes(items, lines) <==> exists k :: FailsAt(items, lines, k)
  {
    PassesEach(items, lines);
    if !Passes(items, lines) {
      var k := FirstNotTakeable(items, lines, |lines|);
      FailsAtFirst(items, lines, k);
    } else {
      forall k | FailsAt(items, lines, k) ensures false {
        FailsAtFirst(items, lines, k);
      }
    }
  }

  /** The first line that cannot be taken, searching below `n`. */
  lemma {:induction false} FirstNotTakeable(items: map<ItemId, Item>, lines: seq<Line>, n: nat) returns (k: nat)
    requires n <= |lines|
    requires exists j :: 0 <= j < n && !TakeableAt(items, lines, j)
    ensures k < n && !TakeableAt(items, lines, k)
    ensures forall j :: 0 <= j < k ==> TakeableAt(items, lines, j)
    decreases n
  {
    if exists j :: 0 <= j < n - 1 && !TakeableAt(items, lines, j) {
      k := FirstNotTakeable(items, lines, n - 1);
    } else {
      k := n - 1;
    }
  }

  /** One more line taken: the specification functions of the walk extend by that line. */
  lemma TakeStep(items: map<ItemId, Item>, lines: seq<Line>, k: nat)
    requires k < |lines| && Passes(items, lines[..k]) && CanTake(Apply(items, lines[..k]), lines[k])
    ensures Passes(items, lines[..k + 1])
    ensures Apply(items, lines[..k + 1]) == Take(Apply(items, lines[..k]), lines[k])
    ensures Snapshot(items, lines[..k + 1]) ==
      Snapshot(items, lines[..k]) + [OrderLine(lines[k].item, lines[k].quantity, Apply(items, lines[..k])[lines[k].item].price)]
  {
    assert lines[..k + 1][..k] == lines[..k];
  }

  /** The total of one more order line. */
  lemma OrderTotalAppend(lines: seq<OrderLine>, l: OrderLine)
    ensures OrderTotal(lines + [l]) == OrderTotal(lines) + l.price * l.quantity
  {
    assert (lines + [l])[..|lines|] == lines;
  }

  /** Checkout never drives a stock negative: a valid catalog stays valid along a passing run. */
  lemma {:induction false} PassesKeepsValid(items: map<ItemId, Item>, lines: seq<Line>)
    requires ValidCatalog(items) && Passes(items, lines)
    ensures ValidCatalog(Apply(items, lines))
  {
    if lines != [] {
      PassesKeepsValid(items, lines[..|lines| - 1]);
    }
  }

  /**
   * One order line per cart line, in the same order, copying the quantity;
   * the price recorded is the item's price when checkout ran (only stock
   * changes along the way).
   */
  lemma {:induction false} SnapshotLines(items: map<ItemId, Item>, lines: seq<Line>)
    requires Passes(items, lines)
    ensures |Snapshot(items, lines)| == |lines|
    ensures forall k :: 0 <= k < |lines| ==>
      (lines[k].item in items &&
       Snapshot(items, lines)[k] == OrderLine(lines[k].item, lines[k].quantity, items[lines[k].item].price))
  {
    if lines != [] {
      var n := |lines| - 1;
      SnapshotLines(items, lines[..n]);
      ApplyStock(items, lines[..n]);
    }
  }

  /** The order's total is the cart total GET reported for the same cart and catalog. */
  lemma {:induction false} OrderTotalIsCartTotal(items: map<ItemId, Item>, lines: seq<Line>)
    requires Passes(items, lines)
    ensures CartRoutes.CartTotal(lines, items) == Some(OrderTotal(Snapshot(items, lines)))
  {
    if lines != [] {
      var n := |lines| - 1;
      OrderTotalIsCartTotal(items, lines[..n]);
      ApplyStock(items, lines[..n]);
      var s := Snapshot(items, lines);
      assert s[..|s| - 1] == Snapshot(items, lines[..n]);
    }
  }

  /**
   * Checkout is not atomic: with stock 5 of "a" and none of "b", checking out
   * [a × 2, b × 1] fails at the second line, and the stock of "a" has
   * already dropped to 3.
   */
  lemma CheckoutNotAtomic()
    ensures var items := map["a" := Item("A", "first", 1000, "a.png", Books, 5),
                             "b" := Item("B", "second", 500, "b.png", Books, 0)];
            var cart := [Line("a", 2), Line("b", 1)];
            && FailsAt(items, cart, 1)
            && Apply(items, cart[..1])["a"].stock == 3
            && FailureError(Apply(items, cart[..1]), cart[1]) == HttpError(BadRequest, "Not enough stock for B")
  {
    var items := map["a" := Item("A", "first", 1000, "a.png", Books, 5),
                     "b" := Item("B", "second", 500, "b.png", Books, 0)];
    var cart := [Line("a", 2), Line("b", 1)];
    assert cart[..1] == [Line("a", 2)] && cart[..1][..0] == [];
  }

  /**
   * Two lines, a × 2 at 10.00 and b × 1 at 5.00, with enough stock: the order
   * copies both lines with their prices, totals 25.00, and the stocks drop
   * by 2 and 1.
   */
  lemma CheckoutTwoLines()
    ensures var items := map["a" := Item("A", "first", 1000, "a.png", Home, 10),
                             "b" := Item("B", "second", 500, "b.png", Home, 10)];
            var cart := [Line("a", 2), Line("b", 1)];
            && Passes(items, cart)
            && Snapshot(items, cart) == [OrderLine("a", 2, 1000), OrderLine("b", 1, 500)]
            && OrderTotal(Snapshot(items, cart)) == 2500
            && Apply(items, cart)["a"].stock == 8 && Apply(items, cart)["b"].stock == 9
  {
    var items := map["a" := Item("A", "first", 1000, "a.png", Home, 10),
                     "b" := Item("B", "second", 500, "b.png", Home, 10)];
    var cart := [Line("a", 2), Line("b", 1)];
    var first := cart[..1];
    assert first == [Line("a", 2)] && first[..0] == [] && cart[..|cart| - 1] == first;
    assert Apply(items, []) == items && Snapshot(items, []) == [];
    assert Apply(items, first) == Take(items, Line("a", 2));
    assert items["a"].stock == 10 && CanTake(items, Line("a", 2));
    assert Passes(items, first) by {
      assert Passes(items, first[..0]) && Apply(items, first[..0]) == items;
    }
    var s1 := Snapshot(items, first);
    assert s1 == [] + [OrderLine("a", 2, items["a"].price)];
    assert Passes(items, cart);
    var s := Snapshot(items, cart);
    assert s == s1 + [OrderLine("b", 1, 500)];
    OrderTotalAppend([], OrderLine("a", 2, 1000));
    OrderTotalAppend(s1, OrderLine("b", 1, 500));
  }

  /**
   * Neither adding to the cart nor checkout rejects a negative quantity: a
   * line of a × -3 passes with no stock at all, raises the stock to 3 and
   * gives an order total of -30.00.
   */
  lemma CheckoutNegativeQuantity()
    ensures CartRoutes.AddedQuantity(Some(-3)) == -3
    ensures var items := map["a" := Item("A", "first", 1000, "a.png", Sports, 0)];
            var cart := [Line("a", -3)];
            && Passes(items, cart)
            && Apply(items, cart)["a"].stock == 3
            && OrderTotal(Snapshot(items, cart)) == -3000
  {
    var items := map["a" := Item("A", "first", 1000, "a.png", Sports, 0)];
    var cart := [Line("a", -3)];
    assert cart[..0] == [];
    OrderTotalAppend([], OrderLine("a", -3, 1000));
  }

  // ---------------------------------------------------------------------------
  // Order statuses

  function StatusName(s: Status): string
  {
    match s
    case Pending => "pending"
    case Processing => "processing"
    case Shipped => "shipped"
    case Delivered => "delivered"
    case Cancelled => "cancelled"
  }

  /** The membership test against the five valid status names. */
  function ParseStatus(s: string): (r: Option<Status>)
    ensures r.Some? ==> StatusName(r.value) == s
    ensures r.None? ==> forall st: Status :: StatusName(st) != s
  {
    if s == "pending" then Some(Pending)
    else if s == "processing" then Some(Processing)
    else if s == "shipped" then Some(Shipped)
    else if s == "delivered" then Some(Delivered)
    else if s == "cancelled" then Some(Cancelled)
    else None
  }

  lemma ParseStatusName(s: Status)
    ensures ParseStatus(StatusName(s)) == Some(s)
  {
  }

  /** An order with id `id` belongs to `user`. */
  predicate Owns(orders: seq<Order>, user: UserId, id: OrderId)
  {
    exists k :: 0 <= k < |orders| && orders[k].id == id && orders[k].user == user
  }

  /**
   * GET /: the user's orders and no one else's, newest first. Orders are
   * stored in the order they were placed, so sorting by creation time
   * descending walks the list from its end.
   */
  function OrdersOf(orders: seq<Order>, user: UserId): (r: seq<Order>)
    ensures forall o :: o in r <==> o in orders && o.user == user
    ensures |r| <= |orders|
  {
    if orders == [] then []
    else
      var n := |orders| - 1;
      assert orders == orders[..n] + [orders[n]];
      (if orders[n].user == user then [orders[n]] else []) + OrdersOf(orders[..n], user)
  }

  /** Strictly decreasing ids along the list. */
  predicate NewestFirst(r: seq<Order>)
  {
    forall i, j :: 0 <= i < j < |r| ==> r[i].id > r[j].id
  }

  /** Putting an order in front of newer-first orders with smaller ids keeps them newest first. */
  lemma ConsNewestFirst(o: Order, rest: seq<Order>)
    requires NewestFirst(rest)
    requires forall p :: p in rest ==> p.id < o.id
    ensures NewestFirst([o] + rest)
  {
    var r := [o] + rest;
    forall i, j | 0 <= i < j < |r| ensures r[i].id > r[j].id {
      assert r[j] == rest[j - 1];
      if i > 0 {
        assert r[i] == rest[i - 1];
      }
    }
  }

  /** With ids numbering the positions, the listed orders have strictly decreasing ids. */
  lemma {:induction false} OrdersOfNewestFirst(orders: seq<Order>, user: UserId)
    requires forall k :: 0 <= k < |orders| ==> orders[k].id == k
    ensures NewestFirst(OrdersOf(orders, user))
  {
    if orders != [] {
      var n := |orders| - 1;
      var init := orders[..n];
      OrdersOfNewestFirst(init, user);
      var rest := OrdersOf(init, user);
      if orders[n].user == user {
        forall p | p in rest ensures p.id < orders[n].id {
          var k :| 0 <= k < n && init[k] == p;
        }
        ConsNewestFirst(orders[n], rest);
        assert OrdersOf(orders, user) == [orders[n]] + rest;
      } else {
        assert OrdersOf(orders, user) == [] + rest;
      }
    }
  }

  // ---------------------------------------------------------------------------
  // The handlers

  /** GET /:id: an order is found only for its owner. */
  method GetOrder(db: Store, user: UserId, id: OrderId) returns (r: Result<Order, HttpError>)
    requires db.Valid()
    ensures r.Ok? <==> Owns(db.orders, user, id)
    ensures r.Ok? ==> r.value in db.orders && r.value.id == id && r.value.user == user
    ensures r.Err? ==> r.error == HttpError(NotFound, "Order not found")
  {
    if id < |db.orders| && db.orders[id].user == user {
      return Ok(db.orders[id]);
    }
    r := Err(HttpError(NotFound, "Order not found"));
  }

  /** The order lines collected by the checkout loop and the total accumulated over them. */
  datatype Prepared = Prepared(lines: seq<OrderLine>, totalAmount: int)

  /**
   * The loop of checkout: take the cart lines in order, re-reading each item,
   * checking its stock and decrementing it at once, while collecting the
   * order lines and their total. A failing line ends the walk and leaves the
   * decrements of the lines before it in place.
   */
  method TakeLines(db: Store, lines: seq<Line>) returns (r: Result<Prepared, HttpError>)
    requires ValidCatalog(db.items)
    modifies db`items
    ensures ValidCatalog(db.items)
    ensures r.Ok? <==> Passes(old(db.items), lines)
    ensures r.Ok? ==> && db.items == Apply(old(db.items), lines)
                      && r.value.lines == Snapshot(old(db.items), lines)
                      && r.value.totalAmount == OrderTotal(r.value.lines)
    ensures r.Err? ==> exists k :: && FailsAt(old(db.items), lines, k)
                                   && db.items == Apply(old(db.items), lines[..k])
                                   && r.error == FailureError(Apply(old(db.items), lines[..k]), lines[k])
  {
    ghost var start := db.items;
    var orderLines: seq<OrderLine> := [];
    var totalAmount := 0;
    var k := 0;
    while k < |lines|
      invariant 0 <= k <= |lines|
      invariant Passes(start, lines[..k])
      invariant db.items == Apply(start, lines[..k])
      invariant orderLines == Snapshot(start, lines[..k])
      invariant totalAmount == OrderTotal(orderLines)
      invariant ValidCatalog(db.items)
    {
      var line := lines[k];
      // A deleted item is populated as null and reading its id throws.
      if line.item !in db.items {
        assert FailsAt(start, lines, k);
        FailsIffNotPasses(start, lines);
        return Err(HttpError(InternalError, "Error creating order"));
      }
      var item := db.items[line.item];
      if item.stock < line.quantity {
        assert FailsAt(start, lines, k);
        FailsIffNotPasses(start, lines);
        return Err(HttpError(BadRequest, "Not enough stock for " + item.name));
      }
      TakeStep(start, lines, k);
      OrderTotalAppend(orderLines, OrderLine(line.item, line.quantity, item.price));
      db.items := db.items[line.item := item.(stock := item.stock - line.quantity)];
      orderLines := orderLines + [OrderLine(line.item, line.quantity, item.price)];
      totalAmount := totalAmount + item.price * line.quantity;
      k := k + 1;
    }
    assert lines[..k] == lines;
    r := Ok(Prepared(orderLines, totalAmount));
  }

  /** POST /: checkout. */
  method Checkout(db: Store, user: UserId) returns (r: Result<Order, HttpError>)
    requires db.Valid()
    modifies db
    ensures db.Valid()
    ensures (user !in old(db.carts) || old(db.carts)[user] == [])
              ==> r == Err(HttpError(BadRequest, "Cart is empty")) && db.items == old(db.items)
    ensures r.Err? ==> db.orders == old(db.orders) && db.carts == old(db.carts)
    ensures (user in old(db.carts) && old(db.carts)[user] != [])
              ==> (r.Ok? <==> Passes(old(db.items), old(db.carts)[user]))
    ensures r.Ok? ==>
              && user in old(db.carts)
              && var cart := old(db.carts)[user];
              && Passes(old(db.items), cart)
              && db.items == Apply(old(db.items), cart)
              && r.value == Order(|old(db.orders)|, user, Snapshot(old(db.items), cart),
                                  OrderTotal(Snapshot(old(db.items), cart)), Pending)
              && db.orders == old(db.orders) + [r.value]
              && db.carts == old(db.carts)[user := []]
    ensures (r.Err? && user in old(db.carts) && old(db.carts)[user] != []) ==>
              var cart := old(db.carts)[user];
              exists k :: && FailsAt(old(db.items), cart, k)
                          && db.items == Apply(old(db.items), cart[..k])
                          && r.error == FailureError(Apply(old(db.items), cart[..k]), cart[k])
  {
    if user !in db.carts || |db.carts[user]| == 0 {
      return Err(HttpError(BadRequest, "Cart is empty"));
    }
    var lines := db.carts[user];
    var prepared := TakeLines(db, lines);
    if prepared.Err? {
      return Err(prepared.error);
    }
    var order := Order(|db.orders|, user, prepared.value.lines, prepared.value.totalAmount, Pending);
    db.orders := db.orders + [order];
    db.carts := db.carts[user := []];
    r := Ok(order);
  }

  /** PUT /:id: set the status of one of the user's own orders; nothing else changes. */
  method UpdateStatus(db: Store, user: UserId, id: OrderId, status: Option<string>)
    returns (r: Result<Order, HttpError>)
    requires db.Valid()
    modifies db
    ensures db.Valid()
    ensures db.items == old(db.items) && db.carts == old(db.carts)
    ensures (status.None? || ParseStatus(status.value).None?)
              ==> r == Err(HttpError(BadRequest, "Invalid status")) && db.orders == old(db.orders)
    ensures (status.Some? && ParseStatus(status.value).Some? && !Owns(old(db.orders), user, id))
              ==> r == Err(HttpError(NotFound, "Order not found")) && db.orders == old(db.orders)
    ensures (status.Some? && ParseStatus(status.value).Some? && Owns(old(db.orders), user, id))
              ==> && id < |old(db.orders)|
                  && r == Ok(old(db.orders)[id].(status := ParseStatus(status.value).value))
                  && db.orders == old(db.orders)[id := r.value]
  {
    if status.None? || ParseStatus(status.value).None? {
      return Err(HttpError(BadRequest, "Invalid status"));
    }
    var s := ParseStatus(status.value).value;
    if !(id < |db.orders| && db.orders[id].user == user) {
      return Err(HttpError(NotFound, "Order not found"));
    }
    var order := db.orders[id].(status := s);
    db.orders := db.orders[id := order];
    r := Ok(order);
  }
}
