/**
 * The in-memory stand-in for the document store the route handlers use: the
 * item catalog, one cart per user, and the list of placed orders. Carts and
 * orders are documents of their own; the handlers in CartRoutes and
 * OrderRoutes read and replace the fields of one Store object.
 */
module Persistence {
  import opened Common
  import opened ItemSchema

  /** Orders are numbered by their position in the order list. */
  type OrderId = nat

  /** One line of a cart: an item reference and a quantity. */
  datatype Line = Line(item: ItemId, quantity: int)

  datatype Status = Pending | Processing | Shipped | Delivered | Cancelled

  /** One line of an order: the item, the quantity bought and the unit price paid. */
  datatype OrderLine = OrderLine(item: ItemId, quantity: int, price: int)

  datatype Order = Order(id: OrderId, user: UserId, lines: seq<OrderLine>, totalAmount: int, status: Status)

  /** The sum of price times quantity over the lines, accumulated from the first line to the last. */
  function OrderTotal(lines: seq<OrderLine>): int
  {
    if lines == [] then 0
    else OrderTotal(lines[..|lines| - 1]) + lines[|lines| - 1].price * lines[|lines| - 1].quantity
  }

  /** At most one line per item id. */
  predicate DistinctItems(lines: seq<Line>)
  {
    forall i, j :: 0 <= i < j < |lines| ==> lines[i].item != lines[j].item
  }

  /** Every item of the catalog satisfies the item schema; in particular no stock is negative. */
  predicate ValidCatalog(items: map<ItemId, Item>)
  {
    forall id :: id in items ==> ValidItem(items[id])
  }

  class Store {
    var items: map<ItemId, Item>
    var carts: map<UserId, seq<Line>>
    var orders: seq<Order>

    /**
     * The invariant every handler keeps: stored items are valid, each cart
     * holds at most one line per item, and each order sits at the position
     * of its id and has the total of its own lines.
     */
    ghost predicate Valid()
      reads this
    {
      && ValidCatalog(items)
      && (forall u :: u in carts ==> DistinctItems(carts[u]))
      && (forall k :: 0 <= k < |orders| ==> orders[k].id == k && orders[k].totalAmount == OrderTotal(orders[k].lines))
    }

    /** A store over a given catalog, with no carts and no orders yet. */
    constructor (catalog: map<ItemId, Item>)
      requires ValidCatalog(catalog)
      ensures Valid()
      ensures items == catalog && carts == map[] && orders == []
    {
      items := catalog;
      carts := map[];
      orders := [];
    }
  }
}
