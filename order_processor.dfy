/**
 * The per-user order ledger (services/OrderProcessor.js): a user id, a
 * trimmed user name and the list of that user's orders, each order holding
 * its products and a running total.
 *
 * The ledger itself is a class, because the service updates it in place;
 * an order is a value, and the service writes an updated order back at
 * its position in `orders`.
 */
module Orders {
  import opened Wrappers
  import opened Strings
  import opened Numbers

  /** One product line of an order; `value` is the amount as `toFixed(2)` wrote it. */
  datatype Product = Product(productId: Num, value: string)

  /** An order: its id, its date as YYYY-MM-DD, its products in arrival order and their running total. */
  datatype Order = Order(orderId: Num, date: string, products: seq<Product>, total: Money)

  /** The value of a ledger: what an `OrderProcessor` object holds at one moment. */
  datatype User = User(userId: Num, userName: string, orders: seq<Order>)

  /**
   * The date reformatting of `addOrder`: `YYYYMMDD` becomes `YYYY-MM-DD` by
   * cutting at fixed positions; a shorter input gives shorter pieces.
   */
  function FormatDate(date: string): string {
    Substring(date, 0, 4) + "-" + Substring(date, 4, 6) + "-" + Substring(date, 6, 8)
  }

  /** The order `addOrder` creates: no products yet and a zero total. */
  function NewOrder(orderId: Num, date: string): Order {
    Order(orderId, FormatDate(date), [], Cents(0))
  }

  /**
   * The position `orders.find(o => o.orderId === id)` stops at: the first
   * order whose id is strictly equal to `id`. A NaN id is never found.
   */
  function FindOrderIndex(orders: seq<Order>, orderId: Num): (r: Option<nat>)
    ensures r.Some? ==> r.value < |orders| && StrictEquals(orders[r.value].orderId, orderId)
    ensures r.Some? ==> forall j :: 0 <= j < r.value ==> !StrictEquals(orders[j].orderId, orderId)
    ensures r.None? <==> forall j :: 0 <= j < |orders| ==> !StrictEquals(orders[j].orderId, orderId)
  {
    if orders == [] then None
    else
      var last := |orders| - 1;
      match FindOrderIndex(orders[..last], orderId)
      case Some(i) => Some(i)
      case None => if StrictEquals(orders[last].orderId, orderId) then Some(last) else None
  }

  /** One user's ledger, updated in place by the ingest pipeline. */
  class OrderProcessor {
    const userId: Num
    const userName: string
    var orders: seq<Order>

    /** `new OrderProcessor(userId, userName)`: the id parsed in base 10, the name trimmed, no orders. */
    constructor (userId: string, userName: string)
      ensures this.userId == ParseInt(userId) && this.userName == Trim(userName)
      ensures orders == []
    {
      this.userId := ParseInt(userId);
      this.userName := Trim(userName);
      orders := [];
    }

    function View(): User
      reads this
    {
      User(userId, userName, orders)
    }

    /**
     * `addOrder(orderId, date)`: appends one new, empty order and returns it.
     * (`parseInt(orderId, 10)` of an id that is already a number is that number.)
     */
    method AddOrder(orderId: Num, date: string) returns (order: Order)
      modifies this
      ensures orders == old(orders) + [order]
      ensures order.orderId == orderId && order.date == FormatDate(date)
      ensures order.products == [] && order.total == Cents(0)
      ensures orderId.Int? && old(FindOrder(orderId)).None? ==> FindOrder(orderId) == Some(order)
    {
      order := NewOrder(orderId, date);
      orders := orders + [order];
      assert orders[..|orders| - 1] == old(orders);
    }

    /** `findOrder(orderId)`: the first order with that id, or nothing; NaN finds nothing. */
    function FindOrder(orderId: Num): (r: Option<Order>)
      reads this
      ensures r.Some? ==> r.value in orders && StrictEquals(r.value.orderId, orderId)
      ensures r.Some? ==> exists i :: 0 <= i < |orders| && orders[i] == r.value
                            && forall j :: 0 <= j < i ==> !StrictEquals(orders[j].orderId, orderId)
      ensures r.None? <==> forall o :: o in orders ==> !StrictEquals(o.orderId, orderId)
    {
      match FindOrderIndex(orders, orderId)
      case Some(i) => Some(orders[i])
      case None => None
    }
  }

  // ---------------------------------------------------------------------------
  // Lemmas

  /**
   * On an input of at least eight characters the result has the shape
   * YYYY-MM-DD, and dropping the two dashes gives back the first eight
   * characters.
   */
  lemma FormatDateShape(date: string)
    requires |date| >= 8
    ensures var r := FormatDate(date);
      |r| == 10 && r[4] == '-' && r[7] == '-' && r[..4] + r[5..7] + r[8..] == date[..8]
  {
    var year, month, day := Substring(date, 0, 4), Substring(date, 4, 6), Substring(date, 6, 8);
    var r := FormatDate(date);
    assert r == year + "-" + month + "-" + day;
    assert r[..4] == year && r[5..7] == month && r[8..] == day;
    assert date[..8] == date[0..4] + date[4..6] + date[6..8];
  }

  /** The example of the ledger's unit test: "20220101" becomes "2022-01-01". */
  lemma FormatDateExample()
    ensures FormatDate("20220101") == "2022-01-01"
  {
  }

  /** Adding an order with a fresh integer id makes `find` stop at the new, last position. */
  lemma FindAfterAppend(orders: seq<Order>, order: Order)
    requires FindOrderIndex(orders, order.orderId).None?
    requires order.orderId.Int?
    ensures FindOrderIndex(orders + [order], order.orderId) == Some(|orders|)
  {
    assert (orders + [order])[..|orders|] == orders;
  }

  /** Appending an order does not move where an id already present is found. */
  lemma FindAfterAppendOther(orders: seq<Order>, order: Order, orderId: Num)
    requires FindOrderIndex(orders, orderId).Some?
    ensures FindOrderIndex(orders + [order], orderId) == FindOrderIndex(orders, orderId)
  {
    assert (orders + [order])[..|orders|] == orders;
  }

  /**
   * The ledger unit test's steps: a new ledger finds nothing; after
   * `addOrder(1234, "20220101")` it finds exactly that order, with the date
   * reformatted, and a NaN id still finds nothing.
   */
  method LedgerExample() returns (before: Option<Order>, after: Option<Order>, nan: Option<Order>)
    ensures before == None && nan == None
    ensures after == Some(Order(Int(1234), "2022-01-01", [], Cents(0)))
  {
    var user := new OrderProcessor("156", "John Doe");
    before := user.FindOrder(Int(1234));
    var order := user.AddOrder(Int(1234), "20220101");
    FormatDateExample();
    after := user.FindOrder(Int(1234));
    nan := user.FindOrder(NaN);
  }
}
