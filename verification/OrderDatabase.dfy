/** The store of orders: insert-only, one record per transaction. */
module OrderDatabases {
  import opened Options

  datatype OrderKind = StartOrder | ReuseOrder(startOrderId: string)

  datatype Order = Order(
    kind: OrderKind,
    timestamp: int,
    consumer: string,
    payer: string,
    datatokenAddress: string,
    nftAddress: string,
    did: string)

  /** Inserting a record. An id that is taken is refused, and the error swallowed. */
  function Inserted(orders: map<string, Order>, id: string, order: Order): map<string, Order> {
    if id in orders then orders else orders[id := order]
  }

  class OrderDatabase {
    var orders: map<string, Order>

    constructor ()
      ensures orders == map[]
    {
      orders := map[];
    }

    method Create(id: string, order: Order)
      modifies this
      ensures orders == Inserted(old(orders), id, order)
    {
      if id !in orders {
        orders := orders[id := order];
      }
    }

    method Retrieve(id: string) returns (r: Option<Order>)
      ensures r == Lookup(orders, id)
    {
      r := Lookup(orders, id);
    }
  }
}
