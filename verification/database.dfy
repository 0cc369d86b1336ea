/** The three tables as the repositories see them: rows updated in place. */
module DatabaseTables {
  import opened Stock

  class Database {
    var stock: map<InventoryId, StockRow>
    var reservations: Reservations
    var orders: map<OrderId, Order>

    constructor (stock: map<InventoryId, StockRow>)
      ensures State() == Db(stock, map[], map[])
    {
      this.stock := stock;
      reservations := map[];
      orders := map[];
    }

    ghost function State(): Db
      reads this
    {
      Db(stock, reservations, orders)
    }

    ghost predicate Valid()
      reads this
    {
      StockExists(State())
    }
  }
}
