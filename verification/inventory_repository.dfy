/** The other writers of on-hand stock. */
module InventoryRepository {
  import opened Common
  import opened Stock
  import opened DatabaseTables

  /** The audit row of a manual adjustment. */
  datatype Movement = Movement(inventoryId: InventoryId, delta: int, previousOnHand: int, newOnHand: int)

  datatype Adjusted = Adjusted(onHand: int, changed: bool, movement: Option<Movement>)

  /** Add stock; the count is 0 when the product has no inventory row. */
  method Restock(client: Database, inventoryId: InventoryId, addedQuantity: int) returns (count: nat)
    modifies client`stock
    ensures count == if inventoryId in old(client.stock) then 1 else 0
    ensures client.stock ==
      if count == 1 then old(client.stock)[inventoryId := AddOnHand(old(client.stock)[inventoryId], addedQuantity)]
      else old(client.stock)
  {
    if inventoryId !in client.stock {
      return 0;
    }
    client.stock := client.stock[inventoryId := AddOnHand(client.stock[inventoryId], addedQuantity)];
    count := 1;
  }

  /**
   * Set the shelf to a target, rounded down and never negative. A movement is recorded exactly
   * when the shelf changes, it accounts for the change, and the holds are not looked at.
   */
  method AdjustWithin(client: Database, inventoryId: InventoryId, targetQuantity: real) returns (result: Option<Adjusted>)
    modifies client`stock
    ensures result.None? <==> inventoryId !in old(client.stock)
    ensures result.None? ==> client.stock == old(client.stock)
    ensures result.Some? ==>
      var was, onHand := old(client.stock)[inventoryId], Max(0, targetQuantity.Floor);
      client.stock == old(client.stock)[inventoryId := StockRow(onHand, was.reserved)] &&
      result.value.onHand == onHand >= 0 &&
      (result.value.changed <==> onHand != was.onHand) &&
      result.value.movement ==
        (if onHand == was.onHand then None else Some(Movement(inventoryId, onHand - was.onHand, was.onHand, onHand)))
    ensures Balanced(old(client.State())) ==> Balanced(client.State())
  {
    if inventoryId !in client.stock {
      return None;
    }
    var inventory := client.stock[inventoryId];
    var newOnHand := Max(0, targetQuantity.Floor);
    var delta := newOnHand - inventory.onHand;
    var movement := None;
    if delta != 0 {
      client.stock := client.stock[inventoryId := inventory.(onHand := newOnHand)];
      movement := Some(Movement(inventoryId, delta, inventory.onHand, newOnHand));
    }
    result := Some(Adjusted(newOnHand, delta != 0, movement));
  }

  /** An adjustment leaves more reserved than is on the shelf exactly when its target is below the holds. */
  lemma AdjustOversells(row: StockRow, target: real)
    ensures Available(row.(onHand := Max(0, target.Floor))) < 0 <==> row.reserved > 0 && target < row.reserved as real
  {
    var n := target.Floor;
    assert n as real <= target < (n + 1) as real;
    if n < row.reserved {
      assert (n + 1) as real <= row.reserved as real;
    } else {
      assert row.reserved as real <= n as real;
    }
  }
}
