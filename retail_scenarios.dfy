/** The usage shown in the retail module's documentation, proved from the
    contracts of the operations alone. */
module RetailScenarios {
  import opened Seqs
  import opened RetailInventory

  /** Add a laptop (it gets id 1), set its stock to 45 and its price to 950,
      then order 2 of them for John Doe: the stock drops to 43. */
  method LaptopOrder() returns (inventory: Inventory, order: Order, result: OrderResult)
    ensures inventory.Rows() == [Row(1, "Laptop", "Electronics", 43, 950, "Supplier A")]
    ensures order.products == [(1, 2)] && order.customerInfo == Some("John Doe")
    ensures result == Placed(1)
  {
    inventory := new Inventory();
    var added := inventory.AddProduct("Laptop", "Electronics", 50, 1000, "Supplier A");
    assert inventory.Rows() == [Row(1, "Laptop", "Electronics", 50, 1000, "Supplier A")];
    assert Ids(inventory.Rows()) == [1];
    var updated := inventory.UpdateProduct(1, quantity := Some(45), price := Some(950));
    assert inventory.Rows() == [Row(1, "Laptop", "Electronics", 45, 950, "Supplier A")];
    order := new Order(1, []);
    assert CanServe(inventory.Rows()[0], 1, 2);
    result := order.PlaceOrder(inventory, 1, 2, customerInfo := Some("John Doe"));
  }

  /** The documentation's full sequence: after the laptop is deleted, the
      order for it cannot be placed and changes nothing. */
  method OrderAfterDelete() returns (inventory: Inventory, order: Order, result: OrderResult)
    ensures inventory.Rows() == []
    ensures order.products == [] && order.customerInfo == None
    ensures result == NotPlaced
  {
    inventory := new Inventory();
    var added := inventory.AddProduct("Laptop", "Electronics", 50, 1000, "Supplier A");
    assert Ids(inventory.Rows()) == [1];
    var updated := inventory.UpdateProduct(1, quantity := Some(45), price := Some(950));
    assert Ids(inventory.Rows()) == [1];
    var deleted := inventory.DeleteProduct(1);
    order := new Order(1, []);
    result := order.PlaceOrder(inventory, 1, 2, customerInfo := Some("John Doe"));
  }
}
