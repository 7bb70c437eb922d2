/** The retail inventory and order model: one shared inventory of products,
    each with an id, stock, price and supplier that can be changed in place,
    and orders that take stock out of it. */
module RetailInventory {
  import opened Seqs

  const AddedMessage := "Product added successfully"
  const UpdatedMessage := "Product information updated successfully"
  const DeletedMessage := "Product deleted successfully"
  const NotFoundMessage := "Product not found"
  const PlacedMessagePrefix := "Order placed successfully. Order ID: "
  const OrderFailedMessage := "Order could not be placed. " + "Product not found or insufficient quantity."

  /** What `place_order` answers: success carries the order id that the
      message "Order placed successfully. Order ID: <id>" shows. */
  datatype OrderResult = Placed(orderId: int) | NotPlaced

  /** Python's `str` of an integer: its decimal digits, with a leading `-`
      when negative. */
  function DecimalText(n: int): (s: string)
    ensures |s| > 0
    ensures s[0] == '-' <==> n < 0
    ensures n < 0 ==> |s| > 1 && s[1] != '0'
    ensures n >= 0 ==> (s[0] == '0' <==> n == 0) && (n == 0 ==> s == "0")
    ensures forall i :: (if n < 0 then 1 else 0) <= i < |s| ==> '0' <= s[i] <= '9'
  {
    if n < 0 then "-" + Digits(-n) else Digits(n)
  }

  /** The decimal digits of a natural number, without leading zeros. */
  function Digits(n: nat): (s: string)
    ensures |s| > 0 && (s[0] == '0' ==> n == 0)
    ensures n == 0 ==> s == "0"
    ensures forall i :: 0 <= i < |s| ==> '0' <= s[i] <= '9'
  {
    if n < 10 then [DigitChar(n)] else Digits(n / 10) + [DigitChar(n % 10)]
  }

  /** The character of one decimal digit. */
  function DigitChar(d: nat): (c: char)
    requires d < 10
    ensures '0' <= c <= '9' && c as int - '0' as int == d
  {
    ('0' as int + d) as char
  }

  /** The number a string of decimal digits denotes. */
  function DigitsValue(s: string): int
  {
    if |s| == 0 then 0 else DigitsValue(s[..|s| - 1]) * 10 + (s[|s| - 1] as int - '0' as int)
  }

  /** The number an optionally signed decimal text denotes. */
  function DecimalValue(s: string): int
  {
    if |s| > 0 && s[0] == '-' then -DigitsValue(s[1..]) else DigitsValue(s)
  }

  /** Reading the digits back gives the number. */
  lemma {:induction false} DigitsRoundTrip(n: nat)
    ensures DigitsValue(Digits(n)) == n
  {
    var s := Digits(n);
    if n >= 10 {
      assert s[..|s| - 1] == Digits(n / 10);
      DigitsRoundTrip(n / 10);
    }
  }

  /** Reading the decimal text back gives the integer. */
  lemma DecimalRoundTrip(n: int)
    ensures DecimalValue(DecimalText(n)) == n
  {
    var m: nat := if n < 0 then -n else n;
    var d := Digits(m);
    DigitsRoundTrip(m);
    assert DigitsValue(d) == m;
    if n < 0 {
      assert DecimalText(n) == "-" + d;
      assert ("-" + d)[1..] == d;
    } else {
      assert DecimalText(n) == d && d[0] != '-';
    }
  }

  /** The text `place_order` returns for the outcome. */
  function OrderMessage(r: OrderResult): (msg: string)
    ensures r.NotPlaced? ==> msg == OrderFailedMessage
    ensures r.Placed? ==> |msg| > |PlacedMessagePrefix| && msg[..|PlacedMessagePrefix|] == PlacedMessagePrefix
    ensures r.Placed? ==> DecimalValue(msg[|PlacedMessagePrefix|..]) == r.orderId
    ensures r.Placed? <==> msg != OrderFailedMessage
  {
    match r
    case NotPlaced => OrderFailedMessage
    case Placed(id) =>
      var msg := PlacedMessagePrefix + DecimalText(id);
      assert msg[6] == 'p' && OrderFailedMessage[6] == 'c';
      assert msg[|PlacedMessagePrefix|..] == DecimalText(id);
      DecimalRoundTrip(id);
      msg
  }

  /** Different outcomes, and different order ids, give different messages. */
  lemma OrderMessageInjective(a: OrderResult, b: OrderResult)
    ensures OrderMessage(a) == OrderMessage(b) <==> a == b
  {
    if a.Placed? && b.Placed? && OrderMessage(a) == OrderMessage(b) {
      var n := |PlacedMessagePrefix|;
      assert OrderMessage(a)[n..] == DecimalText(a.orderId);
      assert OrderMessage(b)[n..] == DecimalText(b.orderId);
      DecimalTextInjective(a.orderId, b.orderId);
    }
  }

  lemma DecimalTextInjective(m: int, n: int)
    requires DecimalText(m) == DecimalText(n)
    ensures m == n
  {
    DecimalRoundTrip(m);
    DecimalRoundTrip(n);
  }

  /** The values a product holds at one moment. */
  datatype Row = Row(productId: int, name: string, category: string, quantity: int, price: int, supplier: string)

  // ---------------------------------------------------------------------
  // The inventory as a sequence of rows, and what each operation does to it.

  /** The product ids, in inventory order. */
  function Ids(rows: seq<Row>): seq<int>
  {
    seq(|rows|, i requires 0 <= i < |rows| => rows[i].productId)
  }

  /** Ids strictly increase along the inventory. */
  predicate Increasing(ids: seq<int>)
  {
    forall i, j :: 0 <= i < j < |ids| ==> ids[i] < ids[j]
  }

  /** The id `add_product` gives a new product: one more than the last
      product's id, or 1 for an empty inventory. */
  function NextId(rows: seq<Row>): (n: int)
    ensures |rows| == 0 ==> n == 1
    ensures Increasing(Ids(rows)) ==> forall j :: 0 <= j < |rows| ==> rows[j].productId < n
  {
    assert Increasing(Ids(rows)) ==>
      forall j :: 0 <= j < |rows| ==> rows[j].productId == Ids(rows)[j] <= Ids(rows)[|rows| - 1];
    if |rows| > 0 then rows[|rows| - 1].productId + 1 else 1
  }

  /** The rows after `add_product`: one new row, at the end, with the next id. */
  function Added(rows: seq<Row>, name: string, category: string, quantity: int, price: int, supplier: string): (r: seq<Row>)
    ensures |r| == |rows| + 1 && r[..|rows|] == rows
    ensures r[|rows|] == Row(NextId(rows), name, category, quantity, price, supplier)
  {
    rows + [Row(NextId(rows), name, category, quantity, price, supplier)]
  }

  /** A row with the given fields overwritten; None keeps the current value. */
  function Patched(r: Row, quantity: Option<int>, price: Option<int>, supplier: Option<string>): (p: Row)
    ensures p.productId == r.productId && p.name == r.name && p.category == r.category
    ensures quantity.None? && price.None? && supplier.None? ==> p == r
  {
    r.(quantity := if quantity.Some? then quantity.value else r.quantity,
       price := if price.Some? then price.value else r.price,
       supplier := if supplier.Some? then supplier.value else r.supplier)
  }

  /** The rows after `update_product`: the first row with the id patched. */
  function Updated(rows: seq<Row>, id: int, quantity: Option<int>, price: Option<int>, supplier: Option<string>): (r: seq<Row>)
    ensures |r| == |rows| && Ids(r) == Ids(rows)
    ensures id !in Ids(rows) ==> r == rows
  {
    match IndexOf(Ids(rows), id)
    case None => rows
    case Some(k) =>
      var r := rows[k := Patched(rows[k], quantity, price, supplier)];
      assert forall j :: 0 <= j < |rows| ==> Ids(r)[j] == Ids(rows)[j];
      r
  }

  /** The rows after `delete_product`: the first row with the id taken out. */
  function Deleted(rows: seq<Row>, id: int): (r: seq<Row>)
    ensures id !in Ids(rows) ==> r == rows
    ensures id in Ids(rows) ==> |r| == |rows| - 1
    ensures forall x :: x in r ==> x in rows
  {
    match IndexOf(Ids(rows), id)
    case None => rows
    case Some(k) => rows[..k] + rows[k + 1..]
  }

  /** The row can serve an order for `quantity` units of product `id`. */
  predicate CanServe(r: Row, id: int, quantity: int)
  {
    r.productId == id && r.quantity >= quantity
  }

  /** The first row that can serve the order, as `place_order`'s scan finds it. */
  function ServingIndex(rows: seq<Row>, id: int, quantity: int): (r: Option<nat>)
    ensures r.None? <==> forall j :: 0 <= j < |rows| ==> !CanServe(rows[j], id, quantity)
    ensures r.Some? ==>
      && r.value < |rows| && CanServe(rows[r.value], id, quantity)
      && forall j :: 0 <= j < r.value ==> !CanServe(rows[j], id, quantity)
  {
    if |rows| == 0 then None
    else if CanServe(rows[0], id, quantity) then Some(0)
    else match ServingIndex(rows[1..], id, quantity)
      case None => None
      case Some(k) => Some(k + 1)
  }

  /** A row that can serve the order with none before it is the one the scan finds. */
  lemma ServingIndexUnique(rows: seq<Row>, id: int, quantity: int, i: nat)
    requires i < |rows| && CanServe(rows[i], id, quantity)
    requires forall j :: 0 <= j < i ==> !CanServe(rows[j], id, quantity)
    ensures ServingIndex(rows, id, quantity) == Some(i)
  {
  }

  /** The inventory after row `k` served `quantity` units. */
  function Served(rows: seq<Row>, k: nat, quantity: int): (r: seq<Row>)
    requires k < |rows|
    ensures |r| == |rows| && Ids(r) == Ids(rows)
    ensures r[k].quantity == rows[k].quantity - quantity
    ensures forall j :: 0 <= j < |rows| && j != k ==> r[j] == rows[j]
  {
    var r := rows[k := rows[k].(quantity := rows[k].quantity - quantity)];
    assert forall j :: 0 <= j < |rows| ==> Ids(r)[j] == Ids(rows)[j];
    r
  }

  /** What `customer_info` becomes: a truthy (present, non-empty) new value
      replaces it, anything else keeps it. */
  function NewCustomerInfo(current: Option<string>, given: Option<string>): (r: Option<string>)
    ensures r == given || r == current
    ensures current.Some? && current.value != "" ==> r.Some? && r.value != ""
  {
    if given.Some? && given.value != "" then given else current
  }

  // ---------------------------------------------------------------------
  // Properties of the operations on rows.

  /** Strictly increasing ids are unique, so the first product with an id is
      the only one. */
  lemma IncreasingUnique(rows: seq<Row>, id: int)
    requires Increasing(Ids(rows)) && id in Ids(rows)
    ensures NoDup(Ids(rows))
    ensures var k := IndexOf(Ids(rows), id).value;
      forall j :: 0 <= j < |rows| && rows[j].productId == id ==> j == k
  {
    var k := IndexOf(Ids(rows), id).value;
    forall j | 0 <= j < |rows| && rows[j].productId == id ensures j == k {
      assert Ids(rows)[j] == Ids(rows)[k];
    }
  }

  /** Adding a product keeps ids strictly increasing. */
  lemma AddedIncreasing(rows: seq<Row>, name: string, category: string, quantity: int, price: int, supplier: string)
    requires Increasing(Ids(rows))
    ensures Increasing(Ids(Added(rows, name, category, quantity, price, supplier)))
  {
    var r := Added(rows, name, category, quantity, price, supplier);
    forall i, j | 0 <= i < j < |r| ensures Ids(r)[i] < Ids(r)[j] {
      if j == |rows| {
        assert Ids(rows)[i] <= Ids(rows)[|rows| - 1];
      } else {
        assert Ids(r)[i] == Ids(rows)[i] && Ids(r)[j] == Ids(rows)[j];
      }
    }
  }

  /** `update_product` on a present id patches exactly the first product with
      that id: its id, name and category stay, only the given fields change,
      every other product is unchanged. On an absent id nothing changes. */
  lemma UpdatedPatchesFirst(rows: seq<Row>, id: int, quantity: Option<int>, price: Option<int>, supplier: Option<string>)
    ensures var r := Updated(rows, id, quantity, price, supplier);
      |r| == |rows| && Ids(r) == Ids(rows) &&
      (id !in Ids(rows) ==> r == rows) &&
      (id in Ids(rows) ==>
        var k := IndexOf(Ids(rows), id).value;
        rows[k].productId == id &&
        (forall j :: 0 <= j < k ==> rows[j].productId != id) &&
        r[k].productId == id && r[k].name == rows[k].name && r[k].category == rows[k].category &&
        r[k].quantity == (if quantity.Some? then quantity.value else rows[k].quantity) &&
        r[k].price == (if price.Some? then price.value else rows[k].price) &&
        r[k].supplier == (if supplier.Some? then supplier.value else rows[k].supplier) &&
        forall j :: 0 <= j < |rows| && j != k ==> r[j] == rows[j])
  {
    if id in Ids(rows) {
      var k := IndexOf(Ids(rows), id).value;
      forall j | 0 <= j < k ensures rows[j].productId != id {
        assert Ids(rows)[j] in Ids(rows)[..k];
      }
    }
  }

  /** `delete_product` on a present id removes exactly the first product with
      that id and keeps the others in order; on an absent id nothing changes. */
  lemma DeletedRemovesFirst(rows: seq<Row>, id: int)
    ensures var r := Deleted(rows, id);
      (id !in Ids(rows) ==> r == rows) &&
      (id in Ids(rows) ==>
        var k := IndexOf(Ids(rows), id).value;
        |r| == |rows| - 1 && rows[k].productId == id &&
        (forall j :: 0 <= j < k ==> rows[j].productId != id) &&
        (forall j :: 0 <= j < k ==> r[j] == rows[j]) &&
        (forall j :: k <= j < |r| ==> r[j] == rows[j + 1]))
  {
    if id in Ids(rows) {
      var k := IndexOf(Ids(rows), id).value;
      forall j | 0 <= j < k ensures rows[j].productId != id {
        assert Ids(rows)[j] in Ids(rows)[..k];
      }
    }
  }

  /** Taking one id out of a strictly increasing sequence keeps it strictly increasing. */
  lemma IncreasingWithout(ids: seq<int>, k: nat)
    requires Increasing(ids) && k < |ids|
    ensures Increasing(ids[..k] + ids[k + 1..])
  {
    var r := ids[..k] + ids[k + 1..];
    forall i, j | 0 <= i < j < |r| ensures r[i] < r[j] {
      var i' := if i < k then i else i + 1;
      var j' := if j < k then j else j + 1;
      assert r[i] == ids[i'] && r[j] == ids[j'];
    }
  }

  /** Deleting a product keeps ids strictly increasing. */
  lemma DeletedIncreasing(rows: seq<Row>, id: int)
    requires Increasing(Ids(rows))
    ensures Increasing(Ids(Deleted(rows, id)))
  {
    if id in Ids(rows) {
      var k := IndexOf(Ids(rows), id).value;
      assert Ids(rows[..k] + rows[k + 1..]) == Ids(rows)[..k] + Ids(rows)[k + 1..];
      IncreasingWithout(Ids(rows), k);
    }
  }

  /** Deleting the product just added hands out its id again: the "no
      duplicate product_id" promise holds within the inventory at any one
      time, not across its history. */
  lemma {:induction false} DeletingLastReusesId(rows: seq<Row>, name: string, category: string, quantity: int, price: int, supplier: string)
    requires Increasing(Ids(rows))
    ensures var added := Added(rows, name, category, quantity, price, supplier);
      added[|rows|].productId == NextId(rows) &&
      Deleted(added, NextId(rows)) == rows &&
      NextId(Deleted(added, NextId(rows))) == NextId(rows)
  {
    var added := Added(rows, name, category, quantity, price, supplier);
    var n := NextId(rows);
    assert Ids(added)[|rows|] == n;
    forall j | 0 <= j < |rows| ensures Ids(added)[j] != n {
      assert Ids(rows)[j] <= Ids(rows)[|rows| - 1];
    }
    assert n !in Ids(added)[..|rows|];
    IndexOfUnique(Ids(added), n, |rows|);
    assert added[..|rows|] == rows;
  }

  /** A successful order takes exactly the ordered quantity from the first
      product that can serve it, never leaves that product's stock negative,
      and changes no id and no other product. */
  lemma ServedTakesStock(rows: seq<Row>, id: int, quantity: int)
    requires ServingIndex(rows, id, quantity).Some?
    ensures var k := ServingIndex(rows, id, quantity).value;
      var r := Served(rows, k, quantity);
      Ids(r) == Ids(rows) && rows[k].productId == id &&
      r[k].quantity == rows[k].quantity - quantity && r[k].quantity >= 0 &&
      r[k] == rows[k].(quantity := rows[k].quantity - quantity) &&
      forall j :: 0 <= j < |rows| && j != k ==> r[j] == rows[j]
  {
  }

  /** With strictly increasing ids, an order can be placed exactly when the
      product with that id exists and has enough stock, and it is that
      product that serves it. */
  lemma ServingIsTheProduct(rows: seq<Row>, id: int, quantity: int)
    requires Increasing(Ids(rows))
    ensures ServingIndex(rows, id, quantity).Some? <==>
      id in Ids(rows) && rows[IndexOf(Ids(rows), id).value].quantity >= quantity
    ensures ServingIndex(rows, id, quantity).Some? ==>
      ServingIndex(rows, id, quantity) == IndexOf(Ids(rows), id)
  {
    var s := ServingIndex(rows, id, quantity);
    if s.Some? {
      assert Ids(rows)[s.value] == id;
      IncreasingUnique(rows, id);
    } else if id in Ids(rows) {
      var k := IndexOf(Ids(rows), id).value;
      assert !CanServe(rows[k], id, quantity);
    }
  }

  // ---------------------------------------------------------------------
  // The objects.

  class Product {
    const productId: int
    const name: string
    const category: string
    var quantity: int
    var price: int
    var supplier: string

    /** The product's current values. */
    function Values(): Row
      reads this
    {
      Row(productId, name, category, quantity, price, supplier)
    }

    /** Overwrites the given fields; None leaves a field as it is. */
    method Patch(quantity: Option<int>, price: Option<int>, supplier: Option<string>)
      modifies this
      ensures Values() == Patched(old(Values()), quantity, price, supplier)
    {
      if quantity.Some? {
        this.quantity := quantity.value;
      }
      if price.Some? {
        this.price := price.value;
      }
      if supplier.Some? {
        this.supplier := supplier.value;
      }
    }

    /** Takes `amount` units out of stock. */
    method Take(amount: int)
      modifies this
      ensures Values() == old(Values()).(quantity := old(quantity) - amount)
    {
      quantity := quantity - amount;
    }

    /** Builds a product and appends it to the shared inventory. */
    constructor (inventory: Inventory, productId: int, name: string, category: string, quantity: int, price: int, supplier: string)
      requires inventory.Valid()
      modifies inventory
      ensures Values() == Row(productId, name, category, quantity, price, supplier)
      ensures inventory.products == old(inventory.products) + [this]
      ensures inventory.Valid()
    {
      this.productId := productId;
      this.name := name;
      this.category := category;
      this.quantity := quantity;
      this.price := price;
      this.supplier := supplier;
      new;
      AppendNoDup(inventory.products, this);
      inventory.products := inventory.products + [this];
    }
  }

  /** The current values of the listed products, in order. */
  function RowsOf(ps: seq<Product>): seq<Row>
    reads ps
  {
    seq(|ps|, i reads ps requires 0 <= i < |ps| => ps[i].Values())
  }

  /** Unlisting one product drops exactly its row. */
  lemma RowsOfWithout(ps: seq<Product>, k: nat)
    requires k < |ps|
    ensures RowsOf(ps[..k] + ps[k + 1..]) == RowsOf(ps)[..k] + RowsOf(ps)[k + 1..]
  {
    var r := ps[..k] + ps[k + 1..];
    forall j | 0 <= j < |r| ensures RowsOf(r)[j] == (RowsOf(ps)[..k] + RowsOf(ps)[k + 1..])[j] {
      var j' := if j < k then j else j + 1;
      assert r[j] == ps[j'];
    }
  }

  /** The inventory every product and order shares. */
  class Inventory {
    var products: seq<Product>

    /** No product object is listed twice. */
    ghost predicate Valid()
      reads this
    {
      NoDup(products)
    }

    /** The products' current values, in inventory order. */
    function Rows(): seq<Row>
      reads this, products
    {
      RowsOf(products)
    }

    constructor ()
      ensures products == [] && Valid()
    {
      products := [];
    }

    /** Adds a product with the next id and reports success. */
    method AddProduct(name: string, category: string, quantity: int, price: int, supplier: string) returns (msg: string)
      requires Valid()
      modifies this
      ensures Valid()
      ensures Rows() == Added(old(Rows()), name, category, quantity, price, supplier)
      ensures Increasing(Ids(old(Rows()))) ==> Increasing(Ids(Rows()))
      ensures |products| == |old(products)| + 1 && products[..|old(products)|] == old(products)
      ensures fresh(products[|old(products)|])
      ensures msg == AddedMessage
    {
      ghost var before := Rows();
      var productId := if |products| > 0 then products[|products| - 1].productId + 1 else 1;
      var product := new Product(this, productId, name, category, quantity, price, supplier);
      assert forall j :: 0 <= j < |before| ==> Rows()[j] == before[j];
      if Increasing(Ids(before)) {
        AddedIncreasing(before, name, category, quantity, price, supplier);
      }
      msg := AddedMessage;
    }

    /** Overwrites the given fields of the first product with this id. */
    method UpdateProduct(productId: int, quantity: Option<int> := None, price: Option<int> := None, supplier: Option<string> := None)
      returns (msg: string)
      requires Valid()
      modifies products
      ensures products == old(products)
      ensures Rows() == Updated(old(Rows()), productId, quantity, price, supplier)
      ensures Ids(Rows()) == Ids(old(Rows()))
      ensures msg == if productId in Ids(old(Rows())) then UpdatedMessage else NotFoundMessage
    {
      ghost var before := Rows();
      var i := 0;
      while i < |products| && products[i].productId != productId
        invariant 0 <= i <= |products|
        invariant productId !in Ids(before)[..i]
      {
        assert Ids(before)[..i + 1] == Ids(before)[..i] + [products[i].productId];
        i := i + 1;
      }
      if i == |products| {
        assert Ids(before)[..i] == Ids(before);
        return NotFoundMessage;
      }
      IndexOfUnique(Ids(before), productId, i);
      products[i].Patch(quantity, price, supplier);
      return UpdatedMessage;
    }

    /** Removes the first product with this id. */
    method DeleteProduct(productId: int) returns (msg: string)
      requires Valid()
      modifies this
      ensures Valid()
      ensures Rows() == Deleted(old(Rows()), productId)
      ensures productId !in Ids(old(Rows())) ==> products == old(products)
      ensures productId in Ids(old(Rows())) ==>
        var k := IndexOf(Ids(old(Rows())), productId).value;
        products == old(products)[..k] + old(products)[k + 1..]
      ensures Increasing(Ids(old(Rows()))) ==> Increasing(Ids(Rows()))
      ensures msg == if productId in Ids(old(Rows())) then DeletedMessage else NotFoundMessage
    {
      ghost var before := Rows();
      ghost var listed := products;
      if Increasing(Ids(before)) {
        DeletedIncreasing(before, productId);
      }
      var i := 0;
      while i < |products| && products[i].productId != productId
        invariant 0 <= i <= |products|
        invariant productId !in Ids(before)[..i]
      {
        assert Ids(before)[..i + 1] == Ids(before)[..i] + [products[i].productId];
        i := i + 1;
      }
      if i == |products| {
        assert Ids(before)[..i] == Ids(before);
        return NotFoundMessage;
      }
      IndexOfUnique(Ids(before), productId, i);
      assert Deleted(before, productId) == before[..i] + before[i + 1..];
      RemoveAtNoDup(products, i);
      RowsOfWithout(products, i);
      products := products[..i] + products[i + 1..];
      assert Rows() == Deleted(before, productId);
      assert Ids(before)[i] == productId && IndexOf(Ids(before), productId).value == i;
      assert products == listed[..i] + listed[i + 1..];
      return DeletedMessage;
    }
  }

  class Order {
    const orderId: int
    /** (product id, quantity) pairs, in the order they were placed. */
    var products: seq<(int, int)>
    var customerInfo: Option<string>

    constructor (orderId: int, products: seq<(int, int)>, customerInfo: Option<string> := None)
      ensures this.orderId == orderId && this.products == products && this.customerInfo == customerInfo
    {
      this.orderId := orderId;
      this.products := products;
      this.customerInfo := customerInfo;
    }

    /** Takes `quantity` units from the first product with this id that has
        enough stock, records the line and, when given a non-empty value,
        the customer; fails with no change otherwise. */
    method PlaceOrder(inventory: Inventory, productId: int, quantity: int, customerInfo: Option<string> := None)
      returns (r: OrderResult)
      requires inventory.Valid()
      modifies this, inventory.products
      ensures inventory.products == old(inventory.products)
      ensures Ids(inventory.Rows()) == Ids(old(inventory.Rows()))
      ensures var k := ServingIndex(old(inventory.Rows()), productId, quantity);
        if k.Some? then
          && inventory.Rows() == Served(old(inventory.Rows()), k.value, quantity)
          && products == old(products) + [(productId, quantity)]
          && this.customerInfo == NewCustomerInfo(old(this.customerInfo), customerInfo)
          && r == Placed(orderId)
        else
          && inventory.Rows() == old(inventory.Rows())
          && products == old(products)
          && this.customerInfo == old(this.customerInfo)
          && r == NotPlaced
    {
      ghost var before := inventory.Rows();
      var i := 0;
      while i < |inventory.products| && !(inventory.products[i].productId == productId && inventory.products[i].quantity >= quantity)
        invariant 0 <= i <= |inventory.products|
        invariant forall j :: 0 <= j < i ==> !CanServe(before[j], productId, quantity)
      {
        i := i + 1;
      }
      if i == |inventory.products| {
        return NotPlaced;
      }
      ServingIndexUnique(before, productId, quantity, i);
      ghost var ps := inventory.products;
      inventory.products[i].Take(quantity);
      forall j | 0 <= j < |ps| ensures RowsOf(ps)[j] == Served(before, i, quantity)[j] {
        if j != i {
          assert ps[j] != ps[i];
        }
      }
      assert inventory.Rows() == Served(before, i, quantity);
      assert Ids(inventory.Rows()) == Ids(before);
      products := products + [(productId, quantity)];
      if customerInfo.Some? && customerInfo.value != "" {
        this.customerInfo := customerInfo;
      }
      assert RowsOf(ps) == Served(before, i, quantity);
      return Placed(orderId);
    }
  }
}
