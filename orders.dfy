/** Order intake on the server: the checks made by the `POST /api/orders` handler,
    and `processOrder`, which writes one `orders` row and then one `order_items` row
    per cart line into a store with two tables. */
module OrderIntake {

  datatype Option<T> = None | Some(value: T)

  /** A property of the parsed JSON request as JavaScript sees it: missing
      (`undefined`), `null`, or a value. */
  datatype Field<T> = Undefined | Null | Present(value: T)

  /** One element of `orderData.items`. */
  datatype OrderLine = OrderLine(productId: int, quantity: int, size: Field<string>)

  datatype OrderData = OrderData(
    customerName: Field<string>,
    customerEmail: Field<string>,
    customerAddress: Field<string>,
    customerPhone: Field<string>,
    totalAmount: Field<int>,
    items: Field<seq<OrderLine>>)

  const MissingInfoMessage: string := "Missing customer or order info."
  const MissingScreenshotMessage: string := "Payment screenshot is required."
  const NoItemsMessage: string := "No items in order"
  const PlacedMessage: string := "\U{2705} Order Placed Successfully!"
  const FailedPrefix: string := "\U{274C} Order failed: "

  /** JavaScript truthiness of a string field: present and not the empty string. */
  predicate Truthy(f: Field<string>) {
    f.Present? && f.value != ""
  }

  /** The condition under which the handler answers "Missing customer or order info.":
      a falsy customer field, an `undefined` total (a `null` or zero total passes),
      or a falsy item list (an empty list is truthy and passes). */
  predicate MissingInfo(d: OrderData) {
    !Truthy(d.customerName) || !Truthy(d.customerEmail) || !Truthy(d.customerAddress) ||
    !Truthy(d.customerPhone) || d.totalAmount.Undefined? || !d.items.Present?
  }

  /** Outcome of the handler's two checks: the stored screenshot name to pass on,
      or the message of a 400 answer. */
  datatype Check = Accepted(filename: string) | Rejected(message: string)

  /** The handler's validation cascade: the field check first, then the file check. */
  function Validate(d: OrderData, screenshot: Option<string>): (c: Check)
    ensures c == Rejected(MissingInfoMessage) <==> MissingInfo(d)
    ensures c == Rejected(MissingScreenshotMessage) <==> !MissingInfo(d) && screenshot.None?
    ensures c.Accepted? <==> !MissingInfo(d) && screenshot.Some?
    ensures c.Accepted? ==> c.filename == screenshot.value
  {
    if MissingInfo(d) then Rejected(MissingInfoMessage)
    else if screenshot.None? then Rejected(MissingScreenshotMessage)
    else Accepted(screenshot.value)
  }

  /** When the fields are wrong the field error is reported, whether or not a file came. */
  lemma FieldErrorTakesPrecedence(d: OrderData, name: string)
    requires MissingInfo(d)
    ensures Validate(d, None) == Validate(d, Some(name)) == Rejected(MissingInfoMessage)
  {
  }

  /** A total of zero passes the field check, since only an `undefined` total is
      refused; an empty customer name fails it whatever else the request holds. */
  lemma ZeroTotalPassesEmptyNameFails(d: OrderData, screenshot: Option<string>, name: string)
    ensures Truthy(d.customerName) && Truthy(d.customerEmail) && Truthy(d.customerAddress) &&
            Truthy(d.customerPhone) && d.items.Present? && d.totalAmount == Present(0) ==>
      Validate(d, Some(name)) == Accepted(name)
    ensures d.customerName == Present("") ==>
      Validate(d, screenshot) == Rejected(MissingInfoMessage)
  {
  }

  // ---------------------------------------------------------------------------
  // The two tables

  datatype OrderRow = OrderRow(
    id: nat, customerName: string, customerEmail: string, customerAddress: string,
    customerPhone: string, totalAmount: int, paymentScreenshot: string)

  datatype ItemRow = ItemRow(id: nat, orderId: nat, productId: int, quantity: int, size: string)

  /** `item.size || ''`: a falsy size is stored as the empty string. */
  function SizeOrBlank(size: Field<string>): (s: string)
    ensures Truthy(size) ==> s == size.value
    ensures !Truthy(size) ==> s == ""
  {
    if size.Present? then size.value else ""
  }

  /** The first NOT NULL column of `orders` that the request leaves `undefined` or
      `null`, in the table's column order; the insert fails on it. */
  function NullColumn(d: OrderData): (c: Option<string>)
    ensures c.None? <==> (d.customerName.Present? && d.customerEmail.Present? &&
                          d.customerAddress.Present? && d.customerPhone.Present? &&
                          d.totalAmount.Present?)
  {
    if !d.customerName.Present? then Some("customerName")
    else if !d.customerEmail.Present? then Some("customerEmail")
    else if !d.customerAddress.Present? then Some("customerAddress")
    else if !d.customerPhone.Present? then Some("customerPhone")
    else if !d.totalAmount.Present? then Some("totalAmount")
    else None
  }

  /** The error text of a NOT NULL violation, as the SQLite driver's `err.message`
      reads for the `orders` table. */
  function NotNullMessage(column: string): string {
    "SQLITE_CONSTRAINT: NOT NULL constraint failed: orders." + column
  }

  /** A request that passes the handler's field check can only fail the orders insert
      through a `null` total. */
  lemma AcceptedFailsOnlyOnNullTotal(d: OrderData, screenshot: Option<string>)
    requires Validate(d, screenshot).Accepted?
    ensures NullColumn(d) == Some("totalAmount") <==> d.totalAmount.Null?
    ensures NullColumn(d).None? <==> d.totalAmount.Present?
  {
  }

  /** `!orderData.items || !orderData.items.length` is false. */
  predicate HasItems(d: OrderData) {
    d.items.Present? && |d.items.value| > 0
  }

  function NewOrderRow(id: nat, d: OrderData, filename: string): OrderRow
    requires NullColumn(d).None?
  {
    OrderRow(id, d.customerName.value, d.customerEmail.value, d.customerAddress.value,
             d.customerPhone.value, d.totalAmount.value, filename)
  }

  function NewItemRow(id: nat, orderId: nat, line: OrderLine): ItemRow {
    ItemRow(id, orderId, line.productId, line.quantity, SizeOrBlank(line.size))
  }

  /** The outcome `processOrder` settles its promise with. */
  datatype Outcome = Placed(orderId: nat) | Failed(message: string)

  /** The database: the `orders` and `order_items` tables, each with its
      AUTOINCREMENT counter (the next id it hands out). */
  class Store {
    var orders: seq<OrderRow>
    var orderItems: seq<ItemRow>
    var nextOrderId: nat
    var nextItemId: nat

    /** Ids are handed out in increasing order and every item row refers to an order
        row (the FOREIGN KEY of `order_items`). */
    ghost predicate Valid()
      reads this
    {
      (forall i :: 0 <= i < |orders| ==> orders[i].id < nextOrderId) &&
      (forall i, j :: 0 <= i < j < |orders| ==> orders[i].id < orders[j].id) &&
      (forall i :: 0 <= i < |orderItems| ==> orderItems[i].id < nextItemId) &&
      (forall i, j :: 0 <= i < j < |orderItems| ==> orderItems[i].id < orderItems[j].id) &&
      (forall i :: 0 <= i < |orderItems| ==> HasOrder(orderItems[i].orderId))
    }

    /** Some order row carries this id. */
    ghost predicate HasOrder(id: nat)
      reads this
    {
      exists j :: 0 <= j < |orders| && orders[j].id == id
    }

    /** The tables as created on the first start. After a restart the database file
        keeps its rows and counters; any `Valid()` store stands for that case. */
    constructor ()
      ensures Valid()
      ensures orders == [] && orderItems == [] && nextOrderId == 1 && nextItemId == 1
    {
      orders, orderItems := [], [];
      nextOrderId, nextItemId := 1, 1;
    }

    /** `INSERT INTO orders`: fails on a NOT NULL column, otherwise appends a row
        under a fresh id and returns that id (`this.lastID`). */
    method InsertOrder(d: OrderData, filename: string) returns (r: Outcome)
      requires Valid()
      modifies this`orders, this`nextOrderId
      ensures Valid()
      ensures NullColumn(d).Some? ==>
        r == Failed(NotNullMessage(NullColumn(d).value)) &&
        orders == old(orders) && nextOrderId == old(nextOrderId)
      ensures NullColumn(d).None? ==>
        r == Placed(old(nextOrderId)) &&
        orders == old(orders) + [NewOrderRow(old(nextOrderId), d, filename)] &&
        nextOrderId == old(nextOrderId) + 1
    {
      var column := NullColumn(d);
      if column.Some? {
        return Failed(NotNullMessage(column.value));
      }
      r := Placed(nextOrderId);
      ghost var before := orders;
      orders := orders + [NewOrderRow(nextOrderId, d, filename)];
      nextOrderId := nextOrderId + 1;
      forall i | 0 <= i < |orderItems| ensures HasOrder(orderItems[i].orderId) {
        assert old(HasOrder(orderItems[i].orderId));
        var j :| 0 <= j < |before| && before[j].id == orderItems[i].orderId;
        assert orders[j] == before[j];
      }
    }

    /** `stmt.run(orderId, productId, quantity, size || '')`: appends one item row. */
    method InsertItem(orderId: nat, line: OrderLine)
      requires Valid()
      requires HasOrder(orderId)
      modifies this`orderItems, this`nextItemId
      ensures Valid()
      ensures orderItems == old(orderItems) + [NewItemRow(old(nextItemId), orderId, line)]
      ensures nextItemId == old(nextItemId) + 1
    {
      orderItems := orderItems + [NewItemRow(nextItemId, orderId, line)];
      nextItemId := nextItemId + 1;
    }

    /** `processOrder`: the order row is inserted first; only then is the item list
        checked, so an empty list leaves an order row without items behind. */
    method ProcessOrder(d: OrderData, filename: string) returns (r: Outcome)
      requires Valid()
      modifies this
      ensures Valid()
      // the orders insert fails: nothing is written
      ensures NullColumn(d).Some? ==>
        r == Failed(NotNullMessage(NullColumn(d).value)) &&
        orders == old(orders) && orderItems == old(orderItems) &&
        nextOrderId == old(nextOrderId) && nextItemId == old(nextItemId)
      // otherwise exactly one order row is added, under a fresh id
      ensures NullColumn(d).None? ==>
        orders == old(orders) + [NewOrderRow(old(nextOrderId), d, filename)] &&
        nextOrderId == old(nextOrderId) + 1 &&
        forall i :: 0 <= i < |old(orders)| ==> old(orders)[i].id < old(nextOrderId)
      // no items: rejected after the order row was written, and no item row refers to it
      ensures NullColumn(d).None? && !HasItems(d) ==>
        r == Failed(NoItemsMessage) &&
        orderItems == old(orderItems) && nextItemId == old(nextItemId) &&
        forall i :: 0 <= i < |orderItems| ==> orderItems[i].orderId != old(nextOrderId)
      // items: one row per line, in order, all carrying the new order's id
      ensures NullColumn(d).None? && HasItems(d) ==>
        r == Placed(old(nextOrderId)) &&
        |orderItems| == |old(orderItems)| + |d.items.value| &&
        orderItems[..|old(orderItems)|] == old(orderItems) &&
        nextItemId == old(nextItemId) + |d.items.value| &&
        forall i :: 0 <= i < |d.items.value| ==>
          orderItems[|old(orderItems)| + i] ==
            NewItemRow(old(nextItemId) + i, old(nextOrderId), d.items.value[i])
    {
      r := InsertOrder(d, filename);
      if r.Failed? {
        return;
      }
      var orderId := r.orderId;
      assert orders[|orders| - 1].id == orderId;
      if !HasItems(d) {
        forall i | 0 <= i < |orderItems| ensures orderItems[i].orderId != orderId {
          var j :| 0 <= j < |orders| && orders[j].id == orderItems[i].orderId;
          assert j < |orders| - 1 ==> orders[j].id < orderId;
        }
        return Failed(NoItemsMessage);
      }
      var lines := d.items.value;
      ghost var itemsBefore := orderItems;
      ghost var firstId := nextItemId;
      for k := 0 to |lines|
        invariant Valid()
        invariant orders == old(orders) + [NewOrderRow(orderId, d, filename)]
        invariant nextOrderId == orderId + 1
        invariant |orderItems| == |itemsBefore| + k
        invariant orderItems[..|itemsBefore|] == itemsBefore
        invariant nextItemId == firstId + k
        invariant forall i :: 0 <= i < k ==>
          orderItems[|itemsBefore| + i] == NewItemRow(firstId + i, orderId, lines[i])
      {
        InsertItem(orderId, lines[k]);
      }
    }
  }

  /** The handler's answer: an HTTP status and a JSON body. */
  datatype Body = Error(error: string) | Confirmation(message: string, orderId: nat)
  datatype Response = Response(status: nat, body: Body)

  /** The `POST /api/orders` handler after the upload has been stored: validation,
      then `processOrder`, whose rejection becomes a 500 answer. */
  method PostOrder(store: Store, d: OrderData, screenshot: Option<string>) returns (resp: Response)
    requires store.Valid()
    modifies store
    ensures store.Valid()
    // a failed check answers 400 and processOrder is never reached
    ensures Validate(d, screenshot).Rejected? ==>
      resp == Response(400, Error(Validate(d, screenshot).message)) &&
      store.orders == old(store.orders) && store.orderItems == old(store.orderItems) &&
      store.nextOrderId == old(store.nextOrderId) && store.nextItemId == old(store.nextItemId)
    ensures Validate(d, screenshot).Accepted? && d.totalAmount.Null? ==>
      resp == Response(500, Error(FailedPrefix + NotNullMessage("totalAmount"))) &&
      store.orders == old(store.orders) && store.orderItems == old(store.orderItems) &&
      store.nextOrderId == old(store.nextOrderId) && store.nextItemId == old(store.nextItemId)
    // otherwise one order row holding the customer data and the stored file name
    ensures Validate(d, screenshot).Accepted? && d.totalAmount.Present? ==>
      store.orders == old(store.orders) + [NewOrderRow(old(store.nextOrderId), d, screenshot.value)] &&
      store.nextOrderId == old(store.nextOrderId) + 1
    // an empty item list: 500, yet the order row has been written
    ensures Validate(d, screenshot).Accepted? && d.totalAmount.Present? && !HasItems(d) ==>
      resp == Response(500, Error(FailedPrefix + NoItemsMessage)) &&
      store.orderItems == old(store.orderItems) && store.nextItemId == old(store.nextItemId) &&
      forall i :: 0 <= i < |store.orderItems| ==> store.orderItems[i].orderId != old(store.nextOrderId)
    // items: 200 with the new id, and one item row per line, in order, carrying that id
    ensures Validate(d, screenshot).Accepted? && d.totalAmount.Present? && HasItems(d) ==>
      resp == Response(200, Confirmation(PlacedMessage, old(store.nextOrderId))) &&
      |store.orderItems| == |old(store.orderItems)| + |d.items.value| &&
      store.orderItems[..|old(store.orderItems)|] == old(store.orderItems) &&
      store.nextItemId == old(store.nextItemId) + |d.items.value| &&
      forall i :: 0 <= i < |d.items.value| ==>
        store.orderItems[|old(store.orderItems)| + i] ==
          NewItemRow(old(store.nextItemId) + i, old(store.nextOrderId), d.items.value[i])
  {
    var check := Validate(d, screenshot);
    if check.Rejected? {
      return Response(400, Error(check.message));
    }
    AcceptedFailsOnlyOnNullTotal(d, screenshot);
    var outcome := store.ProcessOrder(d, check.filename);
    match outcome
    case Placed(id) => resp := Response(200, Confirmation(PlacedMessage, id));
    case Failed(message) => resp := Response(500, Error(FailedPrefix + message));
  }
}
