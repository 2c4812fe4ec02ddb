/** Checkout: turning the session cart into an order, its items and the
    sales counters, with the database abstracted as a product table keyed by
    id; and the total shown on the order detail page. */
module Checkout {
  import opened Wrappers
  import opened Models
  import opened Carts

  /** The session's 'Customer' profile as the order view reads it: the
      logged-in id, and the address and phone that become the order's. */
  datatype SessionCustomer = SessionCustomer(id: Option<nat>, address: Option<string>, phone: Option<string>)

  /** One line of the confirmation summary. */
  datatype SummaryLine = SummaryLine(title: string, quantity: int, price: int)

  /** What the confirmation email is built from: the customer's first name,
      the address it goes to, the purchased lines and their total. */
  datatype Notice = Notice(customerName: string, recipient: string, lines: seq<SummaryLine>, total: int)

  /** The result of walking the cart lines against the product table. */
  datatype Materialized = Materialized(
    items: seq<OrderItem>,
    catalog: map<nat, Product>,
    summary: seq<SummaryLine>,
    total: int)

  /** A POST to the order view either redirects home without creating
      anything and with the session untouched, or places an order; then
      `sessionCart` is the session's 'Cart' afterwards (None once deleted). */
  datatype Outcome =
    | Redirected
    | Placed(
        order: Order,
        items: seq<OrderItem>,
        catalog: map<nat, Product>,
        notice: Notice,
        sessionCart: Option<Cart>)

  // ---------------------------------------------------------------------------
  // Reference definitions

  function InCatalog(ids: set<nat>): Entry -> bool {
    (e: Entry) => e.line.productId in ids
  }

  /** The cart lines whose product is still in the table, in cart order. */
  function Kept(entries: seq<Entry>, ids: set<nat>): seq<Entry> {
    Filter(entries, InCatalog(ids))
  }

  /** The item a cart line becomes: the line's quantity and price snapshot. */
  function ItemOf(orderId: nat, e: Entry): OrderItem {
    CreateOrderItem(orderId, e.line.productId, e.line.price, Some(e.line.quantity))
  }

  function SummaryOf(e: Entry): SummaryLine {
    SummaryLine(e.line.title, e.line.quantity, e.line.price)
  }

  /** How many units of product `id` the cart lines buy. */
  function SoldQuantity(entries: seq<Entry>, id: nat): int {
    if |entries| == 0 then 0
    else (if entries[0].line.productId == id then entries[0].line.quantity else 0) + SoldQuantity(entries[1..], id)
  }

  // ---------------------------------------------------------------------------
  // The line loop of the order view

  /** The loop over `cart['Products']`: a line whose product is missing is
      skipped; any other line yields an order item at the cart's quantity and
      price, bumps the product's `amount_sold` by that quantity, adds a
      summary line and adds price times quantity to the total. */
  function Materialize(entries: seq<Entry>, catalog: map<nat, Product>, orderId: nat): (m: Materialized)
    ensures m.catalog.Keys == catalog.Keys
    ensures |m.items| == |m.summary| <= |entries|
    ensures forall k :: 0 <= k < |m.items| ==> m.items[k].orderId == orderId && m.items[k].productId in catalog
  {
    if |entries| == 0 then Materialized([], catalog, [], 0)
    else
      var l := entries[0].line;
      if l.productId in catalog then
        var rest := Materialize(entries[1..], Bumped(catalog, l), orderId);
        Materialized(
          [OrderItem(orderId, l.productId, l.quantity, l.price)] + rest.items,
          rest.catalog,
          [SummaryLine(l.title, l.quantity, l.price)] + rest.summary,
          l.price * l.quantity + rest.total)
      else
        Materialize(entries[1..], catalog, orderId)
  }

  /** The catalog the loop moves on with after one line. */
  function Bumped(catalog: map<nat, Product>, l: Line): map<nat, Product>
    requires l.productId in catalog
  {
    catalog[l.productId := catalog[l.productId].(amountSold := catalog[l.productId].amountSold + l.quantity)]
  }

  /** The loop creates one item per kept line, in cart order, with the cart's
      quantity and price snapshot, and a summary line for each. */
  lemma {:induction false} MaterializeItems(entries: seq<Entry>, catalog: map<nat, Product>, orderId: nat)
    ensures var m := Materialize(entries, catalog, orderId);
      var kept := Kept(entries, catalog.Keys);
      && |m.items| == |kept| && |m.summary| == |kept|
      && (forall i :: 0 <= i < |kept| ==> m.items[i] == ItemOf(orderId, kept[i]) && m.summary[i] == SummaryOf(kept[i]))
  {
    if |entries| > 0 {
      var e := entries[0];
      var kept := Kept(entries, catalog.Keys);
      var tail := Kept(entries[1..], catalog.Keys);
      if e.line.productId in catalog {
        var next := Bumped(catalog, e.line);
        assert next.Keys == catalog.Keys;
        MaterializeItems(entries[1..], next, orderId);
        assert kept == [e] + tail;
        forall i | 0 < i < |kept|
          ensures kept[i] == tail[i - 1]
        {
        }
      } else {
        MaterializeItems(entries[1..], catalog, orderId);
        assert kept == tail;
      }
    }
  }

  /** The loop's total is the sum of quantity times price over the kept lines. */
  lemma {:induction false} MaterializeTotal(entries: seq<Entry>, catalog: map<nat, Product>, orderId: nat)
    ensures Materialize(entries, catalog, orderId).total == Sum(Kept(entries, catalog.Keys), AmountOf)
  {
    if |entries| > 0 {
      var e := entries[0];
      var kept := Kept(entries, catalog.Keys);
      var tail := Kept(entries[1..], catalog.Keys);
      if e.line.productId in catalog {
        var next := Bumped(catalog, e.line);
        assert next.Keys == catalog.Keys;
        MaterializeTotal(entries[1..], next, orderId);
        assert kept == [e] + tail;
        assert kept[1..] == tail;
        assert e.line.price * e.line.quantity == AmountOf(e.line);
      } else {
        MaterializeTotal(entries[1..], catalog, orderId);
        assert kept == tail;
      }
    }
  }

  /** Every product's `amount_sold` rises by exactly the units the cart buys
      of it, and no other field of any product changes. */
  lemma {:induction false} MaterializeCatalog(entries: seq<Entry>, catalog: map<nat, Product>, orderId: nat)
    ensures var m := Materialize(entries, catalog, orderId);
      forall id :: id in catalog ==>
        m.catalog[id] == catalog[id].(amountSold := catalog[id].amountSold + SoldQuantity(entries, id))
  {
    if |entries| > 0 {
      var l := entries[0].line;
      if l.productId in catalog {
        MaterializeCatalog(entries[1..], Bumped(catalog, l), orderId);
      } else {
        MaterializeCatalog(entries[1..], catalog, orderId);
      }
    }
  }

  lemma MaterializeSpec(entries: seq<Entry>, catalog: map<nat, Product>, orderId: nat)
    ensures var m := Materialize(entries, catalog, orderId);
      var kept := Kept(entries, catalog.Keys);
      && |m.items| == |kept| && |m.summary| == |kept|
      && (forall i :: 0 <= i < |kept| ==> m.items[i] == ItemOf(orderId, kept[i]) && m.summary[i] == SummaryOf(kept[i]))
      && m.total == Sum(kept, AmountOf)
      && (forall id :: id in catalog ==>
            m.catalog[id] == catalog[id].(amountSold := catalog[id].amountSold + SoldQuantity(entries, id)))
  {
    MaterializeItems(entries, catalog, orderId);
    MaterializeTotal(entries, catalog, orderId);
    MaterializeCatalog(entries, catalog, orderId);
  }

  // ---------------------------------------------------------------------------
  // The order view

  /** Who the order is for: the logged-in customer when the session holds an
      id (None when that id is not in the table), otherwise the guest that
      the view looked up or created (None when that raised). */
  function Owner(session: SessionCustomer, customers: map<nat, Customer>, guest: Option<Customer>): (r: Option<Customer>)
    ensures session.id.Some? ==> (r.Some? <==> session.id.value in customers)
    ensures session.id.Some? && r.Some? ==> r.value == customers[session.id.value]
    ensures session.id.None? ==> r == guest
  {
    match session.id
    case Some(id) => if id in customers then Some(customers[id]) else None
    case None => guest
  }

  /** The POST branch of the order view. An empty or absent cart, or an owner
      that cannot be resolved, redirects home with nothing created. Otherwise
      the order carries the owner and the session's address and phone, and
      its items, the updated product table and the confirmation come from
      the line loop. The confirmation mail is sent with `fail_silently=False`
      after the order, its items and the counters are written: when it is
      delivered the session cart is deleted, and when sending raises, those
      writes stay and the cart stays in the session. */
  function PlaceOrder(
    stored: Option<Cart>,
    session: SessionCustomer,
    customers: map<nat, Customer>,
    guest: Option<Customer>,
    catalog: map<nat, Product>,
    orderId: nat,
    mailDelivered: bool): (r: Outcome)
    ensures r.Redirected? <==>
      |SessionCart(stored).products| == 0 || Owner(session, customers, guest).None?
    ensures r.Placed? ==>
      var who := Owner(session, customers, guest).value;
      var kept := Kept(SessionCart(stored).products, catalog.Keys);
      && r.order.id == orderId && r.order.customerId == who.id && !r.order.status
      && r.order.address == session.address.GetOr("") && r.order.phone == session.phone.GetOr("")
      && |r.items| == |kept|
      && (forall i :: 0 <= i < |kept| ==> r.items[i] == ItemOf(orderId, kept[i]))
      && r.catalog.Keys == catalog.Keys
      && (forall id :: id in catalog ==>
            r.catalog[id] == catalog[id].(amountSold := catalog[id].amountSold + SoldQuantity(SessionCart(stored).products, id)))
      && r.notice.customerName == who.firstName && r.notice.recipient == who.email
      && r.notice.total == Sum(kept, AmountOf)
      && |r.notice.lines| == |kept|
      && (forall i :: 0 <= i < |kept| ==> r.notice.lines[i] == SummaryOf(kept[i]))
    ensures r.Placed? ==> (r.sessionCart.None? <==> mailDelivered)
    ensures r.Placed? && !mailDelivered ==> r.sessionCart == stored
  {
    var cart := SessionCart(stored);
    if |cart.products| == 0 then Redirected
    else
      match Owner(session, customers, guest)
      case None => Redirected
      case Some(who) =>
        var order := CreateOrder(orderId, who.id, Some(session.address.GetOr("")), Some(session.phone.GetOr("")), None);
        MaterializeSpec(cart.products, catalog, orderId);
        var m := Materialize(cart.products, catalog, orderId);
        Placed(order, m.items, m.catalog, Notice(who.firstName, who.email, m.summary, m.total),
          if mailDelivered then None else stored)
  }

  /** Checkout does not lose units: the items of a placed order buy, product
      by product, exactly what the table's `amount_sold` gained. */
  lemma ItemsMatchSales(entries: seq<Entry>, catalog: map<nat, Product>, orderId: nat, id: nat)
    requires id in catalog
    ensures var m := Materialize(entries, catalog, orderId);
      m.catalog[id].amountSold - catalog[id].amountSold == SoldQuantity(entries, id)
  {
    MaterializeSpec(entries, catalog, orderId);
  }

  /** An order placed from a session with no address or phone is exactly an
      order created with every optional field left to its default. */
  lemma OrderWithoutContactIsDefault(
    stored: Option<Cart>, session: SessionCustomer, customers: map<nat, Customer>,
    guest: Option<Customer>, catalog: map<nat, Product>, orderId: nat, mailDelivered: bool)
    requires session.address.None? && session.phone.None?
    ensures var r := PlaceOrder(stored, session, customers, guest, catalog, orderId, mailDelivered);
      r.Placed? ==> r.order == CreateOrder(orderId, Owner(session, customers, guest).value.id, None, None, None)
  {
  }

  /** A confirmation mail that fails to send undoes nothing: the order, its
      items, the sales counters and the confirmation are those of a
      delivered mail, and only the session cart differs. */
  lemma MailFailureKeepsWrites(
    stored: Option<Cart>, session: SessionCustomer, customers: map<nat, Customer>,
    guest: Option<Customer>, catalog: map<nat, Product>, orderId: nat)
    ensures var sent := PlaceOrder(stored, session, customers, guest, catalog, orderId, true);
      var failed := PlaceOrder(stored, session, customers, guest, catalog, orderId, false);
      && (sent.Placed? <==> failed.Placed?)
      && (sent.Placed? ==>
            && sent.order == failed.order && sent.items == failed.items
            && sent.catalog == failed.catalog && sent.notice == failed.notice
            && sent.sessionCart.None? && failed.sessionCart == stored)
  {
  }

  /** A cart line becomes the item a bare create would give exactly when it
      holds a single unit. */
  lemma SingleUnitItemIsDefault(orderId: nat, e: Entry)
    ensures ItemOf(orderId, e) == CreateOrderItem(orderId, e.line.productId, e.line.price, None)
        <==> e.line.quantity == 1
  {
  }

  /** A product created with the default sales counter counts, after
      checkout, exactly the units the cart bought of it. */
  lemma DefaultProductCountsSales(
    entries: seq<Entry>, catalog: map<nat, Product>, orderId: nat,
    id: nat, title: string, material: string, image: string, price: Option<int>, categoryId: Option<nat>)
    requires id in catalog && catalog[id] == CreateProduct(id, title, material, image, price, None, categoryId)
    ensures Materialize(entries, catalog, orderId).catalog[id].amountSold == SoldQuantity(entries, id)
  {
    ItemsMatchSales(entries, catalog, orderId, id);
  }

  // ---------------------------------------------------------------------------
  // The order detail page

  /** The 'Sum' the order detail view shows, as written: the unit prices of
      the order's items added up, whatever their quantities. */
  function DetailSumAsWritten(items: seq<OrderItem>): (r: int)
    ensures (forall i :: 0 <= i < |items| ==> items[i].price >= 0) ==> r >= 0
    ensures (forall i :: 0 <= i < |items| ==> items[i].price == 0) ==> r == 0
  {
    if |items| == 0 then 0 else items[0].price + DetailSumAsWritten(items[1..])
  }

  /** The order's total: unit price times quantity over its items. */
  function DetailSum(items: seq<OrderItem>): int {
    if |items| == 0 then 0 else items[0].price * items[0].quantity + DetailSum(items[1..])
  }

  /** The detail total of a placed order is the total its confirmation
      announced. */
  lemma {:induction false} DetailSumMatchesConfirmation(entries: seq<Entry>, catalog: map<nat, Product>, orderId: nat)
    ensures var m := Materialize(entries, catalog, orderId);
      DetailSum(m.items) == m.total
  {
    if |entries| > 0 {
      var l := entries[0].line;
      if l.productId in catalog {
        var next := Bumped(catalog, l);
        DetailSumMatchesConfirmation(entries[1..], next, orderId);
        var m := Materialize(entries, catalog, orderId);
        assert m.items[1..] == Materialize(entries[1..], next, orderId).items;
      } else {
        DetailSumMatchesConfirmation(entries[1..], catalog, orderId);
      }
    }
  }

  /** The two sums agree exactly when every item is bought once. */
  lemma {:induction false} DetailSumAsWrittenAgreesOnSingleUnits(items: seq<OrderItem>)
    requires forall i :: 0 <= i < |items| ==> items[i].quantity == 1
    ensures DetailSumAsWritten(items) == DetailSum(items)
  {
    if |items| > 0 {
      DetailSumAsWrittenAgreesOnSingleUnits(items[1..]);
    }
  }

  /** With non-negative prices and at least one unit per item, the detail
      sum as written never exceeds the true total, and falls short of it as
      soon as one item with a positive price is bought more than once. */
  lemma {:induction false} DetailSumAsWrittenFallsShort(items: seq<OrderItem>)
    requires forall i :: 0 <= i < |items| ==> items[i].quantity >= 1 && items[i].price >= 0
    ensures DetailSumAsWritten(items) <= DetailSum(items)
    ensures (exists i :: 0 <= i < |items| && items[i].quantity > 1 && items[i].price > 0) ==>
      DetailSumAsWritten(items) < DetailSum(items)
  {
    if |items| > 0 {
      var x := items[0];
      var rest := items[1..];
      assert forall i :: 0 <= i < |rest| ==> rest[i] == items[i + 1];
      DetailSumAsWrittenFallsShort(rest);
      UnitPriceBound(x.price, x.quantity);
      if exists i :: 0 <= i < |items| && items[i].quantity > 1 && items[i].price > 0 {
        var i :| 0 <= i < |items| && items[i].quantity > 1 && items[i].price > 0;
        if i > 0 {
          assert rest[i - 1].quantity > 1 && rest[i - 1].price > 0;
        }
      }
    }
  }

  /** One item's line amount bounds its unit price, strictly when more than
      one unit of a priced product is bought. */
  lemma UnitPriceBound(price: int, quantity: int)
    requires price >= 0 && quantity >= 1
    ensures price <= price * quantity
    ensures price > 0 && quantity > 1 ==> price < price * quantity
  {
    assert price * quantity == price + price * (quantity - 1);
  }

  /** An order of two chairs at 50 is confirmed at 100, but its detail page
      as written shows 50. */
  lemma DetailSumAsWrittenUndercounts()
    ensures var cart := Cart(None, 2, 100, [Entry("Chair_1", Line("Chair", 1, 50, 2, "chair.png", 100))]);
      var catalog := map[1 := Product(1, "Chair", "Wood", Some(""), 50, 0, 1, "store/static/chair.png")];
      var m := Materialize(cart.products, catalog, 9);
      && m.total == 100
      && DetailSum(m.items) == 100
      && DetailSumAsWritten(m.items) == 50
  {
    var cart := Cart(None, 2, 100, [Entry("Chair_1", Line("Chair", 1, 50, 2, "chair.png", 100))]);
    var catalog := map[1 := Product(1, "Chair", "Wood", Some(""), 50, 0, 1, "store/static/chair.png")];
    var m := Materialize(cart.products, catalog, 9);
    assert cart.products[1..] == [];
    assert m.items == [OrderItem(9, 1, 2, 50)];
    assert m.items[1..] == [];
  }

  // ---------------------------------------------------------------------------
  // Worked scenarios

  /** Two chairs at 50 and one table at 200 for logged-in customer 7: one
      order with two items, sales counters up by 2 and 1, total 300. */
  lemma ChairAndTableScenario()
    ensures var lines := [Entry("Chair_1", Line("Chair", 1, 50, 2, "c.png", 100)),
                          Entry("Table_2", Line("Table", 2, 200, 1, "t.png", 200))];
      var catalog := map[1 := Product(1, "Chair", "Wood", Some(""), 50, 4, 1, "c.png"),
                         2 := Product(2, "Table", "Oak", Some(""), 200, 0, 1, "t.png")];
      var customers := map[7 := Customer(7, "Ann", "Lee", None, "0123456789", "ann@x.io", "h")];
      var r := PlaceOrder(Some(Cart(None, 3, 300, lines)), SessionCustomer(Some(7), None, None), customers, None, catalog, 1, true);
      && r.Placed?
      && r.items == [OrderItem(1, 1, 2, 50), OrderItem(1, 2, 1, 200)]
      && r.catalog[1].amountSold == 6 && r.catalog[2].amountSold == 1
      && r.notice.total == 300
      && r.sessionCart.None?
  {
    var lines := [Entry("Chair_1", Line("Chair", 1, 50, 2, "c.png", 100)),
                  Entry("Table_2", Line("Table", 2, 200, 1, "t.png", 200))];
    var catalog := map[1 := Product(1, "Chair", "Wood", Some(""), 50, 4, 1, "c.png"),
                       2 := Product(2, "Table", "Oak", Some(""), 200, 0, 1, "t.png")];
    var c1 := Bumped(catalog, lines[0].line);
    var c2 := Bumped(c1, lines[1].line);
    assert lines[1..][1..] == [];
    assert Materialize(lines[1..][1..], c2, 1) == Materialized([], c2, [], 0);
    assert Materialize(lines[1..], c1, 1)
      == Materialized([OrderItem(1, 2, 1, 200)], c2, [SummaryLine("Table", 1, 200)], 200);
    assert Materialize(lines, catalog, 1).items == [OrderItem(1, 1, 2, 50), OrderItem(1, 2, 1, 200)];
  }

  /** A product deleted since it was put in the cart is skipped: the order is
      still placed, with the remaining line only. */
  lemma MissingProductSkipped()
    ensures var lines := [Entry("Chair_1", Line("Chair", 1, 50, 2, "c.png", 100)),
                          Entry("Table_2", Line("Table", 2, 200, 1, "t.png", 200))];
      var catalog := map[2 := Product(2, "Table", "Oak", Some(""), 200, 0, 1, "t.png")];
      var customers := map[7 := Customer(7, "Ann", "Lee", None, "0123456789", "ann@x.io", "h")];
      var r := PlaceOrder(Some(Cart(None, 3, 300, lines)), SessionCustomer(Some(7), None, None), customers, None, catalog, 1, true);
      && r.Placed?
      && r.items == [OrderItem(1, 2, 1, 200)]
      && r.notice.total == 200
  {
    var lines := [Entry("Chair_1", Line("Chair", 1, 50, 2, "c.png", 100)),
                  Entry("Table_2", Line("Table", 2, 200, 1, "t.png", 200))];
    var catalog := map[2 := Product(2, "Table", "Oak", Some(""), 200, 0, 1, "t.png")];
    var c2 := Bumped(catalog, lines[1].line);
    assert lines[1..][1..] == [];
    assert Materialize(lines[1..][1..], c2, 1) == Materialized([], c2, [], 0);
    assert Materialize(lines[1..], catalog, 1)
      == Materialized([OrderItem(1, 2, 1, 200)], c2, [SummaryLine("Table", 1, 200)], 200);
  }
}
