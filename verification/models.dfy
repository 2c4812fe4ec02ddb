/** The storefront's stored records (categories, customers, products, orders
    and order items) and the lookups the model classes define on them, each
    stated as a filter over an in-memory table in storage order. */
module Models {
  import opened Wrappers
  import opened Text

  datatype Category = Category(id: nat, name: string)

  /** `address` may be NULL in the table; every other text field is required. */
  datatype Customer = Customer(
    id: nat,
    firstName: string,
    lastName: string,
    address: Option<string>,
    phone: string,
    email: string,
    password: string)

  datatype Product = Product(
    id: nat,
    title: string,
    material: string,
    description: Option<string>,
    price: int,
    amountSold: int,
    categoryId: nat,
    image: string)

  /** The order's date is stamped by the clock and is not part of this record. */
  datatype Order = Order(id: nat, customerId: nat, address: string, phone: string, status: bool)

  /** One purchased line; `price` is the unit price frozen at purchase time. */
  datatype OrderItem = OrderItem(orderId: nat, productId: nat, quantity: int, price: int)

  // ---------------------------------------------------------------------------
  // Filtering a table

  /** The rows of `s` that satisfy `p`, in storage order (a queryset `filter`). */
  function Filter<T(!new)>(s: seq<T>, p: T -> bool): (r: seq<T>)
    ensures |r| <= |s|
    ensures forall x :: x in r <==> x in s && p(x)
  {
    if |s| == 0 then [] else (if p(s[0]) then [s[0]] else []) + Filter(s[1..], p)
  }

  /** Filtering by two predicates that agree on every row gives the same rows. */
  lemma {:induction false} FilterCongruent<T(!new)>(s: seq<T>, p: T -> bool, q: T -> bool)
    requires forall x :: x in s ==> p(x) == q(x)
    ensures Filter(s, p) == Filter(s, q)
  {
    if |s| > 0 {
      assert s[0] in s;
      assert forall x :: x in s[1..] ==> x in s;
      FilterCongruent(s[1..], p, q);
    }
  }

  /** A filter every row passes keeps the whole table, in order. */
  lemma {:induction false} FilterAll<T(!new)>(s: seq<T>, p: T -> bool)
    requires forall x :: x in s ==> p(x)
    ensures Filter(s, p) == s
  {
    if |s| > 0 {
      assert s[0] in s;
      assert forall x :: x in s[1..] ==> x in s;
      FilterAll(s[1..], p);
    }
  }

  /** Index `i` is the one and only row of `s` satisfying `p`. */
  ghost predicate OnlyMatch<T>(s: seq<T>, p: T -> bool, i: int) {
    0 <= i < |s| && p(s[i]) && forall j :: 0 <= j < |s| && p(s[j]) ==> j == i
  }

  /** A filter yields exactly one row precisely when one index matches, and
      that row is the one at the matching index. */
  lemma {:induction false} FilterSingleton<T(!new)>(s: seq<T>, p: T -> bool)
    ensures |Filter(s, p)| == 1 <==> exists i :: OnlyMatch(s, p, i)
    ensures forall i :: OnlyMatch(s, p, i) ==> |Filter(s, p)| == 1 && Filter(s, p)[0] == s[i]
  {
    if |s| > 0 {
      var t := s[1..];
      var g := Filter(t, p);
      FilterSingleton(t, p);
      if p(s[0]) {
        assert Filter(s, p) == [s[0]] + g;
        if |g| == 0 {
          forall j | 0 < j < |s|
            ensures !p(s[j])
          {
            assert s[j] == t[j - 1];
            assert t[j - 1] in t;
          }
          assert OnlyMatch(s, p, 0);
        } else {
          assert g[0] in g;
          var k :| 0 <= k < |t| && t[k] == g[0];
          assert s[k + 1] == t[k];
          assert p(s[0]) && p(s[k + 1]);
          forall i
            ensures !OnlyMatch(s, p, i)
          {
          }
        }
      } else {
        assert Filter(s, p) == g;
        forall i | OnlyMatch(s, p, i)
          ensures OnlyMatch(t, p, i - 1)
        {
          assert i != 0;
          forall j | 0 <= j < |t| && p(t[j])
            ensures j == i - 1
          {
            assert s[j + 1] == t[j];
          }
        }
        forall i | OnlyMatch(t, p, i)
          ensures OnlyMatch(s, p, i + 1)
        {
          forall j | 0 <= j < |s| && p(s[j])
            ensures j == i + 1
          {
            assert j != 0;
            assert t[j - 1] == s[j];
          }
        }
      }
    }
  }

  // ---------------------------------------------------------------------------
  // Category

  function NameIs(name: string): Category -> bool {
    (c: Category) => c.name == name
  }

  /** `Category.get_all_category_by_name`: the categories whose name equals
      `name` exactly (case-sensitive). */
  function CategoriesByName(categories: seq<Category>, name: string): (r: seq<Category>)
    ensures forall c :: c in r <==> c in categories && c.name == name
  {
    Filter(categories, NameIs(name))
  }

  // ---------------------------------------------------------------------------
  // Customer

  function EmailIs(email: string): Customer -> bool {
    (c: Customer) => c.email == email
  }

  /** `Customer.get_customer_by_email`: `objects.get` returns the record when
      exactly one row has the email; a miss and a duplicate both raise, and
      the bare `except` turns either into `False` (here `None`). */
  function CustomerByEmail(customers: seq<Customer>, email: string): (r: Option<Customer>)
    ensures r.Some? <==> exists i :: OnlyMatch(customers, EmailIs(email), i)
    ensures forall i :: OnlyMatch(customers, EmailIs(email), i) ==> r == Some(customers[i])
    ensures r.Some? ==> r.value in customers && r.value.email == email
  {
    var matches := Filter(customers, EmailIs(email));
    FilterSingleton(customers, EmailIs(email));
    if |matches| == 1 then (assert matches[0] in matches; Some(matches[0])) else None
  }

  /** `Customer.isExists`: some stored row carries the same email (the
      queryset is truthy when non-empty). */
  function IsExists(customers: seq<Customer>, email: string): (r: bool)
    ensures r <==> exists i :: 0 <= i < |customers| && customers[i].email == email
  {
    var matches := Filter(customers, EmailIs(email));
    if |matches| > 0 then
      assert matches[0] in matches;
      true
    else
      assert forall i :: 0 <= i < |customers| && customers[i].email == email ==> customers[i] in matches;
      false
  }

  /** A successful lookup implies the email exists; an email that exists but
      does not look up is held by at least two rows, the case the bare
      `except` swallows. */
  lemma {:induction false} LookupAgreesWithExists(customers: seq<Customer>, email: string)
    ensures CustomerByEmail(customers, email).Some? ==> IsExists(customers, email)
    ensures IsExists(customers, email) && CustomerByEmail(customers, email).None? ==>
      exists i, j :: 0 <= i < j < |customers| && customers[i].email == email && customers[j].email == email
  {
    if IsExists(customers, email) && CustomerByEmail(customers, email).None? {
      var i :| 0 <= i < |customers| && customers[i].email == email;
      assert !OnlyMatch(customers, EmailIs(email), i);
      var j :| 0 <= j < |customers| && customers[j].email == email && j != i;
      if i < j {
        assert customers[i].email == email && customers[j].email == email;
      } else {
        assert customers[j].email == email && customers[i].email == email;
      }
    }
  }

  /** `Customer.__str__`: first name, one space, last name. */
  function CustomerStr(c: Customer): (s: string)
    ensures |s| == |c.firstName| + 1 + |c.lastName|
    ensures s[..|c.firstName|] == c.firstName
    ensures s[|c.firstName|] == ' '
    ensures s[|c.firstName| + 1..] == c.lastName
  {
    c.firstName + " " + c.lastName
  }

  /** When the first name holds no space, the display string splits back
      into both names at its first space. */
  lemma CustomerStrReadsBack(c: Customer)
    requires ' ' !in c.firstName
    ensures var s := CustomerStr(c);
      var k := Find(s, ' ');
      k == |c.firstName| && s[..k] == c.firstName && s[k + 1..] == c.lastName
  {
    var s := CustomerStr(c);
    assert forall j :: 0 <= j < |c.firstName| ==> s[j] == c.firstName[j];
  }

  // ---------------------------------------------------------------------------
  // Product

  /** `Product.objects.create(...)`: a field left out of the call takes the
      table's default (price 0, nothing sold, category 1); the description
      is never passed and is the empty text. */
  function CreateProduct(
    id: nat, title: string, material: string, image: string,
    price: Option<int>, amountSold: Option<int>, categoryId: Option<nat>): (p: Product)
    ensures p.id == id && p.title == title && p.material == material && p.image == image
    ensures price.None? ==> p.price == 0
    ensures price.Some? ==> p.price == price.value
    ensures amountSold.None? ==> p.amountSold == 0
    ensures amountSold.Some? ==> p.amountSold == amountSold.value
    ensures categoryId.None? ==> p.categoryId == 1
    ensures categoryId.Some? ==> p.categoryId == categoryId.value
    ensures p.description == Some("")
  {
    Product(id, title, material, Some(""), price.GetOr(0), amountSold.GetOr(0), categoryId.GetOr(1), image)
  }

  /** The condition of `Product.search`: the query occurs, ignoring case, in
      the title or in the category's name. */
  predicate MatchesQuery(categories: map<nat, Category>, q: string, p: Product) {
    || ContainsIgnoringCase(p.title, q)
    || (p.categoryId in categories && ContainsIgnoringCase(categories[p.categoryId].name, q))
  }

  function QueryIs(categories: map<nat, Category>, q: string): Product -> bool {
    (p: Product) => MatchesQuery(categories, q, p)
  }

  /** `Product.search(q)`: the products whose title or category name contains
      `q` as a case-insensitive substring. */
  function Search(products: seq<Product>, categories: map<nat, Category>, q: string): (r: seq<Product>)
    ensures forall p :: p in r <==> p in products && MatchesQuery(categories, q, p)
  {
    Filter(products, QueryIs(categories, q))
  }

  /** A query matches a text exactly when it occurs in it after both are
      lower-cased. */
  lemma SearchMatchIsFoldedOccurrence(categories: map<nat, Category>, q: string, p: Product)
    ensures MatchesQuery(categories, q, p) <==>
      || (exists i :: OccursAt(Lower(p.title), Lower(q), i))
      || (p.categoryId in categories && exists i :: OccursAt(Lower(categories[p.categoryId].name), Lower(q), i))
  {
    ContainsIgnoringCaseIffOccurs(p.title, q);
    if p.categoryId in categories {
      ContainsIgnoringCaseIffOccurs(categories[p.categoryId].name, q);
    }
  }

  /** Search does not see case: two queries that lower-case alike return the
      same products in the same order. */
  lemma SearchIgnoresCase(products: seq<Product>, categories: map<nat, Category>, q1: string, q2: string)
    requires Lower(q1) == Lower(q2)
    ensures Search(products, categories, q1) == Search(products, categories, q2)
  {
    FilterCongruent(products, QueryIs(categories, q1), QueryIs(categories, q2));
  }

  /** The empty query is a substring of every title, so it returns the whole
      table; only the search view's own guard keeps it from being run. */
  lemma EmptyQueryMatchesAll(products: seq<Product>, categories: map<nat, Category>)
    ensures Search(products, categories, "") == products
  {
    forall p | p in products
      ensures MatchesQuery(categories, "", p)
    {
      assert Lower("") <= Lower(p.title);
    }
    FilterAll(products, QueryIs(categories, ""));
  }

  function CategoryIs(id: nat): Product -> bool {
    (p: Product) => p.categoryId == id
  }

  /** `Product.get_all_products_by_category_id`: a falsy id (absent or 0)
      yields every product; any other id yields exactly the products in that
      category. */
  function ProductsByCategory(products: seq<Product>, id: Option<nat>): (r: seq<Product>)
    ensures (id == None || id == Some(0)) ==> r == products
    ensures id.Some? && id.value != 0 ==>
      forall p :: p in r <==> p in products && p.categoryId == id.value
  {
    match id
    case Some(k) => if k != 0 then Filter(products, CategoryIs(k)) else products
    case None => products
  }

  // ---------------------------------------------------------------------------
  // Order and OrderItem

  /** `Order.objects.create(...)`: an address or phone left out is the empty
      text and a status left out is "not fulfilled". */
  function CreateOrder(
    id: nat, customerId: nat,
    address: Option<string>, phone: Option<string>, status: Option<bool>): (o: Order)
    ensures o.id == id && o.customerId == customerId
    ensures address.None? ==> o.address == ""
    ensures address.Some? ==> o.address == address.value
    ensures phone.None? ==> o.phone == ""
    ensures phone.Some? ==> o.phone == phone.value
    ensures status.None? ==> !o.status
    ensures status.Some? ==> o.status == status.value
  {
    Order(id, customerId, address.GetOr(""), phone.GetOr(""), status.GetOr(false))
  }

  /** `Order.__str__`: the order id in decimal, which reads back as the id. */
  function OrderStr(o: Order): (s: string)
    ensures AllDigits(s) && ParseNat(s) == o.id
  {
    ParseNatToString(o.id);
    NatToString(o.id)
  }

  /** `OrderItem.objects.create(...)`: a quantity left out buys one unit;
      the price has no default and must be given. */
  function CreateOrderItem(orderId: nat, productId: nat, price: int, quantity: Option<int>): (item: OrderItem)
    ensures item.orderId == orderId && item.productId == productId && item.price == price
    ensures quantity.None? ==> item.quantity == 1
    ensures quantity.Some? ==> item.quantity == quantity.value
  {
    OrderItem(orderId, productId, quantity.GetOr(1), price)
  }

  /** `OrderItem.__str__`: "{quantity} x {product title}". */
  function OrderItemStr(item: OrderItem, productTitle: string): (s: string)
    ensures var n := |IntToString(item.quantity)|;
      && |s| == n + 3 + |productTitle|
      && IsIntText(s[..n]) && ParseInt(s[..n]) == item.quantity
      && s[n..n + 3] == " x " && s[n + 3..] == productTitle
  {
    var a := IntToString(item.quantity);
    var s := a + " x " + productTitle;
    ParseIntToString(item.quantity);
    assert s[..|a|] == a && s[|a|..|a| + 3] == " x " && s[|a| + 3..] == productTitle;
    s
  }

  /** Reads a rendered order item back into its quantity and title: the
      quantity runs up to the first space, which must open " x ". */
  function ParseOrderItemStr(s: string): Option<(int, string)> {
    var k := Find(s, ' ');
    if k < 0 || !(" x " <= s[k..]) || !IsIntText(s[..k]) then None
    else Some((ParseInt(s[..k]), s[k + 3..]))
  }

  lemma OrderItemStrRoundTrip(item: OrderItem, productTitle: string)
    ensures ParseOrderItemStr(OrderItemStr(item, productTitle)) == Some((item.quantity, productTitle))
  {
    var a := IntToString(item.quantity);
    var s := OrderItemStr(item, productTitle);
    assert s == a + (" x " + productTitle);
    assert s[|a|] == ' ';
    assert forall j :: 0 <= j < |a| ==> s[j] == a[j] && s[j] != ' ';
    assert Find(s, ' ') == |a|;
    assert s[..|a|] == a;
    assert s[|a|..] == " x " + productTitle;
    assert s[|a| + 3..] == productTitle;
    ParseIntToString(item.quantity);
  }
}
