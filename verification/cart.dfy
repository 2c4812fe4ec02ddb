/** The session cart: an insertion-ordered dictionary from the key
    "{title}_{id}" to a line item, plus the cart-wide quantity and total that
    every mutation recomputes from scratch. Prices are integers. */
module Carts {
  import opened Wrappers
  import opened Text

  /** One cart line. `productTotal` is `quantity * price` once recomputed. */
  datatype Line = Line(
    title: string,
    productId: nat,
    price: int,
    quantity: int,
    image: string,
    productTotal: int)

  datatype Entry = Entry(key: string, line: Line)

  /** The session's 'Cart' value: its random id (absent until the home page
      assigns one), the total quantity, the rounded total price and the
      lines in insertion order. */
  datatype Cart = Cart(cartId: Option<string>, quantity: int, total: int, products: seq<Entry>)

  /** The cart an add or a remove starts from when the session holds none. */
  const EmptyCart: Cart := Cart(None, 0, 0, [])

  /** `request.session.get('Cart', {})` with 'Quantity' and 'Products' filled in. */
  function SessionCart(stored: Option<Cart>): Cart {
    stored.GetOr(EmptyCart)
  }

  // ---------------------------------------------------------------------------
  // The key

  /** `f"{title}_{id}"` with the id in decimal. */
  function ProductKey(title: string, id: nat): (key: string)
    ensures |key| > |title| + 1
    ensures key[..|title|] == title && key[|title|] == '_'
    ensures AllDigits(key[|title| + 1..])
  {
    title + "_" + NatToString(id)
  }

  /** The last '_' of a key sits right after the title, because the id part
      is all digits. */
  lemma {:induction false} ProductKeySplit(title: string, id: nat)
    ensures RFind(ProductKey(title, id), '_') == |title|
    ensures ProductKey(title, id)[..|title|] == title
    ensures ProductKey(title, id)[|title| + 1..] == NatToString(id)
  {
    var key := ProductKey(title, id);
    var digits := NatToString(id);
    assert key[|title|] == '_';
    forall j | |title| < j < |key|
      ensures key[j] != '_'
    {
      assert key[j] == digits[j - |title| - 1];
    }
    assert key[..|title|] == title;
    assert key[|title| + 1..] == digits;
  }

  /** Distinct products never share a cart key: the key determines both the
      title and the id. */
  lemma ProductKeyInjective(t1: string, id1: nat, t2: string, id2: nat)
    requires ProductKey(t1, id1) == ProductKey(t2, id2)
    ensures t1 == t2 && id1 == id2
  {
    ProductKeySplit(t1, id1);
    ProductKeySplit(t2, id2);
    NatToStringInjective(id1, id2);
  }

  // ---------------------------------------------------------------------------
  // The dictionary of lines

  /** Where `key` sits in the cart, if anywhere: the first index holding it. */
  function IndexOf(entries: seq<Entry>, key: string): (r: Option<nat>)
    ensures r.Some? ==> r.value < |entries| && entries[r.value].key == key
    ensures r.Some? ==> forall j :: 0 <= j < r.value ==> entries[j].key != key
    ensures r.None? ==> forall j :: 0 <= j < |entries| ==> entries[j].key != key
  {
    if |entries| == 0 then None
    else if entries[0].key == key then Some(0)
    else match IndexOf(entries[1..], key)
      case Some(i) => Some(i + 1)
      case None => None
  }

  lemma IndexOfIs(entries: seq<Entry>, key: string, i: nat)
    requires i < |entries| && entries[i].key == key
    requires forall j :: 0 <= j < i ==> entries[j].key != key
    ensures IndexOf(entries, key) == Some(i)
  {
  }

  lemma IndexOfNone(entries: seq<Entry>, key: string)
    requires forall j :: 0 <= j < |entries| ==> entries[j].key != key
    ensures IndexOf(entries, key) == None
  {
  }

  /** Two carts whose keys agree index by index locate every key alike. */
  lemma SameKeysSameIndex(a: seq<Entry>, b: seq<Entry>, key: string)
    requires |a| == |b|
    requires forall i :: 0 <= i < |a| ==> a[i].key == b[i].key
    ensures IndexOf(a, key) == IndexOf(b, key)
  {
    match IndexOf(a, key)
    case Some(i) => IndexOfIs(b, key, i);
    case None => IndexOfNone(b, key);
  }

  /** The line stored under `key`, as `cart['Products'].get(key)`. */
  function Lookup(entries: seq<Entry>, key: string): Option<Line> {
    match IndexOf(entries, key)
    case Some(i) => Some(entries[i].line)
    case None => None
  }

  function Keys(entries: seq<Entry>): set<string> {
    set i | 0 <= i < |entries| :: entries[i].key
  }

  predicate DistinctKeys(entries: seq<Entry>) {
    forall i, j :: 0 <= i < j < |entries| ==> entries[i].key != entries[j].key
  }

  /** Every line still in the cart holds at least one unit. */
  predicate AllPositive(entries: seq<Entry>) {
    forall i :: 0 <= i < |entries| ==> entries[i].line.quantity >= 1
  }

  // ---------------------------------------------------------------------------
  // Totals

  function QuantityOf(l: Line): int { l.quantity }
  function LineTotalOf(l: Line): int { l.productTotal }
  function AmountOf(l: Line): int { l.quantity * l.price }

  /** The sum of `f` over the lines, in cart order. */
  function Sum(entries: seq<Entry>, f: Line -> int): int {
    if |entries| == 0 then 0 else f(entries[0].line) + Sum(entries[1..], f)
  }

  lemma {:induction false} SumConcat(a: seq<Entry>, b: seq<Entry>, f: Line -> int)
    ensures Sum(a + b, f) == Sum(a, f) + Sum(b, f)
  {
    if |a| > 0 {
      assert (a + b)[1..] == a[1..] + b;
      SumConcat(a[1..], b, f);
    } else {
      assert a + b == b;
    }
  }

  lemma SumSingle(e: Entry, f: Line -> int)
    ensures Sum([e], f) == f(e.line)
  {
    assert [e][1..] == [];
  }

  /** Replacing one line changes the sum by the difference of the two lines. */
  lemma SumUpdate(entries: seq<Entry>, i: nat, e: Entry, f: Line -> int)
    requires i < |entries|
    ensures Sum(entries[i := e], f) == Sum(entries, f) - f(entries[i].line) + f(e.line)
  {
    var u := entries[i := e];
    assert entries == entries[..i] + entries[i..];
    assert u == u[..i] + u[i..];
    assert u[..i] == entries[..i];
    assert u[i..][1..] == entries[i..][1..];
    SumConcat(entries[..i], entries[i..], f);
    SumConcat(u[..i], u[i..], f);
  }

  /** Deleting one line takes that line out of the sum. */
  lemma SumDelete(entries: seq<Entry>, i: nat, f: Line -> int)
    requires i < |entries|
    ensures Sum(entries[..i] + entries[i + 1..], f) == Sum(entries, f) - f(entries[i].line)
  {
    assert entries == entries[..i] + entries[i..];
    assert entries[i..][1..] == entries[i + 1..];
    SumConcat(entries[..i], entries[i..], f);
    SumConcat(entries[..i], entries[i + 1..], f);
  }

  lemma SumAppend(entries: seq<Entry>, e: Entry, f: Line -> int)
    ensures Sum(entries + [e], f) == Sum(entries, f) + f(e.line)
  {
    SumConcat(entries, [e], f);
    SumSingle(e, f);
  }

  /** Sums of two measures that agree line by line are equal. */
  lemma {:induction false} SumPointwise(a: seq<Entry>, b: seq<Entry>, f: Line -> int, g: Line -> int)
    requires |a| == |b|
    requires forall i :: 0 <= i < |a| ==> f(a[i].line) == g(b[i].line)
    ensures Sum(a, f) == Sum(b, g)
  {
    if |a| > 0 {
      SumPointwise(a[1..], b[1..], f, g);
    }
  }

  /** A line with its total recomputed as `quantity * price`. */
  function Refreshed(l: Line): Line {
    l.(productTotal := l.quantity * l.price)
  }

  function RefreshedOpt(l: Option<Line>): Option<Line> {
    match l
    case Some(x) => Some(Refreshed(x))
    case None => None
  }

  /** The loop that rewrites every line's 'Product_Total'. */
  function Refresh(entries: seq<Entry>): (r: seq<Entry>)
    ensures |r| == |entries|
    ensures forall i :: 0 <= i < |r| ==> r[i] == Entry(entries[i].key, Refreshed(entries[i].line))
    ensures LineTotalsAgree(r)
  {
    seq(|entries|, i requires 0 <= i < |entries| => Entry(entries[i].key, Refreshed(entries[i].line)))
  }

  /** Every line's total is its quantity times its price. */
  predicate LineTotalsAgree(entries: seq<Entry>) {
    forall i :: 0 <= i < |entries| ==> entries[i].line.productTotal == AmountOf(entries[i].line)
  }

  lemma RefreshFixed(entries: seq<Entry>)
    requires LineTotalsAgree(entries)
    ensures Refresh(entries) == entries
  {
  }

  /** The totals of a cart agree with its lines: each line total is quantity
      times price, 'Quantity' is the sum of the quantities and 'Cart_Total'
      the sum of the line totals. */
  predicate TotalsConsistent(c: Cart) {
    && LineTotalsAgree(c.products)
    && c.quantity == Sum(c.products, QuantityOf)
    && c.total == Sum(c.products, LineTotalOf)
  }

  /** The invariant every cart reachable by adds and removes keeps. */
  predicate WellFormed(c: Cart) {
    DistinctKeys(c.products) && AllPositive(c.products) && TotalsConsistent(c)
  }

  /** Recomputing the totals from scratch over `entries`. */
  function Recount(c: Cart, entries: seq<Entry>): (r: Cart)
    ensures TotalsConsistent(r)
    ensures r.cartId == c.cartId
    ensures r.products == Refresh(entries)
  {
    var refreshed := Refresh(entries);
    Cart(c.cartId, Sum(refreshed, QuantityOf), Sum(refreshed, LineTotalOf), refreshed)
  }

  /** The cart total is the sum of quantity times price over the lines. */
  lemma CartTotalIsAmount(c: Cart)
    requires TotalsConsistent(c)
    ensures c.total == Sum(c.products, AmountOf)
  {
    SumPointwise(c.products, c.products, LineTotalOf, AmountOf);
  }

  /** Recounting a cart whose totals already agree changes nothing. */
  lemma RecountConsistent(c: Cart)
    requires TotalsConsistent(c)
    ensures Refresh(c.products) == c.products
    ensures Recount(c, c.products) == c
  {
    assert Refresh(c.products) == c.products;
  }

  lemma RefreshSums(entries: seq<Entry>)
    ensures Sum(Refresh(entries), QuantityOf) == Sum(entries, QuantityOf)
    ensures Sum(Refresh(entries), LineTotalOf) == Sum(entries, AmountOf)
  {
    SumPointwise(Refresh(entries), entries, QuantityOf, QuantityOf);
    SumPointwise(Refresh(entries), entries, LineTotalOf, AmountOf);
  }

  lemma RefreshKeys(entries: seq<Entry>)
    ensures Keys(Refresh(entries)) == Keys(entries)
    ensures DistinctKeys(entries) ==> DistinctKeys(Refresh(entries))
    ensures AllPositive(entries) ==> AllPositive(Refresh(entries))
    ensures forall key :: Lookup(Refresh(entries), key) == RefreshedOpt(Lookup(entries, key))
  {
    var r := Refresh(entries);
    forall key
      ensures Lookup(r, key) == RefreshedOpt(Lookup(entries, key))
    {
      SameKeysSameIndex(r, entries, key);
    }
    assert forall k :: k in Keys(r) ==> k in Keys(entries);
    assert forall k :: k in Keys(entries) ==> k in Keys(r);
  }

  // ---------------------------------------------------------------------------
  // add_to_cart and remove_from_cart

  /** The line `add_to_cart` stores for a key not yet in the cart; its total
      is filled in by the recount. */
  function NewLine(title: string, id: nat, price: int, image: string): Line {
    Line(title, id, price, 1, image, 0)
  }

  /** The lines after `add_to_cart` has touched the key, before the totals
      are recomputed. */
  function AddedLines(entries: seq<Entry>, title: string, id: nat, price: int, image: string): seq<Entry> {
    var key := ProductKey(title, id);
    match IndexOf(entries, key)
    case Some(i) =>
      var l := entries[i].line;
      entries[i := Entry(key, l.(quantity := l.quantity + 1))]
    case None =>
      entries + [Entry(key, NewLine(title, id, price, image))]
  }

  /** `add_to_cart`: increment the line under "{title}_{id}", or append a new
      line holding one unit at `price`; then recompute every total. */
  function AddToCart(c: Cart, title: string, id: nat, price: int, image: string): (r: Cart)
    ensures TotalsConsistent(r)
    ensures r.cartId == c.cartId
  {
    Recount(c, AddedLines(c.products, title, id, price, image))
  }

  /** The lines after `remove_from_cart` has touched the key, before the
      totals are recomputed. */
  function RemainingLines(entries: seq<Entry>, title: string, id: nat): seq<Entry> {
    var key := ProductKey(title, id);
    match IndexOf(entries, key)
    case Some(i) =>
      var l := entries[i].line.(quantity := entries[i].line.quantity - 1);
      if l.quantity <= 0 then entries[..i] + entries[i + 1..]
      else entries[i := Entry(key, l)]
    case None =>
      entries
  }

  /** `remove_from_cart`: decrement the line under "{title}_{id}" and delete
      it once its quantity is 0 or less; an absent key is left alone; then
      recompute every total. The price and image in the URL play no part. */
  function RemoveFromCart(c: Cart, title: string, id: nat): (r: Cart)
    ensures TotalsConsistent(r)
    ensures r.cartId == c.cartId
  {
    Recount(c, RemainingLines(c.products, title, id))
  }

  // ---------------------------------------------------------------------------
  // Editing one line of the dictionary

  /** Appending a line whose key is new leaves every other key where it was. */
  lemma AppendOtherKey(entries: seq<Entry>, e: Entry, key: string)
    requires key != e.key
    ensures Lookup(entries + [e], key) == Lookup(entries, key)
  {
    var es := entries + [e];
    match IndexOf(entries, key)
    case Some(j) => IndexOfIs(es, key, j);
    case None => IndexOfNone(es, key);
  }

  /** Replacing the line at `i` by one with the same key leaves every other
      key's line alone. */
  lemma UpdateOtherKey(entries: seq<Entry>, i: nat, e: Entry, key: string)
    requires i < |entries| && e.key == entries[i].key && key != e.key
    ensures Lookup(entries[i := e], key) == Lookup(entries, key)
  {
    SameKeysSameIndex(entries[i := e], entries, key);
  }

  /** Deleting the line at `i` leaves every other key's line alone. */
  lemma DeleteOtherKey(entries: seq<Entry>, i: nat, key: string)
    requires i < |entries| && key != entries[i].key
    ensures Lookup(entries[..i] + entries[i + 1..], key) == Lookup(entries, key)
  {
    var es := entries[..i] + entries[i + 1..];
    match IndexOf(entries, key)
    case Some(j) =>
      if j < i {
        IndexOfIs(es, key, j);
      } else {
        assert es[j - 1] == entries[j];
        forall k | 0 <= k < j - 1
          ensures es[k].key != key
        {
          if k >= i {
            assert es[k] == entries[k + 1];
          }
        }
        IndexOfIs(es, key, j - 1);
      }
    case None =>
      forall k | 0 <= k < |es|
        ensures es[k].key != key
      {
        if k >= i {
          assert es[k] == entries[k + 1];
        }
      }
      IndexOfNone(es, key);
  }

  /** Appending a line under a new key adds exactly that key. */
  lemma AppendKeys(entries: seq<Entry>, e: Entry)
    requires forall j :: 0 <= j < |entries| ==> entries[j].key != e.key
    ensures Keys(entries + [e]) == Keys(entries) + {e.key}
    ensures DistinctKeys(entries) ==> DistinctKeys(entries + [e])
    ensures Lookup(entries + [e], e.key) == Some(e.line)
  {
    var es := entries + [e];
    IndexOfIs(es, e.key, |entries|);
    assert es[|entries|].key == e.key;
    assert forall k :: k in Keys(es) ==> k in Keys(entries) + {e.key};
    forall k | k in Keys(entries)
      ensures k in Keys(es)
    {
      var j :| 0 <= j < |entries| && entries[j].key == k;
      assert es[j] == entries[j];
    }
  }

  /** Rewriting the line a key is found at keeps the set of keys. */
  lemma UpdateKeys(entries: seq<Entry>, i: nat, e: Entry)
    requires IndexOf(entries, e.key) == Some(i)
    ensures Keys(entries[i := e]) == Keys(entries)
    ensures DistinctKeys(entries) ==> DistinctKeys(entries[i := e])
    ensures Lookup(entries[i := e], e.key) == Some(e.line)
  {
    var es := entries[i := e];
    SameKeysSameIndex(es, entries, e.key);
    assert forall k :: k in Keys(es) ==> k in Keys(entries);
    assert forall k :: k in Keys(entries) ==> k in Keys(es);
  }

  /** Deleting a line of a dictionary with distinct keys removes its key. */
  lemma DeleteKeys(entries: seq<Entry>, i: nat)
    requires i < |entries| && DistinctKeys(entries)
    ensures Keys(entries[..i] + entries[i + 1..]) == Keys(entries) - {entries[i].key}
    ensures DistinctKeys(entries[..i] + entries[i + 1..])
    ensures Lookup(entries[..i] + entries[i + 1..], entries[i].key) == None
  {
    var key := entries[i].key;
    var es := entries[..i] + entries[i + 1..];
    assert forall k :: 0 <= k < |es| ==> es[k] == (if k < i then entries[k] else entries[k + 1]);
    IndexOfNone(es, key);
    forall k | k in Keys(es)
      ensures k in Keys(entries) - {key}
    {
      var j :| 0 <= j < |es| && es[j].key == k;
    }
    forall k | k in Keys(entries) - {key}
      ensures k in Keys(es)
    {
      var j :| 0 <= j < |entries| && entries[j].key == k;
      if j < i {
        assert es[j] == entries[j];
      } else {
        assert es[j - 1] == entries[j];
      }
    }
  }

  /** `add_to_cart` leaves the lines of every other key as they were. */
  lemma AddedLinesOthers(entries: seq<Entry>, title: string, id: nat, price: int, image: string)
    ensures var key := ProductKey(title, id);
      var es := AddedLines(entries, title, id, price, image);
      forall other :: other != key ==> Lookup(es, other) == Lookup(entries, other)
  {
    var key := ProductKey(title, id);
    match IndexOf(entries, key)
    case Some(i) =>
      var l := entries[i].line;
      var e := Entry(key, l.(quantity := l.quantity + 1));
      forall other | other != key
        ensures Lookup(entries[i := e], other) == Lookup(entries, other)
      {
        UpdateOtherKey(entries, i, e, other);
      }
    case None =>
      var e := Entry(key, NewLine(title, id, price, image));
      forall other | other != key
        ensures Lookup(entries + [e], other) == Lookup(entries, other)
      {
        AppendOtherKey(entries, e, other);
      }
  }

  /** Deleting a line keeps keys distinct and quantities positive. */
  lemma DeletePreserves(entries: seq<Entry>, i: nat)
    requires i < |entries|
    ensures DistinctKeys(entries) ==> DistinctKeys(entries[..i] + entries[i + 1..])
    ensures AllPositive(entries) ==> AllPositive(entries[..i] + entries[i + 1..])
  {
    var es := entries[..i] + entries[i + 1..];
    forall k | 0 <= k < |es|
      ensures es[k] == (if k < i then entries[k] else entries[k + 1])
    {
    }
  }

  /** Rewriting a line under its own key keeps keys distinct, and keeps
      quantities positive when the new line holds a unit. */
  lemma UpdatePreserves(entries: seq<Entry>, i: nat, e: Entry)
    requires i < |entries| && e.key == entries[i].key
    ensures DistinctKeys(entries) ==> DistinctKeys(entries[i := e])
    ensures AllPositive(entries) && e.line.quantity >= 1 ==> AllPositive(entries[i := e])
  {
    forall k | 0 <= k < |entries|
      ensures entries[i := e][k] == (if k == i then e else entries[k])
    {
    }
  }

  /** `add_to_cart` stores one unit under a fresh key, or one more unit under
      a present key. */
  lemma AddedLinesKey(entries: seq<Entry>, title: string, id: nat, price: int, image: string)
    ensures var key := ProductKey(title, id);
      var es := AddedLines(entries, title, id, price, image);
      && (Lookup(entries, key).None? ==> Lookup(es, key) == Some(NewLine(title, id, price, image)))
      && (Lookup(entries, key).Some? ==>
            var l := Lookup(entries, key).value;
            Lookup(es, key) == Some(l.(quantity := l.quantity + 1)))
  {
    var key := ProductKey(title, id);
    match IndexOf(entries, key)
    case Some(i) =>
      var l := entries[i].line;
      UpdateKeys(entries, i, Entry(key, l.(quantity := l.quantity + 1)));
    case None =>
      AppendKeys(entries, Entry(key, NewLine(title, id, price, image)));
  }

  /** `add_to_cart` adds exactly its key. */
  lemma AddedLinesKeys(entries: seq<Entry>, title: string, id: nat, price: int, image: string)
    ensures Keys(AddedLines(entries, title, id, price, image)) == Keys(entries) + {ProductKey(title, id)}
  {
    var key := ProductKey(title, id);
    match IndexOf(entries, key)
    case Some(i) =>
      var l := entries[i].line;
      UpdateKeys(entries, i, Entry(key, l.(quantity := l.quantity + 1)));
    case None =>
      AppendKeys(entries, Entry(key, NewLine(title, id, price, image)));
  }

  /** `add_to_cart` keeps keys distinct and quantities positive. */
  lemma AddedLinesInvariant(entries: seq<Entry>, title: string, id: nat, price: int, image: string)
    ensures var es := AddedLines(entries, title, id, price, image);
      && (DistinctKeys(entries) ==> DistinctKeys(es))
      && (AllPositive(entries) ==> AllPositive(es))
  {
    var key := ProductKey(title, id);
    match IndexOf(entries, key)
    case Some(i) =>
      var l := entries[i].line;
      UpdatePreserves(entries, i, Entry(key, l.(quantity := l.quantity + 1)));
    case None =>
      var e := Entry(key, NewLine(title, id, price, image));
      AppendKeys(entries, e);
      assert forall k :: 0 <= k < |entries| ==> (entries + [e])[k] == entries[k];
  }

  /** `remove_from_cart` leaves the lines of every other key as they were. */
  lemma RemainingLinesOthers(entries: seq<Entry>, title: string, id: nat)
    ensures var key := ProductKey(title, id);
      var es := RemainingLines(entries, title, id);
      forall other :: other != key ==> Lookup(es, other) == Lookup(entries, other)
  {
    var key := ProductKey(title, id);
    match IndexOf(entries, key)
    case Some(i) =>
      var m := entries[i].line.(quantity := entries[i].line.quantity - 1);
      if m.quantity <= 0 {
        forall other | other != key
          ensures Lookup(entries[..i] + entries[i + 1..], other) == Lookup(entries, other)
        {
          DeleteOtherKey(entries, i, other);
        }
      } else {
        forall other | other != key
          ensures Lookup(entries[i := Entry(key, m)], other) == Lookup(entries, other)
        {
          UpdateOtherKey(entries, i, Entry(key, m), other);
        }
      }
    case None =>
  }

  /** `remove_from_cart` leaves an absent key's cart alone, and otherwise
      takes one unit off the key's line, deleting it when none is left. */
  lemma RemainingLinesKey(entries: seq<Entry>, title: string, id: nat)
    ensures var key := ProductKey(title, id);
      var es := RemainingLines(entries, title, id);
      && (Lookup(entries, key).None? ==> es == entries)
      && (Lookup(entries, key).Some? && Lookup(entries, key).value.quantity - 1 > 0 ==>
            var l := Lookup(entries, key).value;
            Lookup(es, key) == Some(l.(quantity := l.quantity - 1)) && Keys(es) == Keys(entries))
      && (Lookup(entries, key).Some? && Lookup(entries, key).value.quantity - 1 <= 0 && DistinctKeys(entries) ==>
            Lookup(es, key).None? && Keys(es) == Keys(entries) - {key})
  {
    var key := ProductKey(title, id);
    match IndexOf(entries, key)
    case Some(i) =>
      var m := entries[i].line.(quantity := entries[i].line.quantity - 1);
      if m.quantity <= 0 {
        if DistinctKeys(entries) {
          DeleteKeys(entries, i);
        }
      } else {
        UpdateKeys(entries, i, Entry(key, m));
      }
    case None =>
  }

  /** `remove_from_cart` keeps keys distinct and quantities positive. */
  lemma RemainingLinesInvariant(entries: seq<Entry>, title: string, id: nat)
    ensures var es := RemainingLines(entries, title, id);
      && (DistinctKeys(entries) ==> DistinctKeys(es))
      && (AllPositive(entries) ==> AllPositive(es))
  {
    var key := ProductKey(title, id);
    match IndexOf(entries, key)
    case Some(i) =>
      var m := entries[i].line.(quantity := entries[i].line.quantity - 1);
      if m.quantity <= 0 {
        DeletePreserves(entries, i);
      } else {
        UpdatePreserves(entries, i, Entry(key, m));
      }
    case None =>
  }

  /** `add_to_cart` adds one unit, and its unit price, to the sums. */
  lemma AddedLinesSums(entries: seq<Entry>, title: string, id: nat, price: int, image: string)
    ensures var key := ProductKey(title, id);
      var es := AddedLines(entries, title, id, price, image);
      && Lookup(es, key).Some?
      && Sum(es, QuantityOf) == Sum(entries, QuantityOf) + 1
      && Sum(es, AmountOf) == Sum(entries, AmountOf) + Lookup(es, key).value.price
  {
    var key := ProductKey(title, id);
    AddedLinesKey(entries, title, id, price, image);
    match IndexOf(entries, key)
    case Some(i) =>
      var l := entries[i].line;
      var e := Entry(key, l.(quantity := l.quantity + 1));
      SumUpdate(entries, i, e, QuantityOf);
      SumUpdate(entries, i, e, AmountOf);
      assert AmountOf(e.line) == AmountOf(l) + l.price by {
        assert (l.quantity + 1) * l.price == l.quantity * l.price + l.price;
      }
    case None =>
      var e := Entry(key, NewLine(title, id, price, image));
      SumAppend(entries, e, QuantityOf);
      SumAppend(entries, e, AmountOf);
  }

  /** `remove_from_cart` on a present key whose line holds a unit takes one
      unit, and its unit price, out of the sums. */
  lemma RemainingLinesSums(entries: seq<Entry>, title: string, id: nat)
    requires AllPositive(entries)
    ensures var key := ProductKey(title, id);
      var es := RemainingLines(entries, title, id);
      && (Lookup(entries, key).Some? ==>
            && Sum(es, QuantityOf) == Sum(entries, QuantityOf) - 1
            && Sum(es, AmountOf) == Sum(entries, AmountOf) - Lookup(entries, key).value.price)
      && (Lookup(entries, key).None? ==> es == entries)
  {
    var key := ProductKey(title, id);
    match IndexOf(entries, key)
    case Some(i) =>
      var l := entries[i].line;
      var m := l.(quantity := l.quantity - 1);
      if m.quantity <= 0 {
        assert l.quantity == 1;
        SumDelete(entries, i, QuantityOf);
        SumDelete(entries, i, AmountOf);
      } else {
        var e := Entry(key, m);
        SumUpdate(entries, i, e, QuantityOf);
        SumUpdate(entries, i, e, AmountOf);
        assert AmountOf(m) == AmountOf(l) - l.price by {
          assert (l.quantity - 1) * l.price == l.quantity * l.price - l.price;
        }
      }
    case None =>
  }

  // ---------------------------------------------------------------------------
  // Properties of add_to_cart and remove_from_cart

  /** Adding a fresh key inserts one unit at the given title, id, price and
      image; adding a present key raises only that line's quantity, by one;
      either way the key is in the cart afterwards and no other key appears. */
  lemma AddInsertsOrIncrements(c: Cart, title: string, id: nat, price: int, image: string)
    ensures var key := ProductKey(title, id);
      var r := AddToCart(c, title, id, price, image);
      && (Lookup(c.products, key).None? ==>
            Lookup(r.products, key) == Some(Line(title, id, price, 1, image, price)))
      && (Lookup(c.products, key).Some? ==>
            var l := Lookup(c.products, key).value;
            Lookup(r.products, key) == Some(Refreshed(l.(quantity := l.quantity + 1))))
      && Keys(r.products) == Keys(c.products) + {key}
  {
    AddedLinesKey(c.products, title, id, price, image);
    AddedLinesKeys(c.products, title, id, price, image);
    RefreshKeys(AddedLines(c.products, title, id, price, image));
  }

  /** Add and remove never touch a line stored under another key, beyond
      recomputing its total. */
  lemma OtherKeysUntouched(c: Cart, title: string, id: nat, price: int, image: string, other: string)
    requires other != ProductKey(title, id)
    ensures Lookup(AddToCart(c, title, id, price, image).products, other) == RefreshedOpt(Lookup(c.products, other))
    ensures Lookup(RemoveFromCart(c, title, id).products, other) == RefreshedOpt(Lookup(c.products, other))
  {
    AddedLinesOthers(c.products, title, id, price, image);
    RefreshKeys(AddedLines(c.products, title, id, price, image));
    RemainingLinesOthers(c.products, title, id);
    RefreshKeys(RemainingLines(c.products, title, id));
  }

  /** Removing a present key takes one unit off its line, and deletes the
      line when no unit is left. */
  lemma RemoveDecrementsOrDeletes(c: Cart, title: string, id: nat)
    requires DistinctKeys(c.products)
    requires Lookup(c.products, ProductKey(title, id)).Some?
    ensures var key := ProductKey(title, id);
      var l := Lookup(c.products, key).value;
      var r := RemoveFromCart(c, title, id);
      && (l.quantity - 1 <= 0 ==> Lookup(r.products, key).None? && Keys(r.products) == Keys(c.products) - {key})
      && (l.quantity - 1 > 0 ==>
            Lookup(r.products, key) == Some(Refreshed(l.(quantity := l.quantity - 1)))
            && Keys(r.products) == Keys(c.products))
  {
    RemainingLinesKey(c.products, title, id);
    RefreshKeys(RemainingLines(c.products, title, id));
  }

  /** Removing an absent key keeps every line and recomputes only the totals;
      on a cart whose totals already agree it is a no-op. */
  lemma RemoveAbsentKeepsLines(c: Cart, title: string, id: nat)
    requires Lookup(c.products, ProductKey(title, id)).None?
    ensures var r := RemoveFromCart(c, title, id);
      && Keys(r.products) == Keys(c.products)
      && (forall key :: Lookup(r.products, key) == RefreshedOpt(Lookup(c.products, key)))
      && (TotalsConsistent(c) ==> r == c)
  {
    RemainingLinesKey(c.products, title, id);
    RefreshKeys(c.products);
    if TotalsConsistent(c) {
      RecountConsistent(c);
    }
  }

  /** Add keeps the cart invariant: distinct keys, at least one unit per
      line, totals that agree with the lines. */
  lemma AddPreservesWellFormed(c: Cart, title: string, id: nat, price: int, image: string)
    requires WellFormed(c)
    ensures WellFormed(AddToCart(c, title, id, price, image))
  {
    AddedLinesInvariant(c.products, title, id, price, image);
    RefreshKeys(AddedLines(c.products, title, id, price, image));
  }

  /** Remove keeps the cart invariant; in particular every line left in the
      cart holds at least one unit. */
  lemma RemovePreservesWellFormed(c: Cart, title: string, id: nat)
    requires WellFormed(c)
    ensures WellFormed(RemoveFromCart(c, title, id))
  {
    RemainingLinesInvariant(c.products, title, id);
    RefreshKeys(RemainingLines(c.products, title, id));
  }

  /** An add puts exactly one more unit in the cart and raises the cart total
      by the unit price of the line it touched. */
  lemma AddCountsOneMore(c: Cart, title: string, id: nat, price: int, image: string)
    requires TotalsConsistent(c)
    ensures var key := ProductKey(title, id);
      var r := AddToCart(c, title, id, price, image);
      && Lookup(r.products, key).Some?
      && r.quantity == c.quantity + 1
      && r.total == c.total + Lookup(r.products, key).value.price
  {
    var es := AddedLines(c.products, title, id, price, image);
    CartTotalIsAmount(c);
    AddedLinesSums(c.products, title, id, price, image);
    RefreshSums(es);
    RefreshKeys(es);
  }

  /** A remove of a present key takes exactly one unit, and its unit price,
      out of the cart; a remove of an absent key changes neither total. */
  lemma RemoveCountsOneLess(c: Cart, title: string, id: nat)
    requires WellFormed(c)
    ensures var key := ProductKey(title, id);
      var r := RemoveFromCart(c, title, id);
      && (Lookup(c.products, key).Some? ==>
            r.quantity == c.quantity - 1 && r.total == c.total - Lookup(c.products, key).value.price)
      && (Lookup(c.products, key).None? ==> r.quantity == c.quantity && r.total == c.total)
  {
    CartTotalIsAmount(c);
    RemainingLinesSums(c.products, title, id);
    RefreshSums(RemainingLines(c.products, title, id));
    RecountConsistent(c);
  }

  /** Recomputing totals after rewriting one line of a cart whose totals
      agree touches only that line. */
  lemma RefreshUpdate(entries: seq<Entry>, i: nat, e: Entry)
    requires LineTotalsAgree(entries) && i < |entries|
    ensures Refresh(entries[i := e]) == entries[i := Entry(e.key, Refreshed(e.line))]
  {
  }

  /** Adding a present key rewrites its line in place. */
  lemma AddedLinesAt(entries: seq<Entry>, title: string, id: nat, price: int, image: string, i: nat)
    requires IndexOf(entries, ProductKey(title, id)) == Some(i)
    ensures AddedLines(entries, title, id, price, image)
         == entries[i := Entry(ProductKey(title, id), entries[i].line.(quantity := entries[i].line.quantity + 1))]
  {
  }

  /** Removing a key held more than once rewrites its line in place. */
  lemma RemainingLinesAt(entries: seq<Entry>, title: string, id: nat, i: nat)
    requires IndexOf(entries, ProductKey(title, id)) == Some(i)
    requires entries[i].line.quantity > 1
    ensures RemainingLines(entries, title, id)
         == entries[i := Entry(ProductKey(title, id), entries[i].line.(quantity := entries[i].line.quantity - 1))]
  {
  }

  /** The line of a present key after an add and its recount. */
  function UpEntry(key: string, l: Line): Entry {
    Entry(key, Refreshed(l.(quantity := l.quantity + 1)))
  }

  /** That line after a remove, before the next recount. */
  function DownEntry(key: string, l: Line): Entry {
    Entry(key, UpEntry(key, l).line.(quantity := l.quantity))
  }

  /** One unit more of a present key, with the totals recomputed. */
  lemma AddedPresentRefreshed(entries: seq<Entry>, title: string, id: nat, price: int, image: string, i: nat)
    requires LineTotalsAgree(entries)
    requires IndexOf(entries, ProductKey(title, id)) == Some(i)
    ensures Refresh(AddedLines(entries, title, id, price, image))
         == entries[i := UpEntry(ProductKey(title, id), entries[i].line)]
  {
    var l := entries[i].line;
    AddedLinesAt(entries, title, id, price, image, i);
    RefreshUpdate(entries, i, Entry(ProductKey(title, id), l.(quantity := l.quantity + 1)));
  }

  /** Rewriting the first line of a key under that same key leaves it first. */
  lemma UpdateKeepsIndex(entries: seq<Entry>, key: string, i: nat, e: Entry)
    requires IndexOf(entries, key) == Some(i) && e.key == key
    ensures IndexOf(entries[i := e], key) == Some(i)
  {
    IndexOfIs(entries[i := e], key, i);
  }

  /** Two rewrites of the same position keep only the second. */
  lemma UpdateTwice(entries: seq<Entry>, i: nat, x: Entry, y: Entry)
    requires i < |entries|
    ensures entries[i := x][i := y] == entries[i := y]
  {
  }

  /** Removing a key just bumped rewrites its line in place, one unit down. */
  lemma RemovedBumpLines(entries: seq<Entry>, title: string, id: nat, i: nat)
    requires AllPositive(entries)
    requires IndexOf(entries, ProductKey(title, id)) == Some(i)
    ensures var key := ProductKey(title, id);
      RemainingLines(entries[i := UpEntry(key, entries[i].line)], title, id)
        == entries[i := DownEntry(key, entries[i].line)]
  {
    var key := ProductKey(title, id);
    var l := entries[i].line;
    var a := entries[i := UpEntry(key, l)];
    UpdateKeepsIndex(entries, key, i, UpEntry(key, l));
    assert a[i].line.quantity == l.quantity + 1 > 1;
    RemainingLinesAt(a, title, id, i);
    assert a[i := Entry(key, a[i].line.(quantity := a[i].line.quantity - 1))] == a[i := DownEntry(key, l)];
    UpdateTwice(entries, i, UpEntry(key, l), DownEntry(key, l));
  }

  /** Rewriting a line into one whose recomputed form is the original line
      is undone by recomputing the totals. */
  lemma RefreshRestores(entries: seq<Entry>, i: nat, e: Entry)
    requires LineTotalsAgree(entries) && i < |entries|
    requires e.key == entries[i].key && Refreshed(e.line) == entries[i].line
    ensures Refresh(entries[i := e]) == entries
  {
    RefreshUpdate(entries, i, e);
    assert entries[i := Entry(e.key, Refreshed(e.line))] == entries;
  }

  /** One unit less of a key just bumped, with the totals recomputed, gives
      back the lines before the bump. */
  lemma RemovedBumpRefreshed(entries: seq<Entry>, title: string, id: nat, i: nat)
    requires LineTotalsAgree(entries) && AllPositive(entries)
    requires IndexOf(entries, ProductKey(title, id)) == Some(i)
    ensures var key := ProductKey(title, id);
      Refresh(RemainingLines(entries[i := UpEntry(key, entries[i].line)], title, id)) == entries
  {
    var key := ProductKey(title, id);
    var l := entries[i].line;
    RemovedBumpLines(entries, title, id, i);
    assert entries[i].key == key;
    assert Refreshed(DownEntry(key, l).line) == l;
    RefreshRestores(entries, i, DownEntry(key, l));
  }

  /** The round trip on the lines of a present key: one unit more, then one
      unit less, then the totals recomputed. */
  lemma AddThenRemovePresent(entries: seq<Entry>, title: string, id: nat, price: int, image: string, i: nat)
    requires LineTotalsAgree(entries) && AllPositive(entries)
    requires IndexOf(entries, ProductKey(title, id)) == Some(i)
    ensures Refresh(RemainingLines(Refresh(AddedLines(entries, title, id, price, image)), title, id)) == entries
  {
    AddedPresentRefreshed(entries, title, id, price, image, i);
    RemovedBumpRefreshed(entries, title, id, i);
  }

  /** The round trip on the lines of a fresh key: a new line, then its
      deletion. */
  lemma AddThenRemoveFresh(entries: seq<Entry>, title: string, id: nat, price: int, image: string)
    requires LineTotalsAgree(entries)
    requires IndexOf(entries, ProductKey(title, id)).None?
    ensures Refresh(RemainingLines(Refresh(AddedLines(entries, title, id, price, image)), title, id)) == entries
  {
    var key := ProductKey(title, id);
    var e := Entry(key, NewLine(title, id, price, image));
    AppendedRefreshed(entries, e);
    DeleteLast(entries, Entry(key, Refreshed(e.line)));
    RefreshFixed(entries);
  }

  /** Recounting after an append recounts the new line only. */
  lemma AppendedRefreshed(entries: seq<Entry>, e: Entry)
    requires LineTotalsAgree(entries)
    ensures Refresh(entries + [e]) == entries + [Entry(e.key, Refreshed(e.line))]
  {
  }

  /** A key appended at the end, and absent before, is deleted by one remove
      of a single unit. */
  lemma DeleteLast(entries: seq<Entry>, e: Entry)
    requires e.line.quantity == 1
    requires forall j :: 0 <= j < |entries| ==> entries[j].key != e.key
    ensures forall title, id :: ProductKey(title, id) == e.key ==>
      RemainingLines(entries + [e], title, id) == entries
  {
    var n := |entries|;
    var a := entries + [e];
    IndexOfIs(a, e.key, n);
    assert a[..n] + a[n + 1..] == entries;
  }

  /** Adding a product and then removing it restores the cart exactly, whether
      or not its key was already present. */
  lemma AddThenRemove(c: Cart, title: string, id: nat, price: int, image: string)
    requires WellFormed(c)
    ensures RemoveFromCart(AddToCart(c, title, id, price, image), title, id) == c
  {
    var key := ProductKey(title, id);
    match IndexOf(c.products, key)
    case Some(i) => AddThenRemovePresent(c.products, title, id, price, image, i);
    case None => AddThenRemoveFresh(c.products, title, id, price, image);
  }

  // ---------------------------------------------------------------------------
  // Sequences of cart operations

  datatype CartOp =
    | Add(title: string, id: nat, price: int, image: string)
    | Remove(title: string, id: nat)

  function Apply(c: Cart, op: CartOp): Cart {
    match op
    case Add(t, id, p, img) => AddToCart(c, t, id, p, img)
    case Remove(t, id) => RemoveFromCart(c, t, id)
  }

  function Replay(c: Cart, ops: seq<CartOp>): Cart
    decreases |ops|
  {
    if |ops| == 0 then c else Replay(Apply(c, ops[0]), ops[1..])
  }

  /** Any sequence of adds and removes keeps the cart invariant. */
  lemma {:induction false} ReplayPreservesWellFormed(c: Cart, ops: seq<CartOp>)
    requires WellFormed(c)
    ensures WellFormed(Replay(c, ops))
    decreases |ops|
  {
    if |ops| > 0 {
      match ops[0] {
        case Add(t, id, p, img) => AddPreservesWellFormed(c, t, id, p, img);
        case Remove(t, id) => RemovePreservesWellFormed(c, t, id);
      }
      ReplayPreservesWellFormed(Apply(c, ops[0]), ops[1..]);
    }
  }

  /** Every cart a session can build from nothing, by any sequence of adds and
      removes, has distinct keys, positive quantities and agreeing totals. */
  lemma SessionCartsWellFormed(ops: seq<CartOp>)
    ensures WellFormed(Replay(EmptyCart, ops))
  {
    ReplayPreservesWellFormed(EmptyCart, ops);
  }
}
