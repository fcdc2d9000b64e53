/**
 The cart: a map from product to quantity, its subtotal, and the
 discount, total and description the pricing rule derives from it.
 */
module Orders {
  import opened Products
  import opened Numerals
  import Pricing

  /** An order's items. Being a map, it holds at most one entry per product. */
  datatype Order = Order(items: map<Product, int>)

  /** `new Order()`. */
  function NewOrder(): Order {
    Order(map[])
  }

  /** `items.getOrDefault(p, 0)`. */
  function Quantity(o: Order, p: Product): int {
    if p in o.items then o.items[p] else 0
  }

  /** `addItem(p, q)`: adds `q` to the quantity already held for `p` (0 when
      absent), in Java `int` arithmetic, so a sum beyond the `int` range
      wraps around. No sign check is made here. */
  function AddItem(o: Order, p: Product, q: int): (o': Order)
    ensures o'.items.Keys == o.items.Keys + {p}
    ensures o'.items[p] == WrapInt(Quantity(o, p) + q)
    ensures MinInt <= Quantity(o, p) + q <= MaxInt ==> o'.items[p] == Quantity(o, p) + q
    ensures forall k :: k in o.items && k != p ==> o'.items[k] == o.items[k]
  {
    Order(o.items[p := WrapInt(Quantity(o, p) + q)])
  }

  /** `getItems().remove(p)`: drops the whole entry for `p`, whatever its
      quantity; nothing happens when `p` is absent. */
  function RemoveEntry(o: Order, p: Product): (o': Order)
    ensures o'.items.Keys == o.items.Keys - {p}
    ensures forall k :: k in o'.items ==> o'.items[k] == o.items[k]
  {
    Order(map k | k in o.items && k != p :: o.items[k])
  }

  /** What one entry adds to the subtotal. */
  function LineTotal(p: Product, q: int): int {
    p.price * q
  }

  /** Sum of the line totals of the entries of `m` whose product is in `keys`,
      taken in an arbitrary order. */
  ghost function SumOver(m: map<Product, int>, keys: set<Product>): int
    requires keys <= m.Keys
    decreases keys
  {
    if keys == {} then 0
    else
      var p :| p in keys;
      LineTotal(p, m[p]) + SumOver(m, keys - {p})
  }

  /** The sum does not depend on which entry is taken first. */
  lemma {:induction false} SumOverPick(m: map<Product, int>, keys: set<Product>, p: Product)
    requires keys <= m.Keys && p in keys
    ensures SumOver(m, keys) == LineTotal(p, m[p]) + SumOver(m, keys - {p})
    decreases keys
  {
    var q :| q in keys && SumOver(m, keys) == LineTotal(q, m[q]) + SumOver(m, keys - {q});
    if q != p {
      SumOverPick(m, keys - {q}, p);
      SumOverPick(m, keys - {p}, q);
      assert keys - {q} - {p} == keys - {p} - {q};
    }
  }

  /** The sum only reads the entries it sums. */
  lemma {:induction false} SumOverAgree(m1: map<Product, int>, m2: map<Product, int>, keys: set<Product>)
    requires keys <= m1.Keys && keys <= m2.Keys
    requires forall k :: k in keys ==> m1[k] == m2[k]
    ensures SumOver(m1, keys) == SumOver(m2, keys)
    decreases keys
  {
    if keys != {} {
      var p :| p in keys;
      SumOverPick(m1, keys, p);
      SumOverPick(m2, keys, p);
      SumOverAgree(m1, m2, keys - {p});
    }
  }

  /** `getSubtotal()`: the sum of price × quantity over all entries. */
  ghost function Subtotal(o: Order): int {
    SumOver(o.items, o.items.Keys)
  }

  /** `getSubtotal()` as the source computes it, by a walk over the entries in
      whatever order the map yields them; every walk gives the same sum. */
  method GetSubtotal(o: Order) returns (subtotal: int)
    ensures subtotal == Subtotal(o)
  {
    subtotal := 0;
    var remaining := o.items.Keys;
    while remaining != {}
      invariant remaining <= o.items.Keys
      invariant subtotal + SumOver(o.items, remaining) == Subtotal(o)
      decreases remaining
    {
      var p :| p in remaining;
      SumOverPick(o.items, remaining, p);
      subtotal := subtotal + LineTotal(p, o.items[p]);
      remaining := remaining - {p};
    }
  }

  /** `getDiscount()`. */
  ghost function OrderDiscount(o: Order): real {
    Pricing.Discount(Subtotal(o))
  }

  /** `getTotal()`. */
  ghost function OrderTotal(o: Order): real {
    Pricing.Total(Subtotal(o))
  }

  /** `getDiscountDescription()`. */
  ghost function OrderDiscountDescription(o: Order): string {
    Pricing.DiscountDescription(Subtotal(o))
  }

  /** A new order is empty and costs nothing. */
  lemma NewOrderIsEmpty()
    ensures |NewOrder().items| == 0
    ensures Subtotal(NewOrder()) == 0
    ensures OrderDiscount(NewOrder()) == 0.0 && OrderTotal(NewOrder()) == 0.0
    ensures OrderDiscountDescription(NewOrder()) == ""
  {
  }

  /** Adding `q` of `p` raises the subtotal by price × the change in `p`'s
      stored quantity: exactly price × `q` while the new quantity stays in
      the `int` range. */
  lemma {:induction false} AddItemSubtotal(o: Order, p: Product, q: int)
    ensures Subtotal(AddItem(o, p, q)) == Subtotal(o) + p.price * (WrapInt(Quantity(o, p) + q) - Quantity(o, p))
    ensures MinInt <= Quantity(o, p) + q <= MaxInt ==> Subtotal(AddItem(o, p, q)) == Subtotal(o) + p.price * q
  {
    var m, m' := o.items, AddItem(o, p, q).items;
    var rest := m.Keys - {p};
    SumOverPick(m', m'.Keys, p);
    assert m'.Keys - {p} == rest;
    SumOverAgree(m, m', rest);
    var w := WrapInt(Quantity(o, p) + q);
    assert LineTotal(p, w) == LineTotal(p, Quantity(o, p)) + p.price * (w - Quantity(o, p));
    if p in m {
      SumOverPick(m, m.Keys, p);
    } else {
      assert m.Keys == rest;
    }
  }

  /** Removing an entry lowers the subtotal by exactly that entry's line total. */
  lemma {:induction false} RemoveEntrySubtotal(o: Order, p: Product)
    ensures Subtotal(RemoveEntry(o, p)) == Subtotal(o) - LineTotal(p, Quantity(o, p))
  {
    var m, m' := o.items, RemoveEntry(o, p).items;
    SumOverAgree(m, m', m'.Keys);
    if p in m {
      SumOverPick(m, m.Keys, p);
      assert m.Keys - {p} == m'.Keys;
    } else {
      assert m.Keys == m'.Keys;
    }
  }

  /** Every price and every quantity is non-negative. */
  ghost predicate NonNegative(o: Order) {
    forall p :: p in o.items ==> p.price >= 0 && o.items[p] >= 0
  }

  lemma {:induction false} SumOverNonNegative(m: map<Product, int>, keys: set<Product>)
    requires keys <= m.Keys
    requires forall p :: p in keys ==> p.price >= 0 && m[p] >= 0
    ensures SumOver(m, keys) >= 0
    decreases keys
  {
    if keys != {} {
      var p :| p in keys;
      SumOverPick(m, keys, p);
      SumOverNonNegative(m, keys - {p});
    }
  }

  /** With non-negative prices and quantities, the total lies between 90%
      of the subtotal and the subtotal, and equals subtotal − discount. */
  lemma TotalBounds(o: Order)
    requires NonNegative(o)
    ensures Subtotal(o) >= 0
    ensures OrderTotal(o) == Subtotal(o) as real - OrderDiscount(o)
    ensures Subtotal(o) as real * 0.9 <= OrderTotal(o) <= Subtotal(o) as real
  {
    SumOverNonNegative(o.items, o.items.Keys);
  }

  /** `keys` lists every product of `m` exactly once: one iteration order of
      the map. */
  ghost predicate Enumerates(keys: seq<Product>, m: map<Product, int>) {
    && (forall i, j :: 0 <= i < j < |keys| ==> keys[i] != keys[j])
    && (forall k :: k in keys <==> k in m)
  }

  /** Sum of the line totals taken in the order of `keys`. */
  function SumInOrder(keys: seq<Product>, m: map<Product, int>): int
    requires forall k :: k in keys ==> k in m
  {
    if |keys| == 0 then 0 else LineTotal(keys[0], m[keys[0]]) + SumInOrder(keys[1..], m)
  }

  /** Dropping the head of a list without repeats drops exactly that
      element from the set it lists. */
  lemma TailLists(keys: seq<Product>, s: set<Product>)
    requires |keys| > 0
    requires forall i, j :: 0 <= i < j < |keys| ==> keys[i] != keys[j]
    requires forall k :: k in keys <==> k in s
    ensures forall i, j :: 0 <= i < j < |keys[1..]| ==> keys[1..][i] != keys[1..][j]
    ensures forall k :: k in keys[1..] <==> k in s - {keys[0]}
  {
    assert keys == [keys[0]] + keys[1..];
    forall i, j | 0 <= i < j < |keys[1..]| ensures keys[1..][i] != keys[1..][j] {
      assert keys[1..][i] == keys[i + 1] && keys[1..][j] == keys[j + 1];
    }
    assert keys[0] !in keys[1..] by {
      forall i | 0 <= i < |keys[1..]| ensures keys[1..][i] != keys[0] {
        assert keys[1..][i] == keys[i + 1];
      }
    }
  }

  lemma {:induction false} SumInOrderIsSumOver(keys: seq<Product>, m: map<Product, int>, s: set<Product>)
    requires forall i, j :: 0 <= i < j < |keys| ==> keys[i] != keys[j]
    requires s <= m.Keys
    requires forall k :: k in keys <==> k in s
    ensures SumInOrder(keys, m) == SumOver(m, s)
    ensures |keys| == |s|
    decreases |keys|
  {
    if |keys| == 0 {
      assert s == {};
    } else {
      TailLists(keys, s);
      SumInOrderIsSumOver(keys[1..], m, s - {keys[0]});
      SumOverPick(m, s, keys[0]);
    }
  }

  /** Whatever order the map is walked in, the sum is the subtotal and the
      walk has one step per entry. */
  lemma EnumerationSubtotal(keys: seq<Product>, o: Order)
    requires Enumerates(keys, o.items)
    ensures SumInOrder(keys, o.items) == Subtotal(o)
    ensures |keys| == |o.items|
  {
    SumInOrderIsSumOver(keys, o.items, o.items.Keys);
  }

  /** An iteration order of a map lists exactly as many keys as the map has. */
  lemma EnumerationLength(keys: seq<Product>, m: map<Product, int>)
    requires Enumerates(keys, m)
    ensures |keys| == |m|
  {
    EnumerationSubtotal(keys, Order(m));
  }

  /** Adding a product that is already in the cart changes its quantity and
      never adds a second entry; a separately built product with the same
      fields is a different key and gets an entry of its own. */
  lemma AddItemEntries(o: Order, p: Product, p': Product, q: int)
    ensures p in o.items ==> |AddItem(o, p, q).items| == |o.items|
    ensures p !in o.items ==> |AddItem(o, p, q).items| == |o.items| + 1
    ensures p' == p.(ref := p'.ref) && p'.ref != p.ref ==>
      |AddItem(AddItem(NewOrder(), p, q), p', q).items| == 2
  {
    if p in o.items {
      assert o.items.Keys + {p} == o.items.Keys;
    }
    var o2 := AddItem(AddItem(NewOrder(), p, q), p', q);
    if p' != p {
      assert o2.items.Keys == {p, p'};
    }
  }
}
