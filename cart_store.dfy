/**
 The stored cart: a table from product id to an entry {name, price, qty},
 as `addToCart` and `changeQty` in script.js read, change and write it back.
 The table keeps the order in which its keys were inserted, which is the
 order `Object.keys` later lists them in.
 */
module CartStore {
  import opened Wrappers
  import Catalog

  /** One cart line: a snapshot of the product's name and price, and a quantity. */
  datatype Entry = Entry(name: string, price: int, qty: int)

  /** The stored cart object: its key order and its entries by product id. */
  datatype Cart = Cart(keys: seq<string>, items: map<string, Entry>)

  /** What `getCart` returns while nothing is stored yet. */
  const Empty := Cart([], map[])

  predicate Distinct(s: seq<string>) {
    forall i, j | 0 <= i < j < |s| :: s[i] != s[j]
  }

  /**
   The cart invariant: the key order lists every entry exactly once and no
   stored quantity is below 1.
   */
  predicate Wf(c: Cart) {
    && Distinct(c.keys)
    && (forall k | k in c.keys :: k in c.items)
    && (forall k | k in c.items :: k in c.keys)
    && (forall k | k in c.items :: c.items[k].qty >= 1)
  }

  /** Every entry is keyed by a catalog id and carries that product's name and price. */
  predicate FromCatalog(cat: seq<Catalog.Product>, c: Cart) {
    forall k | k in c.items ::
      && Catalog.Find(cat, k).Some?
      && c.items[k].name == Catalog.Find(cat, k).value.name
      && c.items[k].price == Catalog.Find(cat, k).value.price
  }

  /** `delete` on the key order: `id` goes, every other key keeps its relative place. */
  function RemoveKey(s: seq<string>, id: string): (r: seq<string>)
    ensures forall k :: k in r <==> k in s && k != id
    ensures Distinct(s) ==> Distinct(r)
    ensures id !in s ==> r == s
    ensures Distinct(s) && id in s ==> |r| == |s| - 1
  {
    if s == [] then []
    else if s[0] == id then RemoveKey(s[1..], id)
    else
      var t := RemoveKey(s[1..], id);
      DistinctCons(s);
      DistinctCons([s[0]] + t);
      [s[0]] + t
  }

  /** Deleting a key leaves the keys before it and after it in their order. */
  lemma {:induction false} RemoveKeySplit(a: seq<string>, b: seq<string>, id: string)
    requires id !in a && id !in b
    ensures RemoveKey(a + [id] + b, id) == a + b
  {
    if a == [] {
      assert a + [id] + b == [id] + b;
      assert ([id] + b)[1..] == b;
    } else {
      RemoveKeySplit(a[1..], b, id);
      assert (a + [id] + b)[1..] == a[1..] + [id] + b;
      assert a + b == [a[0]] + (a[1..] + b);
    }
  }

  lemma DistinctCons(s: seq<string>)
    requires s != []
    ensures Distinct(s) <==> s[0] !in s[1..] && Distinct(s[1..])
  {
    if Distinct(s) {
      assert forall i, j | 0 <= i < j < |s[1..]| :: s[1..][i] == s[i + 1] && s[1..][j] == s[j + 1];
    }
    if s[0] !in s[1..] && Distinct(s[1..]) {
      forall i, j | 0 <= i < j < |s| ensures s[i] != s[j] {
        assert s[j] == s[1..][j - 1];
        if i > 0 {
          assert s[i] == s[1..][i - 1];
        }
      }
    }
  }

  /**
   `addToCart(id)` on the stored cart: an id outside the catalog changes
   nothing; an id already in the cart gets one more of it; a new id gets an
   entry with the catalog's name and price and quantity 1, appended to the
   key order.
   */
  function Added(cat: seq<Catalog.Product>, c: Cart, id: string): (r: Cart)
    ensures Catalog.Find(cat, id).None? ==> r == c
    ensures Catalog.Find(cat, id).Some? && id in c.items ==>
      && id in r.items
      && r.items[id].qty == c.items[id].qty + 1
      && r.items[id].name == c.items[id].name
      && r.items[id].price == c.items[id].price
      && r.keys == c.keys
    ensures Catalog.Find(cat, id).Some? && id !in c.items ==>
      && id in r.items
      && r.items[id] == Entry(Catalog.Find(cat, id).value.name, Catalog.Find(cat, id).value.price, 1)
      && r.keys == c.keys + [id]
    ensures forall k | k != id :: (k in r.items <==> k in c.items) && (k in c.items ==> r.items[k] == c.items[k])
  {
    match Catalog.Find(cat, id)
    case None => c
    case Some(p) =>
      if id in c.items then
        Cart(c.keys, c.items[id := c.items[id].(qty := c.items[id].qty + 1)])
      else
        Cart(c.keys + [id], c.items[id := Entry(p.name, p.price, 1)])
  }

  /**
   `changeQty(id, delta)` on the stored cart: an id not in the cart changes
   nothing; otherwise the quantity moves by `delta`, and an entry whose
   quantity reaches 0 or below is deleted.
   */
  function Changed(c: Cart, id: string, delta: int): (r: Cart)
    ensures id !in c.items ==> r == c
    ensures id in c.items && c.items[id].qty + delta > 0 ==>
      && id in r.items
      && r.items[id] == c.items[id].(qty := c.items[id].qty + delta)
      && r.keys == c.keys
    ensures id in c.items && c.items[id].qty + delta <= 0 ==>
      id !in r.items && r.keys == RemoveKey(c.keys, id)
    ensures forall k | k != id :: (k in r.items <==> k in c.items) && (k in c.items ==> r.items[k] == c.items[k])
  {
    if id !in c.items then c
    else
      var e := c.items[id].(qty := c.items[id].qty + delta);
      if e.qty <= 0 then Cart(RemoveKey(c.keys, id), c.items - {id})
      else Cart(c.keys, c.items[id := e])
  }

  /** Both cart operations keep the cart invariant and the entries' agreement with the catalog. */
  lemma AddedKeepsInvariants(cat: seq<Catalog.Product>, c: Cart, id: string)
    ensures Wf(c) ==> Wf(Added(cat, c, id))
    ensures FromCatalog(cat, c) ==> FromCatalog(cat, Added(cat, c, id))
  {
  }

  lemma ChangedKeepsInvariants(cat: seq<Catalog.Product>, c: Cart, id: string, delta: int)
    ensures Wf(c) ==> Wf(Changed(c, id, delta))
    ensures FromCatalog(cat, c) ==> FromCatalog(cat, Changed(c, id, delta))
  {
  }

  /** Deleting a key just written leaves what deleting it from the old table leaves. */
  lemma DeleteAfterUpdate(m: map<string, Entry>, k: string, e: Entry)
    ensures m[k := e] - {k} == m - {k}
  {
    assert (m[k := e] - {k}).Keys == (m - {k}).Keys;
  }

  /** The amount one entry adds to the total: `price * qty`. */
  function Line(e: Entry): int {
    e.price * e.qty
  }

  /** Moving the quantity by `delta` moves the line by `price * delta`. */
  lemma LineShift(e: Entry, delta: int)
    ensures Line(e.(qty := e.qty + delta)) == Line(e) + e.price * delta
  {
    assert e.price * (e.qty + delta) == e.price * e.qty + e.price * delta;
  }

  ghost function Pick(m: map<string, Entry>): (k: string)
    requires m != map[]
    ensures k in m
  {
    var k :| k in m; k
  }

  /** The sum of `price * qty` over all entries, independent of any key order. */
  ghost function Total(m: map<string, Entry>): int
    decreases m.Keys
  {
    if m == map[] then 0
    else
      var k := Pick(m);
      Line(m[k]) + Total(m - {k})
  }

  /** Any entry can be split off the total, whichever key `Total` happened to pick. */
  lemma {:induction false} TotalSplit(m: map<string, Entry>, k: string)
    requires k in m
    ensures Total(m) == Line(m[k]) + Total(m - {k})
    decreases m.Keys
  {
    var j := Pick(m);
    if j != k {
      TotalSplit(m - {j}, k);
      TotalSplit(m - {k}, j);
      assert m - {j} - {k} == m - {k} - {j};
    }
  }

  /** Totals of two tables that differ in one entry differ by those entries' lines. */
  lemma TotalUpdate(m: map<string, Entry>, k: string, e: Entry)
    ensures Total(m[k := e]) == Total(m) + Line(e) - (if k in m then Line(m[k]) else 0)
  {
    TotalSplit(m[k := e], k);
    if k in m {
      TotalSplit(m, k);
      assert m[k := e] - {k} == m - {k};
    } else {
      assert m[k := e] - {k} == m;
    }
  }

  predicate PositiveLines(m: map<string, Entry>) {
    forall k | k in m :: m[k].price > 0 && m[k].qty >= 1
  }

  /** With positive prices and quantities, the total is positive exactly when the table is non-empty. */
  lemma {:induction false} TotalSign(m: map<string, Entry>)
    requires PositiveLines(m)
    ensures Total(m) >= 0
    ensures Total(m) > 0 <==> m != map[]
    decreases m.Keys
  {
    if m != map[] {
      var k := Pick(m);
      TotalSign(m - {k});
      assert Line(m[k]) >= m[k].price by {
        assert m[k].price * m[k].qty >= m[k].price * 1;
      }
    }
  }

  /** In a cart built from the catalog, the total is positive exactly when the cart has entries. */
  lemma CatalogCartTotal(cat: seq<Catalog.Product>, c: Cart)
    requires Catalog.PricesPositive(cat)
    requires Wf(c) && FromCatalog(cat, c)
    ensures Total(c.items) > 0 <==> c.items != map[]
  {
    TotalSign(c.items);
  }

  /** Adding raises the total by exactly one unit price: the stored one, or the catalog's for a new entry. */
  lemma TotalAdded(cat: seq<Catalog.Product>, c: Cart, id: string)
    ensures Catalog.Find(cat, id).None? ==> Total(Added(cat, c, id).items) == Total(c.items)
    ensures Catalog.Find(cat, id).Some? && id in c.items ==>
      Total(Added(cat, c, id).items) == Total(c.items) + c.items[id].price
    ensures Catalog.Find(cat, id).Some? && id !in c.items ==>
      Total(Added(cat, c, id).items) == Total(c.items) + Catalog.Find(cat, id).value.price
  {
    if Catalog.Find(cat, id).Some? {
      var p := Catalog.Find(cat, id).value;
      if id in c.items {
        var e := c.items[id].(qty := c.items[id].qty + 1);
        assert Added(cat, c, id) == Cart(c.keys, c.items[id := e]);
        TotalUpdate(c.items, id, e);
        LineShift(c.items[id], 1);
      } else {
        var e := Entry(p.name, p.price, 1);
        assert Added(cat, c, id) == Cart(c.keys + [id], c.items[id := e]);
        TotalUpdate(c.items, id, e);
      }
    }
  }

  /** A kept entry moves the total by `price * delta`; a deleted one takes its whole line off. */
  lemma TotalChanged(c: Cart, id: string, delta: int)
    ensures Total(Changed(c, id, delta).items) ==
      if id !in c.items then Total(c.items)
      else if c.items[id].qty + delta > 0 then Total(c.items) + c.items[id].price * delta
      else Total(c.items) - Line(c.items[id])
  {
    if id in c.items {
      var e := c.items[id];
      var r := Changed(c, id, delta);
      if e.qty + delta > 0 {
        assert r.items == c.items[id := r.items[id]];
        TotalUpdate(c.items, id, r.items[id]);
        LineShift(e, delta);
      } else {
        TotalSplit(c.items, id);
        assert r.items == c.items - {id};
      }
    }
  }

  /** `addToCart` called `n` times in a row with the same id. */
  function AddedTimes(cat: seq<Catalog.Product>, c: Cart, id: string, n: nat): Cart {
    if n == 0 then c else Added(cat, AddedTimes(cat, c, id, n - 1), id)
  }

  /**
   Adding a catalog product `n` times to a cart without it leaves one entry of
   quantity `n` with the catalog's name and price, appended once to the key
   order, and every other entry as it was.
   */
  lemma {:induction false} RepeatedAdd(cat: seq<Catalog.Product>, c: Cart, id: string, n: nat)
    requires Catalog.Find(cat, id).Some? && id !in c.items && n >= 1
    ensures var r := AddedTimes(cat, c, id, n);
      && id in r.items
      && r.items[id] == Entry(Catalog.Find(cat, id).value.name, Catalog.Find(cat, id).value.price, n)
      && r.keys == c.keys + [id]
      && forall k | k != id :: (k in r.items <==> k in c.items) && (k in c.items ==> r.items[k] == c.items[k])
  {
    if n > 1 {
      RepeatedAdd(cat, c, id, n - 1);
    }
  }

  /**
   Taking `d` off an entry and putting `d` back restores the cart when the
   quantity stayed positive in between; otherwise the entry is gone and the
   second change finds nothing to change.
   */
  lemma ChangeUndo(c: Cart, id: string, d: int)
    requires Wf(c) && id in c.items
    ensures c.items[id].qty - d > 0 ==> Changed(Changed(c, id, -d), id, d) == c
    ensures c.items[id].qty - d <= 0 ==>
      var r := Changed(c, id, -d);
      id !in r.items && Changed(r, id, d) == r
  {
    var e := c.items[id];
    if e.qty - d > 0 {
      var down := e.(qty := e.qty - d);
      assert Changed(c, id, -d) == Cart(c.keys, c.items[id := down]);
      assert Changed(Changed(c, id, -d), id, d) == Cart(c.keys, c.items[id := down][id := e]);
      assert c.items[id := down][id := e] == c.items;
    }
  }

  /**
   An entry deleted by `changeQty` and added again comes back with quantity 1
   at the end of the key order, not at its old place or quantity.
   */
  lemma ReAddAfterRemoval(cat: seq<Catalog.Product>, c: Cart, id: string, d: int)
    requires Wf(c) && FromCatalog(cat, c)
    requires id in c.items && c.items[id].qty + d <= 0
    ensures var r := Added(cat, Changed(c, id, d), id);
      && id in r.items && r.items[id].qty == 1
      && r.keys == RemoveKey(c.keys, id) + [id]
  {
  }
}
