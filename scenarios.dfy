/** Concrete call sequences of the cart handlers, first on any catalog listing the product, then on the shop's own. */
module Scenarios {
  import opened Wrappers
  import opened Catalog
  import opened CartStore
  import opened CartPage

  const Basic := Product("basic", "Basic", "3 Tage", 3)
  const Gold := Product("gold", "Gold", "10 Tage", 10)

  /** Two adds of "basic", on any catalog that lists it as the shop does. */
  lemma BasicTwiceIn(ps: seq<Product>)
    requires Find(ps, "basic") == Some(Basic)
    ensures AddedTimes(ps, Empty, "basic", 2) == Cart(["basic"], map["basic" := Entry("Basic", 3, 2)])
  {
    RepeatedAdd(ps, Empty, "basic", 2);
    var c := AddedTimes(ps, Empty, "basic", 2);
    assert c.items == map["basic" := Entry("Basic", 3, 2)];
  }

  /** A cart with a single entry shows a single row, and its line as the total. */
  lemma ViewSingle(k: string, e: Entry)
    ensures View(Cart([k], map[k := e])) == CartView([Row(k, e.name, e.qty, Line(e))], false, Euros(Line(e)), false)
  {
    var c := Cart([k], map[k := e]);
    assert c.keys[..0] == [];
    assert SumInOrder(c.keys, c.items) == Line(e);
    assert Rows(c.keys, c.items) == [Row(k, e.name, e.qty, Line(e))];
  }

  /** Adding "Basic" (3 €) twice gives one entry of quantity 2; the page shows one row, a total of 6 and checkout enabled. */
  lemma BasicTwice()
    ensures var c := AddedTimes(Products, Empty, "basic", 2);
      && c == Cart(["basic"], map["basic" := Entry("Basic", 3, 2)])
      && View(c) == CartView([Row("basic", "Basic", 2, 6)], false, Euros(6), false)
  {
    LookupListed(1);
    BasicTwiceIn(Products);
    ViewSingle("basic", Entry("Basic", 3, 2));
  }

  /** One add of "gold" and two decrements, on any catalog that lists it as the shop does. */
  lemma GoldAddedThenRemovedIn(ps: seq<Product>)
    requires Find(ps, "gold") == Some(Gold)
    ensures Changed(Changed(Added(ps, Empty, "gold"), "gold", -1), "gold", -1) == Empty
  {
    var c1 := Added(ps, Empty, "gold");
    assert c1 == Cart(["gold"], map["gold" := Entry("Gold", 10, 1)]);
    var c2 := Changed(c1, "gold", -1);
    assert c2.items == map[];
  }

  /** Adding "Gold" once and taking one off twice empties the cart, shows `0€` and disables checkout. */
  lemma GoldAddedThenRemoved()
    ensures var c := Changed(Changed(Added(Products, Empty, "gold"), "gold", -1), "gold", -1);
      c == Empty && View(c) == EmptyView
  {
    LookupListed(4);
    GoldAddedThenRemovedIn(Products);
  }

  /** An id the catalog does not list leaves any cart as it was. */
  lemma UnknownIdIgnored(c: Cart, id: string)
    requires forall p | p in Products :: p.id != id
    ensures Added(Products, c, id) == c
  {
  }

  /** The id "nonexistent" is not in the catalog, so adding it changes nothing. */
  lemma NonexistentIgnored(c: Cart)
    ensures Added(Products, c, "nonexistent") == c
  {
    ProductsWellFormed();
    assert forall p | p in Products :: p.id != "nonexistent";
    UnknownIdIgnored(c, "nonexistent");
  }
}
