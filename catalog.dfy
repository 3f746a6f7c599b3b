/**
 The fixed product catalog of the licence-key shop and the lookup of a
 product by its id (`PRODUCTS` and `PRODUCTS.find` in script.js).
 */
module Catalog {
  import opened Wrappers

  /** A licence product; prices are whole euros. */
  datatype Product = Product(id: string, name: string, description: string, price: int)

  /** The eight products, in the order the shop lists them. */
  const Products: seq<Product> := [
    Product("trial", "Trial", "1 Tag", 1),
    Product("basic", "Basic", "3 Tage", 3),
    Product("pro", "Pro", "5 Tage", 5),
    Product("advanced", "Advanced", "7 Tage", 7),
    Product("gold", "Gold", "10 Tage", 10),
    Product("diamond", "Diamond", "15 Tage", 15),
    Product("platinum", "Platinum", "30 Tage", 30),
    Product("special", "Special", "30 Tage \U{2013} enth\U{e4}lt ChatGPT\U{a0}Pro", 35)
  ]

  predicate IdsDistinct(ps: seq<Product>) {
    forall i, j | 0 <= i < j < |ps| :: ps[i].id != ps[j].id
  }

  predicate PricesPositive(ps: seq<Product>) {
    forall p | p in ps :: p.price > 0
  }

  /** The catalog has eight products with distinct ids and positive prices. */
  lemma ProductsWellFormed()
    ensures |Products| == 8
    ensures IdsDistinct(Products) && PricesPositive(Products)
  {
  }

  /** Linear search for a product with the given id, as `Array.prototype.find` does: the first match wins. */
  function Find(ps: seq<Product>, id: string): (r: Option<Product>)
    ensures r.None? <==> forall p | p in ps :: p.id != id
    ensures r.Some? ==> r.value in ps && r.value.id == id
    ensures r.Some? ==> exists i | 0 <= i < |ps| :: ps[i] == r.value && forall j | 0 <= j < i :: ps[j].id != id
  {
    if |ps| == 0 then None
    else if ps[0].id == id then Some(ps[0])
    else
      var r := Find(ps[1..], id);
      if r.Some? then
        var i :| 0 <= i < |ps[1..]| && ps[1..][i] == r.value && forall j | 0 <= j < i :: ps[1..][j].id != id;
        assert ps[i + 1] == r.value;
        assert forall j | 0 <= j < i + 1 :: ps[j].id != id by {
          forall j | 0 <= j < i + 1 ensures ps[j].id != id {
            if j > 0 { assert ps[j] == ps[1..][j - 1]; }
          }
        }
        r
      else r
  }

  /** When ids are distinct, the search finds exactly the product carrying the id. */
  lemma {:induction false} FindDistinct(ps: seq<Product>, i: nat)
    requires IdsDistinct(ps)
    requires i < |ps|
    ensures Find(ps, ps[i].id) == Some(ps[i])
  {
    if i > 0 {
      assert ps[0].id != ps[i].id;
      assert IdsDistinct(ps[1..]) by {
        forall a, b | 0 <= a < b < |ps[1..]| ensures ps[1..][a].id != ps[1..][b].id {
          assert ps[1..][a] == ps[a + 1] && ps[1..][b] == ps[b + 1];
        }
      }
      FindDistinct(ps[1..], i - 1);
      assert ps[1..][i - 1] == ps[i];
    }
  }

  /** `PRODUCTS.find((p) => p.id === productId)`. */
  function Lookup(id: string): (r: Option<Product>)
    ensures r.None? <==> forall p | p in Products :: p.id != id
    ensures r.Some? ==> r.value in Products && r.value.id == id && r.value.price > 0
  {
    ProductsWellFormed();
    Find(Products, id)
  }

  /** Every catalog product is found by its own id. */
  lemma LookupListed(i: nat)
    requires i < |Products|
    ensures Lookup(Products[i].id) == Some(Products[i])
  {
    ProductsWellFormed();
    FindDistinct(Products, i);
  }
}
