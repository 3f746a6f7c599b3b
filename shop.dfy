/**
 The page script's cart handlers as one object: the stored cart is the
 state (`localStorage['cart']`); `addToCart` and `changeQty` read it, change
 it and write it back, and the computing part of `renderCart` only reads it.
 */
module Shop {
  import opened Wrappers
  import Catalog
  import opened CartStore
  import opened CartPage

  class CartHandlers {
    /** The product list the shop sells from: `PRODUCTS`. */
    const catalog: seq<Catalog.Product>
    /** The key order of the stored cart object, as `Object.keys` lists it. */
    var keys: seq<string>
    /** The stored cart's entries by product id. */
    var items: map<string, Entry>

    /** The stored cart as one value. */
    function Stored(): Cart
      reads this
    {
      Cart(keys, items)
    }

    /** The stored cart is well formed and mirrors the catalog. */
    ghost predicate Valid()
      reads this
    {
      && Catalog.PricesPositive(catalog)
      && Wf(Stored())
      && FromCatalog(catalog, Stored())
    }

    /** A browser with nothing stored yet: `getCart` returns `{}`. */
    constructor ()
      ensures Valid() && catalog == Catalog.Products && Stored() == Empty
    {
      catalog := Catalog.Products;
      keys, items := [], map[];
      Catalog.ProductsWellFormed();
    }

    /** `addToCart(productId)`: see `CartStore.Added` for what it does to the cart. */
    method AddToCart(id: string)
      requires Valid()
      modifies this
      ensures Valid()
      ensures Stored() == Added(catalog, old(Stored()), id)
    {
      var product := Catalog.Find(catalog, id);
      if product.None? {
        return;
      }
      ghost var before := Stored();
      var cart, order := items, keys;
      if id in cart {
        cart := cart[id := cart[id].(qty := cart[id].qty + 1)];
      } else {
        cart := cart[id := Entry(product.value.name, product.value.price, 1)];
        order := order + [id];
      }
      assert Added(catalog, before, id) == Cart(order, cart);
      items, keys := cart, order;
      AddedKeepsInvariants(catalog, before, id);
    }

    /**
     `changeQty(productId, delta)`: see `CartStore.Changed`. When the id is in
     the cart, the cart page is drawn again from the new stored cart.
     */
    method ChangeQty(id: string, delta: int) returns (redrawn: Option<CartView>)
      requires Valid()
      modifies this
      ensures Valid()
      ensures Stored() == Changed(old(Stored()), id, delta)
      ensures redrawn == if id in old(items) then Some(View(Stored())) else None
    {
      ghost var before := Stored();
      var cart, order := items, keys;
      if id !in cart {
        assert Changed(before, id, delta) == before;
        return None;
      }
      ChangedKeepsInvariants(catalog, before, id, delta);
      cart := cart[id := cart[id].(qty := cart[id].qty + delta)];
      if cart[id].qty <= 0 {
        DeleteAfterUpdate(before.items, id, cart[id]);
        cart := cart - {id};
        order := RemoveKey(order, id);
      }
      assert Cart(order, cart) == Changed(before, id, delta);
      items, keys := cart, order;
      assert Stored() == Changed(before, id, delta);
      var view := RenderCart();
      redrawn := Some(view);
    }

    /**
     `renderCart` on the cart page: read the stored cart and draw it. Since
     every stored entry comes from the catalog, a non-empty cart always shows
     a positive total.
     */
    method RenderCart() returns (view: CartView)
      requires Valid()
      ensures view == View(Stored())
      ensures view.checkoutDisabled <==> items == map[]
      ensures items == map[] ==> view == EmptyView
      ensures items != map[] ==> view.total == Euros(Total(items)) && Total(items) > 0
    {
      var cart := Stored();
      view := Render(cart);
      ViewMeaning(cart);
      CatalogCartTotal(catalog, cart);
    }
  }
}
