/**
 What `renderCart` in script.js shows for a stored cart, apart from building
 DOM elements: the rows in key order, the running total the loop
 accumulates, the empty-cart message, and the state of the checkout button.
 */
module CartPage {
  import opened CartStore

  /** One rendered cart row: the name, the quantity and the line amount `price * qty`. */
  datatype Row = Row(id: string, name: string, qty: int, lineAmount: int)

  /** The total label: the literal text of the empty cart, or an amount shown with two decimals and the euro sign. */
  datatype TotalLabel = Text(text: string) | Euros(amount: int)

  datatype CartView = CartView(rows: seq<Row>, emptyMessage: bool, total: TotalLabel, checkoutDisabled: bool)

  /** The view of an empty cart: the empty message, `'0€'`, and checkout disabled. */
  const EmptyView := CartView([], true, Text("0\U{20ac}"), true)

  /** The running total after the loop has visited the keys `ks`, in that order. */
  function SumInOrder(ks: seq<string>, m: map<string, Entry>): (r: int)
    requires forall k | k in ks :: k in m
    ensures (forall k | k in ks :: Line(m[k]) >= 0) ==> r >= 0
    ensures (forall k | k in ks :: Line(m[k]) > 0) ==> (r > 0 <==> ks != [])
  {
    if ks == [] then 0 else SumInOrder(ks[..|ks| - 1], m) + Line(m[ks[|ks| - 1]])
  }

  /** The rows built for the keys `ks`, in that order. */
  function Rows(ks: seq<string>, m: map<string, Entry>): (r: seq<Row>)
    requires forall k | k in ks :: k in m
    ensures |r| == |ks|
    ensures forall i | 0 <= i < |ks| :: r[i] == Row(ks[i], m[ks[i]].name, m[ks[i]].qty, Line(m[ks[i]]))
  {
    if ks == [] then []
    else
      var last := ks[|ks| - 1];
      Rows(ks[..|ks| - 1], m) + [Row(last, m[last].name, m[last].qty, Line(m[last]))]
  }

  /** `renderCart` on the stored cart `c`, whose key order is what `Object.keys` returns. */
  function View(c: Cart): (r: CartView)
    requires forall k | k in c.keys :: k in c.items
    ensures r.checkoutDisabled <==> c.keys == []
    ensures r.emptyMessage <==> c.keys == []
    ensures c.keys == [] ==> r == EmptyView
    ensures |r.rows| == |c.keys|
    ensures forall i | 0 <= i < |c.keys| :: r.rows[i].id == c.keys[i] && r.rows[i].lineAmount == Line(c.items[c.keys[i]])
    ensures c.keys != [] && (forall k | k in c.keys :: Line(c.items[k]) > 0) ==> r.total.Euros? && r.total.amount > 0
  {
    if |c.keys| == 0 then EmptyView
    else CartView(Rows(c.keys, c.items), false, Euros(SumInOrder(c.keys, c.items)), false)
  }

  /**
   The computing part of `renderCart`: an empty key list gives the empty
   view; otherwise the loop visits the keys in order, adds `price * qty` to
   the running total and builds one row per entry.
   */
  method Render(c: Cart) returns (view: CartView)
    requires forall k | k in c.keys :: k in c.items
    ensures view == View(c)
    ensures Wf(c) && c.items != map[] ==> view.total == Euros(Total(c.items)) && view.rows != []
  {
    var ks := c.keys;
    if |ks| == 0 {
      view := EmptyView;
    } else {
      var total := 0;
      var rows := [];
      var i := 0;
      while i < |ks|
        invariant 0 <= i <= |ks|
        invariant total == SumInOrder(ks[..i], c.items)
        invariant rows == Rows(ks[..i], c.items)
      {
        var item := c.items[ks[i]];
        total := total + Line(item);
        rows := rows + [Row(ks[i], item.name, item.qty, Line(item))];
        assert ks[..i + 1][..i] == ks[..i];
        i := i + 1;
      }
      assert ks[..i] == ks;
      view := CartView(rows, false, Euros(total), false);
    }
    if Wf(c) {
      ViewMeaning(c);
    }
  }

  /** The running total only looks at the entries of the keys it visits. */
  lemma {:induction false} SumInOrderFrame(ks: seq<string>, m: map<string, Entry>, m': map<string, Entry>)
    requires forall k | k in ks :: k in m && k in m' && m[k] == m'[k]
    ensures SumInOrder(ks, m) == SumInOrder(ks, m')
  {
    if ks != [] {
      SumInOrderFrame(ks[..|ks| - 1], m, m');
    }
  }

  /** Whatever order lists the keys, each exactly once, the loop's total is the sum of `price * qty` over all entries. */
  lemma {:induction false} SumInOrderIsTotal(ks: seq<string>, m: map<string, Entry>)
    requires Distinct(ks)
    requires forall k | k in ks :: k in m
    requires forall k | k in m :: k in ks
    ensures SumInOrder(ks, m) == Total(m)
  {
    if ks == [] {
      assert m.Keys == {};
      assert m == map[];
    } else {
      var n := |ks| - 1;
      var last, front := ks[n], ks[..n];
      var rest := m - {last};
      forall k | k in front ensures k in rest && m[k] == rest[k] {
        var i :| 0 <= i < n && front[i] == k;
        assert ks[i] == k;
      }
      SumInOrderFrame(front, m, rest);
      forall k | k in rest ensures k in front {
        var i :| 0 <= i < |ks| && ks[i] == k;
        assert i != n;
        assert front[i] == k;
      }
      assert Distinct(front) by {
        forall i, j | 0 <= i < j < |front| ensures front[i] != front[j] {
          assert front[i] == ks[i] && front[j] == ks[j];
        }
      }
      SumInOrderIsTotal(front, rest);
      TotalSplit(m, last);
    }
  }

  /** Two listings of the same keys give the same total: the key order does not matter. */
  lemma KeyOrderIrrelevant(ks: seq<string>, ks': seq<string>, m: map<string, Entry>)
    requires Distinct(ks) && Distinct(ks')
    requires forall k :: k in ks <==> k in m
    requires forall k :: k in ks' <==> k in m
    ensures SumInOrder(ks, m) == SumInOrder(ks', m)
  {
    SumInOrderIsTotal(ks, m);
    SumInOrderIsTotal(ks', m);
  }

  /**
   On a well-formed cart the view is the empty view exactly when the cart is
   empty; otherwise it has one row per entry, in key order, the total is the
   sum of `price * qty` over all entries, and checkout is enabled.
   */
  lemma ViewMeaning(c: Cart)
    requires Wf(c)
    ensures View(c).checkoutDisabled <==> c.items == map[]
    ensures c.items == map[] ==> View(c) == EmptyView
    ensures c.items != map[] ==>
      && View(c).total == Euros(Total(c.items))
      && !View(c).emptyMessage
      && |View(c).rows| == |c.keys|
      && forall i | 0 <= i < |c.keys| :: View(c).rows[i].id == c.keys[i] && View(c).rows[i].lineAmount == Line(c.items[c.keys[i]])
  {
    SumInOrderIsTotal(c.keys, c.items);
    if c.keys == [] {
      assert c.items == map[];
    } else {
      assert c.keys[0] in c.items;
    }
  }
}
