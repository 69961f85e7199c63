/** The cart page: one rendered row per cart entry, a totals summary computed
    from the rows on display, and the row controls that change both the cart
    and the rows. */
module CartPage {
  import opened Wrappers
  import opened CartStore
  import opened CartHistory

  /** The flat shipping fee charged whenever at least one row is shown. */
  const ShippingFee: nat := 49

  /** A rendered row: its id, its unit price, and the value its quantity field shows. */
  datatype Row = Row(id: string, price: nat, shown: int)

  /** The four figures of the summary area. */
  datatype Summary = Summary(subtotal: int, count: int, shipping: nat, order: int)

  /** The row rendered for one entry: its quantity field starts at the entry's quantity. */
  function RowOf(x: LineItem): Row
  {
    Row(x.id, x.price, x.qty)
  }

  /** The rows of a full render of the cart, one per entry, in cart order. */
  function Render(c: Cart): seq<Row>
  {
    seq(|c|, i requires 0 <= i < |c| => RowOf(c[i]))
  }

  /** Unit price times field value, summed over the rows. */
  function RowsSubtotal(rows: seq<Row>): int
  {
    if |rows| == 0 then 0 else rows[0].price * rows[0].shown + RowsSubtotal(rows[1..])
  }

  /** Field values summed over the rows. */
  function RowsCount(rows: seq<Row>): int
  {
    if |rows| == 0 then 0 else rows[0].shown + RowsCount(rows[1..])
  }

  /** The summary computed from the rows on display: shipping is charged
      exactly when a row is shown, and the order total adds it to the subtotal. */
  function Summarize(rows: seq<Row>): (r: Summary)
    ensures r.order == r.subtotal + r.shipping
    ensures r.shipping == ShippingFee <==> |rows| > 0
    ensures r.shipping == 0 <==> |rows| == 0
    ensures |rows| == 0 ==> r == Summary(0, 0, 0, 0)
  {
    var subtotal := RowsSubtotal(rows);
    var shipping := if |rows| > 0 then ShippingFee else 0;
    Summary(subtotal, RowsCount(rows), shipping, subtotal + shipping)
  }

  /** The summary a fresh render of the cart shows. */
  function CartTotals(c: Cart): Summary
  {
    Summarize(Render(c))
  }

  /** A freshly rendered cart shows its own value, its badge count as the
      item count, and shipping exactly when it is non-empty. */
  lemma {:induction false} CartTotalsAgree(c: Cart)
    ensures CartTotals(c).subtotal == Subtotal(c)
    ensures CartTotals(c).count == BadgeCount(c)
    ensures CartTotals(c).shipping == (if |c| == 0 then 0 else ShippingFee)
    ensures CartTotals(c).order == Subtotal(c) + CartTotals(c).shipping
  {
    if |c| > 0 {
      CartTotalsAgree(c[1..]);
      assert Render(c)[1..] == Render(c[1..]);
    }
  }

  /** The page state: the cart in storage and the rows on display. */
  datatype View = View(cart: Cart, rows: seq<Row>)

  /** The rows on display are exactly a fresh render of the cart. */
  predicate InSync(v: View)
  {
    v.rows == Render(v.cart)
  }

  /** The page right after a full render: it shows the cart's own value, its
      badge count as the item count, and shipping exactly when it is non-empty. */
  function Rendered(c: Cart): (v: View)
    ensures v.cart == c && |v.rows| == |c|
    ensures forall i :: 0 <= i < |c| ==>
      v.rows[i].id == c[i].id && v.rows[i].price == c[i].price && v.rows[i].shown == c[i].qty
    ensures Summarize(v.rows).subtotal == Subtotal(c)
    ensures Summarize(v.rows).count == BadgeCount(c)
    ensures Summarize(v.rows).shipping == (if |c| == 0 then 0 else ShippingFee)
    ensures Summarize(v.rows).order == Subtotal(c) + Summarize(v.rows).shipping
  {
    CartTotalsAgree(c);
    View(c, Render(c))
  }

  /** The field value after the "-" control: one less, but never below 1. */
  function Decreased(shown: int): (r: int)
    ensures r >= 1
    ensures shown >= 2 ==> r == shown - 1
    ensures shown <= 2 ==> r == 1
  {
    if shown - 1 < 1 then 1 else shown - 1
  }

  /** Sets the field of row `k` to `value` and asks the store for the same quantity. */
  function SetRow(v: View, k: nat, value: int): (r: View)
    requires k < |v.rows|
    ensures |r.rows| == |v.rows| && r.rows[k] == v.rows[k].(shown := value)
    ensures forall j :: 0 <= j < |v.rows| && j != k ==> r.rows[j] == v.rows[j]
    ensures r.cart == SetQty(v.cart, v.rows[k].id, value)
  {
    View(SetQty(v.cart, v.rows[k].id, value), v.rows[k := v.rows[k].(shown := value)])
  }

  /** The "+" control of row `k`: one more in the field, and the same value sent to the store. */
  function OnIncrease(v: View, k: nat): (r: View)
    requires k < |v.rows|
    ensures |r.rows| == |v.rows|
    ensures r.rows[k] == v.rows[k].(shown := v.rows[k].shown + 1)
    ensures forall j :: 0 <= j < |v.rows| && j != k ==> r.rows[j] == v.rows[j]
    ensures r.cart == SetQty(v.cart, v.rows[k].id, r.rows[k].shown)
  {
    SetRow(v, k, v.rows[k].shown + 1)
  }

  /** The "-" control of row `k`: the field never goes below 1. */
  function OnDecrease(v: View, k: nat): (r: View)
    requires k < |v.rows|
    ensures |r.rows| == |v.rows|
    ensures r.rows[k].shown >= 1
    ensures r.rows[k] == v.rows[k].(shown := Decreased(v.rows[k].shown))
    ensures forall j :: 0 <= j < |v.rows| && j != k ==> r.rows[j] == v.rows[j]
    ensures r.cart == SetQty(v.cart, v.rows[k].id, r.rows[k].shown)
  {
    SetRow(v, k, Decreased(v.rows[k].shown))
  }

  /** A value typed straight into the quantity field of row `k`: the field
      keeps what was typed while the store clamps it to at least 1. */
  function OnEdit(v: View, k: nat, typed: int): (r: View)
    requires k < |v.rows|
    ensures |r.rows| == |v.rows|
    ensures r.rows[k] == v.rows[k].(shown := typed)
    ensures forall j :: 0 <= j < |v.rows| && j != k ==> r.rows[j] == v.rows[j]
    ensures r.cart == SetQty(v.cart, v.rows[k].id, typed)
    ensures Contains(v.cart, v.rows[k].id) ==>
      r.cart[FindIndex(v.cart, v.rows[k].id).value].qty == ClampQty(typed)
  {
    SetRow(v, k, typed)
  }

  /** The direct edit with the field clamped the way the store clamps the quantity. */
  function OnEditClamped(v: View, k: nat, typed: int): (r: View)
    requires k < |v.rows|
    ensures |r.rows| == |v.rows|
    ensures r.rows[k] == v.rows[k].(shown := ClampQty(typed))
    ensures forall j :: 0 <= j < |v.rows| && j != k ==> r.rows[j] == v.rows[j]
    ensures r.cart == OnEdit(v, k, typed).cart
    ensures typed >= 1 ==> r == OnEdit(v, k, typed)
  {
    SetRow(v, k, ClampQty(typed))
  }

  /** The remove control of row `k`: the id leaves the store and the row
      leaves the page, without a re-render. */
  function OnRemove(v: View, k: nat): (r: View)
    requires k < |v.rows|
    ensures |r.rows| == |v.rows| - 1
    ensures r.rows == v.rows[..k] + v.rows[k + 1..]
    ensures forall j :: 0 <= j < |r.rows| ==> r.rows[j] == v.rows[if j < k then j else j + 1]
    ensures r.cart == Remove(v.cart, v.rows[k].id)
  {
    View(Remove(v.cart, v.rows[k].id), v.rows[..k] + v.rows[k + 1..])
  }

  /** A row control that writes a value of at least 1 keeps page and store in step. */
  lemma SetRowKeepsSync(v: View, k: nat, value: int)
    requires InSync(v) && UniqueIds(v.cart) && k < |v.rows|
    requires value >= 1
    ensures InSync(SetRow(v, k, value))
    ensures UniqueIds(SetRow(v, k, value).cart)
  {

  }

  /** After "+" the summary on display is still the one a fresh render shows. */
  lemma IncreaseKeepsSync(v: View, k: nat)
    requires InSync(v) && UniqueIds(v.cart) && k < |v.rows|
    ensures InSync(OnIncrease(v, k))
    ensures Summarize(OnIncrease(v, k).rows) == CartTotals(OnIncrease(v, k).cart)
  {

  }

  /** After "-" the summary on display is still the one a fresh render shows,
      and the entry's quantity is at least 1. */
  lemma DecreaseKeepsSync(v: View, k: nat)
    requires InSync(v) && UniqueIds(v.cart) && k < |v.rows|
    ensures InSync(OnDecrease(v, k))
    ensures OnDecrease(v, k).cart[k].qty >= 1
    ensures Summarize(OnDecrease(v, k).rows) == CartTotals(OnDecrease(v, k).cart)
  {

  }

  /** The clamped edit keeps page and store in step whatever is typed. */
  lemma EditClampedKeepsSync(v: View, k: nat, typed: int)
    requires InSync(v) && UniqueIds(v.cart) && k < |v.rows|
    ensures InSync(OnEditClamped(v, k, typed))
    ensures Summarize(OnEditClamped(v, k, typed).rows) == CartTotals(OnEditClamped(v, k, typed).cart)
  {

  }

  /** As written, typing a value below 1 leaves a field the store never
      stored: the page no longer matches a render of the cart. */
  lemma EditBelowOneBreaksSync(v: View, k: nat, typed: int)
    requires InSync(v) && UniqueIds(v.cart) && k < |v.rows|
    requires typed < 1
    ensures !InSync(OnEdit(v, k, typed))
  {

  }

  /** A one-entry cart (price 100, quantity 1) where 0 is typed into the
      field: the store keeps quantity 1, yet the summary shows 0 for the
      subtotal and 49 for the order total instead of 100 and 149. */
  lemma EditZeroShowsWrongTotals()
    ensures
      var v := Rendered([LineItem("a", "Leash", 100, None, 1)]);
      var r := OnEdit(v, 0, 0);
      && r.cart == [LineItem("a", "Leash", 100, None, 1)]
      && Summarize(r.rows) == Summary(0, 0, 49, 49)
      && CartTotals(r.cart) == Summary(100, 1, 49, 149)
  {

  }

  /** Removing a row keeps page and store in step. */
  lemma RemoveKeepsSync(v: View, k: nat)
    requires InSync(v) && UniqueIds(v.cart) && k < |v.rows|
    ensures InSync(OnRemove(v, k))
    ensures Summarize(OnRemove(v, k).rows) == CartTotals(OnRemove(v, k).cart)
  {
    var c := v.cart;
    assert v.rows[k].id == c[k].id;
    FindIndexUnique(c, k);
    RemovePresent(c, c[k].id, k);
  }

  /** Removing the only entry empties the page and zeroes every figure. */
  lemma RemoveLastEmptiesPage(x: LineItem)
    ensures
      var r := OnRemove(Rendered([x]), 0);
      r.cart == [] && r.rows == [] && Summarize(r.rows) == Summary(0, 0, 0, 0)
  {

  }

  /** Two adds of "a" at 100 and one of "b" at 50 give the cart
      [a x2, b x1], a subtotal of 250 and an order total of 299. */
  lemma TwoAsOneB()
    ensures
      var a := Product("a", "Bowl", 100, None);
      var b := Product("b", "Toy", 50, None);
      var c := AddAll([a, a, b]);
      && c == [LineItem("a", "Bowl", 100, None, 2), LineItem("b", "Toy", 50, None, 1)]
      && CartTotals(c) == Summary(250, 3, 49, 299)
  {
    var a := Product("a", "Bowl", 100, None);
    var b := Product("b", "Toy", 50, None);
    assert [a, a, b][..2] == [a, a];
    assert [a, a][..1] == [a];
    assert [a][..0] == [];
    var c := AddAll([a, a, b]);
    assert AddAll([a]) == [LineItem("a", "Bowl", 100, None, 1)];
    assert AddAll([a, a]) == [LineItem("a", "Bowl", 100, None, 2)];
    assert c == [LineItem("a", "Bowl", 100, None, 2), LineItem("b", "Toy", 50, None, 1)];
    CartTotalsAgree(c);
  }
}
