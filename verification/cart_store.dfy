/** The cart store of the pet-store shop page: an ordered sequence of line
    items changed by find-or-append `Add`, filtering `Remove` and clamping
    `SetQty`, and read by the badge count and the subtotal. */
module CartStore {
  import opened Wrappers

  /** What an "add to cart" control hands to the store. */
  datatype Product = Product(id: string, name: string, price: nat, image: Option<string>)

  /** One entry of the cart. A quantity of 0 stands for a stored entry whose
      quantity is missing or zero; the store itself never writes one. */
  datatype LineItem = LineItem(id: string, name: string, price: nat, image: Option<string>, qty: nat)

  type Cart = seq<LineItem>

  /** Some entry carries `id`. */
  predicate Contains(c: Cart, id: string)
  {
    exists i :: 0 <= i < |c| && c[i].id == id
  }

  /** No two entries share an id. */
  predicate UniqueIds(c: Cart)
  {
    forall i, j :: 0 <= i < j < |c| ==> c[i].id != c[j].id
  }

  /** Every entry has a quantity of at least 1. */
  predicate PositiveQtys(c: Cart)
  {
    forall i :: 0 <= i < |c| ==> c[i].qty >= 1
  }

  /** The invariant every store operation keeps. */
  predicate Valid(c: Cart)
  {
    UniqueIds(c) && PositiveQtys(c)
  }

  /** Position of the first entry carrying `id`, as a linear `find` reports it. */
  function FindIndex(c: Cart, id: string): (r: Option<nat>)
    ensures r.Some? ==> r.value < |c| && c[r.value].id == id
    ensures r.Some? ==> forall j :: 0 <= j < r.value ==> c[j].id != id
    ensures r.None? ==> forall j :: 0 <= j < |c| ==> c[j].id != id
    ensures r.Some? <==> Contains(c, id)
  {
    if |c| == 0 then None
    else if c[0].id == id then Some(0)
    else match FindIndex(c[1..], id)
      case None => None
      case Some(k) => Some(k + 1)
  }

  /** In a cart without duplicate ids, the entry at `k` is the one found by its id. */
  lemma FindIndexUnique(c: Cart, k: nat)
    requires UniqueIds(c) && k < |c|
    ensures FindIndex(c, c[k].id) == Some(k)
  {
  }

  /** The quantity after a repeated add: a missing or zero quantity counts as 1. */
  function Bump(q: nat): nat
  {
    (if q == 0 then 1 else q) + 1
  }

  /** Find-or-append: a known id gets one more unit on its first entry, an
      unknown id is appended with quantity 1. The name, price and image of a
      repeated add are ignored. */
  function Add(c: Cart, p: Product): (r: Cart)
    ensures Contains(c, p.id) ==>
      var k := FindIndex(c, p.id).value;
      && |r| == |c|
      && r[k] == c[k].(qty := r[k].qty)
      && (c[k].qty >= 1 ==> r[k].qty == c[k].qty + 1)
      && (c[k].qty == 0 ==> r[k].qty == 2)
      && forall j :: 0 <= j < |c| && j != k ==> r[j] == c[j]
    ensures !Contains(c, p.id) ==>
      && |r| == |c| + 1
      && r[..|c|] == c
      && r[|c|] == LineItem(p.id, p.name, p.price, p.image, 1)
    ensures Contains(r, p.id)
    ensures PositiveQtys(c) ==> PositiveQtys(r)
    ensures Valid(c) ==> Valid(r)
  {
    match FindIndex(c, p.id)
    case Some(k) => c[k := c[k].(qty := Bump(c[k].qty))]
    case None => c + [LineItem(p.id, p.name, p.price, p.image, 1)]
  }

  /** Drops every entry carrying `id`, keeping the others in order. */
  function Remove(c: Cart, id: string): (r: Cart)
    ensures |r| <= |c|
    ensures !Contains(r, id)
    ensures forall x :: x in r <==> x in c && x.id != id
    ensures !Contains(c, id) ==> r == c
    ensures Contains(c, id) ==> |r| < |c|
  {
    if |c| == 0 then []
    else if c[0].id == id then Remove(c[1..], id)
    else [c[0]] + Remove(c[1..], id)
  }

  /** Removal keeps every quantity at least 1. */
  lemma {:induction false} RemovePositive(c: Cart, id: string)
    requires PositiveQtys(c)
    ensures PositiveQtys(Remove(c, id))
  {
    if |c| > 0 {
      RemovePositive(c[1..], id);
    }
  }

  /** Removal keeps the store invariant. */
  lemma {:induction false} RemoveValid(c: Cart, id: string)
    requires Valid(c)
    ensures Valid(Remove(c, id))
  {
    if |c| > 0 {
      RemoveValid(c[1..], id);
      var rest := Remove(c[1..], id);
      if c[0].id != id {
        forall j | 0 <= j < |rest|
          ensures rest[j].id != c[0].id
        {
          assert rest[j] in c[1..];
        }
      }
    }
  }

  /** Filtering distributes over concatenation: the survivors of `a + b` are
      the survivors of `a` followed by those of `b`. */
  lemma {:induction false} RemoveConcat(a: Cart, b: Cart, id: string)
    ensures Remove(a + b, id) == Remove(a, id) + Remove(b, id)
  {
    if |a| == 0 {
      assert a + b == b;
    } else {
      assert (a + b)[1..] == a[1..] + b;
      RemoveConcat(a[1..], b, id);
    }
  }

  /** In a cart without duplicate ids, removing a present id deletes exactly
      its one entry and leaves the rest in their original order. */
  lemma RemovePresent(c: Cart, id: string, k: nat)
    requires UniqueIds(c)
    requires FindIndex(c, id) == Some(k)
    ensures Remove(c, id) == c[..k] + c[k + 1..]
    ensures |Remove(c, id)| == |c| - 1
  {
    var pre, post := c[..k], c[k + 1..];
    assert c[..k] + c[k..] == c;
    RemoveConcat(pre, c[k..], id);
    assert c[k..][1..] == post;
    assert !Contains(pre, id);
    assert !Contains(post, id) by {
      forall j | 0 <= j < |post|
        ensures post[j].id != id
      {
        assert post[j] == c[k + 1 + j];
      }
    }
  }

  /** A second removal of the same id changes nothing. */
  lemma RemoveIdempotent(c: Cart, id: string)
    ensures Remove(Remove(c, id), id) == Remove(c, id)
  {
  }

  /** The quantity `setQty` stores for a requested quantity: never below 1. */
  function ClampQty(q: int): (r: nat)
    ensures r >= 1
    ensures q >= 1 ==> r == q
    ensures q < 1 ==> r == 1
  {
    if q < 1 then 1 else q
  }

  /** Sets the first entry carrying `id` to quantity max(1, q); an unknown id
      leaves the cart as it is. */
  function SetQty(c: Cart, id: string, q: int): (r: Cart)
    ensures |r| == |c|
    ensures !Contains(c, id) ==> r == c
    ensures Contains(c, id) ==>
      var k := FindIndex(c, id).value;
      && r[k] == c[k].(qty := r[k].qty)
      && r[k].qty >= 1
      && (q >= 1 ==> r[k].qty == q)
      && (q <= 0 ==> r[k].qty == 1)
      && forall j :: 0 <= j < |c| && j != k ==> r[j] == c[j]
    ensures forall j :: 0 <= j < |c| ==> r[j].id == c[j].id
    ensures PositiveQtys(c) ==> PositiveQtys(r)
    ensures Valid(c) ==> Valid(r)
  {
    match FindIndex(c, id)
    case Some(k) => c[k := c[k].(qty := ClampQty(q))]
    case None => c
  }

  /** The badge figure: the total number of units in the cart. */
  function BadgeCount(c: Cart): (r: nat)
    ensures |c| == 0 ==> r == 0
    ensures PositiveQtys(c) ==> r >= |c|
  {
    if |c| == 0 then 0 else c[0].qty + BadgeCount(c[1..])
  }

  /** The value of the cart: unit price times quantity, summed over the entries. */
  function Subtotal(c: Cart): (r: nat)
    ensures |c| == 0 ==> r == 0
    ensures (forall i :: 0 <= i < |c| ==> c[i].price == 0) ==> r == 0
  {
    if |c| == 0 then 0 else c[0].price * c[0].qty + Subtotal(c[1..])
  }

  /** The badge of two carts joined is the sum of their badges. */
  lemma {:induction false} BadgeCountConcat(a: Cart, b: Cart)
    ensures BadgeCount(a + b) == BadgeCount(a) + BadgeCount(b)
  {
    if |a| == 0 {
      assert a + b == b;
    } else {
      assert (a + b)[1..] == a[1..] + b;
      BadgeCountConcat(a[1..], b);
    }
  }

  /** The badge splits around any one entry. */
  lemma BadgeCountSplit(c: Cart, k: nat)
    requires k < |c|
    ensures BadgeCount(c) == BadgeCount(c[..k]) + c[k].qty + BadgeCount(c[k + 1..])
  {
    assert c[..k] + c[k..] == c;
    BadgeCountConcat(c[..k], c[k..]);
    assert c[k..][1..] == c[k + 1..];
  }

  /** Changing one entry's quantity moves the badge by exactly the difference. */
  lemma BadgeCountUpdate(c: Cart, k: nat, x: LineItem)
    requires k < |c|
    ensures BadgeCount(c[k := x]) == BadgeCount(c) - c[k].qty + x.qty
  {
    BadgeCountSplit(c, k);
    BadgeCountSplit(c[k := x], k);
    assert c[k := x][..k] == c[..k];
    assert c[k := x][k + 1..] == c[k + 1..];
  }

  /** When every quantity is at least 1, every add raises the badge by exactly one. */
  lemma BadgeCountAdd(c: Cart, p: Product)
    requires PositiveQtys(c)
    ensures BadgeCount(Add(c, p)) == BadgeCount(c) + 1
  {
    match FindIndex(c, p.id)
    case Some(k) =>
      BadgeCountUpdate(c, k, c[k].(qty := Bump(c[k].qty)));
    case None =>
      BadgeCountConcat(c, [LineItem(p.id, p.name, p.price, p.image, 1)]);
  }

  /** With unique ids, removing a present id lowers the badge by the
      quantity of its entry. */
  lemma BadgeCountRemove(c: Cart, id: string, k: nat)
    requires UniqueIds(c)
    requires FindIndex(c, id) == Some(k)
    ensures BadgeCount(Remove(c, id)) == BadgeCount(c) - c[k].qty
  {
    RemovePresent(c, id, k);
    BadgeCountSplit(c, k);
    BadgeCountConcat(c[..k], c[k + 1..]);
  }
}
