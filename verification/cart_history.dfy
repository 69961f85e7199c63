/** Carts built from the empty cart by a run of "add to cart" clicks. */
module CartHistory {
  import opened CartStore

  /** The ids of a run of adds, in click order. */
  function Ids(ps: seq<Product>): (r: seq<string>)
    ensures |r| == |ps|
    ensures forall i :: 0 <= i < |ps| ==> r[i] == ps[i].id
  {
    seq(|ps|, i requires 0 <= i < |ps| => ps[i].id)
  }

  /** How many times `x` occurs in `xs`. */
  function Occurrences(xs: seq<string>, x: string): (r: nat)
    ensures x !in xs ==> r == 0
    ensures x in xs ==> r >= 1
  {
    if |xs| == 0 then 0
    else Occurrences(xs[..|xs| - 1], x) + (if xs[|xs| - 1] == x then 1 else 0)
  }

  /** The distinct elements of `xs`, each at the position of its first occurrence. */
  function FirstOccurrences(xs: seq<string>): (r: seq<string>)
    ensures forall x :: x in r <==> x in xs
    ensures forall i, j :: 0 <= i < j < |r| ==> r[i] != r[j]
  {
    if |xs| == 0 then []
    else
      var d := FirstOccurrences(xs[..|xs| - 1]);
      if xs[|xs| - 1] in d then d else d + [xs[|xs| - 1]]
  }

  /** The position of the first occurrence of `x` in `xs`. */
  function IndexOf(xs: seq<string>, x: string): (r: nat)
    requires x in xs
    ensures r < |xs| && xs[r] == x
    ensures forall j :: 0 <= j < r ==> xs[j] != x
  {
    if xs[0] == x then 0 else 1 + IndexOf(xs[1..], x)
  }

  /** The first occurrence in a prefix is the first occurrence in the whole. */
  lemma IndexOfPrefix(xs: seq<string>, n: nat, x: string)
    requires n <= |xs| && x in xs[..n]
    ensures IndexOf(xs[..n], x) == IndexOf(xs, x)
  {
    var i := IndexOf(xs[..n], x);
    assert xs[i] == x;
  }

  /** The distinct elements come in the order of their first occurrences. */
  lemma {:induction false} FirstOccurrencesOrdered(xs: seq<string>)
    ensures forall i, j :: 0 <= i < j < |FirstOccurrences(xs)| ==>
      IndexOf(xs, FirstOccurrences(xs)[i]) < IndexOf(xs, FirstOccurrences(xs)[j])
  {
    if |xs| > 0 {
      var n := |xs| - 1;
      var init := xs[..n];
      FirstOccurrencesOrdered(init);
      var d := FirstOccurrences(init);
      var r := FirstOccurrences(xs);
      forall i | 0 <= i < |d|
        ensures IndexOf(xs, d[i]) == IndexOf(init, d[i]) < n
      {
        IndexOfPrefix(xs, n, d[i]);
      }
      if xs[n] !in d {
        assert xs[n] !in init;
        assert IndexOf(xs, xs[n]) == n;
        assert r == d + [xs[n]];
      }
    }
  }

  /** The cart after the adds `ps`, starting from the empty cart. */
  function AddAll(ps: seq<Product>): (r: Cart)
    ensures Valid(r)
  {
    if |ps| == 0 then [] else Add(AddAll(ps[..|ps| - 1]), ps[|ps| - 1])
  }

  /** `c` holds one entry per distinct element of `xs`, in first-occurrence
      order, each with the number of occurrences of its id as quantity. */
  predicate Shaped(c: Cart, xs: seq<string>)
  {
    && |c| == |FirstOccurrences(xs)|
    && forall i :: 0 <= i < |c| ==>
      c[i].id == FirstOccurrences(xs)[i] && c[i].qty == Occurrences(xs, c[i].id)
  }

  /** One more element adds one occurrence of itself and none of anything else. */
  lemma OccurrencesSnoc(xs: seq<string>, x: string, y: string)
    ensures Occurrences(xs + [x], y) == Occurrences(xs, y) + (if x == y then 1 else 0)
  {
    assert (xs + [x])[..|xs|] == xs;
  }

  /** One more element is appended to the distinct elements exactly when it is new. */
  lemma FirstOccurrencesSnoc(xs: seq<string>, x: string)
    ensures FirstOccurrences(xs + [x]) ==
      if x in FirstOccurrences(xs) then FirstOccurrences(xs) else FirstOccurrences(xs) + [x]
  {
    assert (xs + [x])[..|xs|] == xs;
  }

  /** In a shaped cart, an id has an entry exactly when it occurs in the history. */
  lemma ShapedContains(c: Cart, xs: seq<string>, id: string)
    requires Shaped(c, xs)
    ensures Contains(c, id) <==> id in xs
  {
    var d := FirstOccurrences(xs);
    if Contains(c, id) {
      var i :| 0 <= i < |c| && c[i].id == id;
      assert d[i] == id;
    }
    if id in d {
      var i :| 0 <= i < |d| && d[i] == id;
      assert c[i].id == id;
    }
  }

  /** A repeated add keeps the shape. */
  lemma AddPresentKeepsShape(c: Cart, xs: seq<string>, p: Product)
    requires Valid(c) && Shaped(c, xs) && Contains(c, p.id)
    ensures Shaped(Add(c, p), xs + [p.id])
  {
    ShapedContains(c, xs, p.id);
    FirstOccurrencesSnoc(xs, p.id);
    var k := FindIndex(c, p.id).value;
    var r := Add(c, p);
    forall i | 0 <= i < |r|
      ensures r[i].id == FirstOccurrences(xs + [p.id])[i]
      ensures r[i].qty == Occurrences(xs + [p.id], r[i].id)
    {
      OccurrencesSnoc(xs, p.id, r[i].id);
      if i != k {
        assert c[i].id != c[k].id;
      }
    }
  }

  /** The first add of an id keeps the shape. */
  lemma AddFreshKeepsShape(c: Cart, xs: seq<string>, p: Product)
    requires Shaped(c, xs) && !Contains(c, p.id)
    ensures Shaped(Add(c, p), xs + [p.id])
  {
    ShapedContains(c, xs, p.id);
    FirstOccurrencesSnoc(xs, p.id);
    var r := Add(c, p);
    forall i | 0 <= i < |r|
      ensures r[i].id == FirstOccurrences(xs + [p.id])[i]
      ensures r[i].qty == Occurrences(xs + [p.id], r[i].id)
    {
      OccurrencesSnoc(xs, p.id, r[i].id);
      if i < |c| {
        assert r[i] == r[..|c|][i];
      }
    }
  }

  /** One more add keeps a shaped cart shaped. */
  lemma AddKeepsShape(c: Cart, xs: seq<string>, p: Product)
    requires Valid(c) && Shaped(c, xs)
    ensures Shaped(Add(c, p), xs + [p.id])
  {
    if Contains(c, p.id) {
      AddPresentKeepsShape(c, xs, p);
    } else {
      AddFreshKeepsShape(c, xs, p);
    }
  }

  /** Any run of adds from the empty cart leaves one entry per distinct id,
      in first-add order, whose quantity is the number of adds of that id. */
  lemma {:induction false} AddAllShape(ps: seq<Product>)
    ensures Shaped(AddAll(ps), Ids(ps))
  {
    if |ps| > 0 {
      var init := ps[..|ps| - 1];
      AddAllShape(init);
      assert Ids(ps) == Ids(init) + [ps[|ps| - 1].id];
      AddKeepsShape(AddAll(init), Ids(init), ps[|ps| - 1]);
    }
  }
}
