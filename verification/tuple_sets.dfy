/** Tuple sets over a universe, the parts of Kodkod's tuple factory that the
    expansion uses (`tuple`, `setOf`, `range`), the Cartesian product, and the
    re-expression of a tuple set onto a larger universe (`convert`). */
module TupleSets {
  import opened Outcomes
  import opened Atoms

  /** A set of tuples of one arity; a tuple is the sequence of its atoms. */
  datatype TupleSet = TupleSet(arity: nat, tuples: set<seq<Atom>>)

  function Empty(arity: nat): TupleSet {
    TupleSet(arity, {})
  }

  /** Every tuple has the set's arity. */
  predicate Shaped(ts: TupleSet) {
    forall t | t in ts.tuples :: |t| == ts.arity
  }

  /** Every atom of every tuple belongs to `u`. */
  predicate Over(ts: TupleSet, u: seq<Atom>) {
    forall t | t in ts.tuples :: forall a | a in t :: a in u
  }

  predicate Subset(a: TupleSet, b: TupleSet) {
    a.arity == b.arity && a.tuples <= b.tuples
  }

  function Union(a: TupleSet, b: TupleSet): (r: TupleSet)
    requires a.arity == b.arity
    ensures r.arity == a.arity
    ensures forall t :: t in r.tuples <==> t in a.tuples || t in b.tuples
  {
    TupleSet(a.arity, a.tuples + b.tuples)
  }

  /** The unary tuples of the atoms of `xs`. */
  function Singletons(xs: seq<Atom>): set<seq<Atom>> {
    set a | a in xs :: [a]
  }

  /** The tuple of the given atoms, which the factory only builds when every
      atom belongs to its universe. */
  function Tuple(u: seq<Atom>, atoms: seq<Atom>): (r: Result<seq<Atom>>)
    ensures r.Ok? <==> forall a | a in atoms :: a in u
    ensures r.Ok? ==> r.value == atoms
    ensures r.Err? ==> r.error == NoSuchAtom
  {
    if forall k | 0 <= k < |atoms| :: atoms[k] in u then Ok(atoms) else Err(NoSuchAtom)
  }

  /** A tuple set of the given arity built by adding each of `tuples` in
      turn; it fails as soon as one of them names an atom outside `u`. */
  function TuplesOf(u: seq<Atom>, arity: nat, tuples: set<seq<Atom>>): (r: Result<TupleSet>)
    ensures r.Ok? <==> forall t | t in tuples :: forall a | a in t :: a in u
    ensures r.Ok? ==> r.value.arity == arity && r.value.tuples == tuples && Over(r.value, u)
    ensures r.Err? ==> r.error == NoSuchAtom
  {
    if forall t | t in tuples :: Tuple(u, t).Ok? then
      Ok(TupleSet(arity, set t | t in tuples :: Tuple(u, t).value))
    else
      Err(NoSuchAtom)
  }

  /** In a universe without repeated atoms, the slice `lo..hi` holds the
      atom at position `k` exactly when `k` lies between `lo` and `hi`. */
  lemma SliceSingletons(u: seq<Atom>, lo: int, hi: int)
    requires Distinct(u) && 0 <= lo <= hi < |u|
    ensures forall k | 0 <= k < |u| :: [u[k]] in Singletons(u[lo..hi + 1]) <==> lo <= k <= hi
  {
    forall k | 0 <= k < |u|
      ensures [u[k]] in Singletons(u[lo..hi + 1]) <==> lo <= k <= hi
    {
      if lo <= k <= hi {
        assert u[k] == u[lo..hi + 1][k - lo];
      }
      if [u[k]] in Singletons(u[lo..hi + 1]) {
        var p :| 0 <= p < hi + 1 - lo && u[lo..hi + 1][p] == u[k];
        assert u[lo + p] == u[k];
      }
    }
  }

  /** The unary tuples whose atom lies between `from` and `to`, both
      included, in the order of the universe. */
  function Range(u: seq<Atom>, from: Atom, to: Atom): (r: Result<TupleSet>)
    ensures from !in u || to !in u ==> r == Err(NoSuchAtom)
    ensures from in u && to in u && IndexOf(u, from) > IndexOf(u, to) ==> r == Err(RangeReversed)
    ensures from in u && to in u && IndexOf(u, from) <= IndexOf(u, to) ==> r.Ok?
    ensures r.Ok? ==> r.value.arity == 1 && Shaped(r.value) && Over(r.value, u)
    ensures r.Ok? && Distinct(u) ==>
      forall k | 0 <= k < |u| :: [u[k]] in r.value.tuples <==> IndexOf(u, from) <= k <= IndexOf(u, to)
  {
    if from !in u || to !in u then
      Err(NoSuchAtom)
    else if IndexOf(u, from) > IndexOf(u, to) then
      Err(RangeReversed)
    else
      var lo, hi := IndexOf(u, from), IndexOf(u, to);
      assert Distinct(u) ==> forall k | 0 <= k < |u| :: [u[k]] in Singletons(u[lo..hi + 1]) <==> lo <= k <= hi by {
        if Distinct(u) {
          SliceSingletons(u, lo, hi);
        }
      }
      Ok(TupleSet(1, Singletons(u[lo..hi + 1])))
  }

  /** The Cartesian product: every tuple of `a` followed by every tuple of `b`. */
  function Product(a: TupleSet, b: TupleSet): (r: TupleSet)
    ensures r.arity == a.arity + b.arity
    ensures Shaped(a) && Shaped(b) ==> Shaped(r)
  {
    TupleSet(a.arity + b.arity, set x, y | x in a.tuples && y in b.tuples :: x + y)
  }

  /** The first n columns of every tuple of `ts` that has that many. */
  function Project(ts: TupleSet, n: nat): (r: TupleSet)
    ensures r.arity == n && Shaped(r)
    ensures forall t | t in ts.tuples && |t| >= n :: t[..n] in r.tuples
  {
    TupleSet(n, set t | t in ts.tuples && |t| >= n :: t[..n])
  }

  /** Re-expresses `ts` over the universe `u`: each tuple is rebuilt from its
      atoms, looked up by identity in `u`. */
  function Convert(ts: TupleSet, u: seq<Atom>): (r: Result<TupleSet>)
    ensures r.Ok? <==> Over(ts, u)
    ensures r.Ok? ==> r.value == ts
    ensures r.Err? ==> r.error == NoSuchAtom
  {
    if forall t | t in ts.tuples :: Tuple(u, t).Ok? then
      Ok(TupleSet(ts.arity, set t | t in ts.tuples :: Tuple(u, t).value))
    else
      Err(NoSuchAtom)
  }

  // ---------------------------------------------------------------------
  // Properties

  /** A tuple belongs to the product exactly when it splits, at the arity of
      `a`, into a tuple of `a` followed by a tuple of `b`. */
  lemma ProductMembers(a: TupleSet, b: TupleSet, t: seq<Atom>)
    requires Shaped(a)
    ensures t in Product(a, b).tuples <==>
      |t| >= a.arity && t[..a.arity] in a.tuples && t[a.arity..] in b.tuples
  {
    if t in Product(a, b).tuples {
      var x, y :| x in a.tuples && y in b.tuples && t == x + y;
      assert t[..a.arity] == x && t[a.arity..] == y;
    }
    if |t| >= a.arity && t[..a.arity] in a.tuples && t[a.arity..] in b.tuples {
      assert t == t[..a.arity] + t[a.arity..];
    }
  }

  /** Multiplying with a non-empty set loses nothing: projecting the product
      back onto the columns of `a` gives `a`. */
  lemma ProjectProduct(a: TupleSet, b: TupleSet)
    requires Shaped(a) && b.tuples != {}
    ensures Project(Product(a, b), a.arity) == a
  {
    var p := Project(Product(a, b), a.arity);
    forall x | x in p.tuples
      ensures x in a.tuples
    {
      var t :| t in Product(a, b).tuples && |t| >= a.arity && x == t[..a.arity];
      ProductMembers(a, b, t);
    }
    forall x | x in a.tuples
      ensures x in p.tuples
    {
      var y :| y in b.tuples;
      ProductMembers(a, b, x + y);
      assert (x + y)[..a.arity] == x;
    }
  }

  /** Multiplying both sides with the same set keeps lower within upper. */
  lemma ProductMono(lower: TupleSet, upper: TupleSet, b: TupleSet)
    requires Subset(lower, upper)
    ensures Subset(Product(lower, b), Product(upper, b))
  {
  }

  /** A product of sets over `u` is over `u`. */
  lemma ProductOver(a: TupleSet, b: TupleSet, u: seq<Atom>)
    requires Over(a, u) && Over(b, u)
    ensures Over(Product(a, b), u)
  {
    forall t | t in Product(a, b).tuples
      ensures forall x | x in t :: x in u
    {
      var p, q :| p in a.tuples && q in b.tuples && t == p + q;
      forall x | x in t
        ensures x in u
      {
        if x !in p {
          var k :| 0 <= k < |t| && t[k] == x;
          assert x == q[k - |p|];
        }
      }
    }
  }

  /** Converting onto a universe that holds every atom of the set keeps the
      set as it is. */
  lemma ConvertOnto(ts: TupleSet, u0: seq<Atom>, u1: seq<Atom>)
    requires Over(ts, u0)
    requires forall a | a in u0 :: a in u1
    ensures Convert(ts, u1) == Ok(ts)
  {
  }

  /** Converting onto a larger universe and back gives the original set:
      atoms keep their identity. */
  lemma ConvertRoundTrip(ts: TupleSet, u0: seq<Atom>, u1: seq<Atom>)
    requires Over(ts, u0)
    requires forall a | a in u0 :: a in u1
    ensures Convert(ts, u1).Ok?
    ensures Convert(Convert(ts, u1).value, u0) == Ok(ts)
  {
    ConvertOnto(ts, u0, u1);
  }

  /** `range` over a universe without repetitions is the set of atoms
      between the two positions. */
  lemma RangeSlice(u: seq<Atom>, lo: int, hi: int)
    requires Distinct(u) && 0 <= lo <= hi < |u|
    ensures Range(u, u[lo], u[hi]) == Ok(TupleSet(1, Singletons(u[lo..hi + 1])))
  {
    IndexOfDistinct(u, lo);
    IndexOfDistinct(u, hi);
  }

  /** A run of atoms laid out contiguously in a proper universe is the
      `range` from its first to its last atom. */
  lemma RangeRun(u: seq<Atom>, lo: int, xs: seq<Atom>)
    requires Distinct(u) && |xs| > 0 && 0 <= lo && lo + |xs| <= |u|
    requires u[lo..lo + |xs|] == xs
    ensures Range(u, xs[0], xs[|xs| - 1]) == Ok(TupleSet(1, Singletons(xs)))
  {
    var hi := lo + |xs| - 1;
    assert xs[0] == u[lo] by { assert u[lo..hi + 1][0] == u[lo]; }
    assert xs[|xs| - 1] == u[hi] by { assert u[lo..hi + 1][|xs| - 1] == u[hi]; }
    RangeSlice(u, lo, hi);
  }

  /** Distinct atoms give as many unary tuples as there are atoms. */
  lemma {:induction false} SingletonsCard(xs: seq<Atom>)
    requires Distinct(xs)
    ensures |Singletons(xs)| == |xs|
  {
    if |xs| > 0 {
      var init := xs[..|xs| - 1];
      var x := xs[|xs| - 1];
      assert Distinct(init);
      SingletonsCard(init);
      assert xs == init + [x];
      assert Singletons(xs) == Singletons(init) + {[x]};
      assert x !in init;
    }
  }
}
