/** Atoms of a universe and the position of an atom in it. */
module Atoms {

  /** The original problem's atoms and the synthetic trace atoms.
      `St(i)` is state i of the single-unroll encoding, `StU(i, j)` is state i
      of unroll j in the multi-unroll encoding, and `Lvl(j)` is level j. */
  datatype Atom =
    | Orig(name: string)
    | St(i: int)
    | StU(i: int, j: int)
    | Lvl(j: int)

  predicate IsTrace(a: Atom) {
    !a.Orig?
  }

  /** No atom occurs twice. */
  predicate Distinct(xs: seq<Atom>) {
    forall p, q | 0 <= p < q < |xs| :: xs[p] != xs[q]
  }

  /** The position of the first occurrence of `a`; in a universe, whose atoms
      are distinct, this is the atom's index. */
  function IndexOf(u: seq<Atom>, a: Atom): (k: nat)
    requires a in u
    ensures k < |u| && u[k] == a
    ensures a !in u[..k]
  {
    if u[0] == a then 0 else 1 + IndexOf(u[1..], a)
  }

  /** In a universe without repetitions, the index of the atom at position k is k. */
  lemma IndexOfDistinct(u: seq<Atom>, k: int)
    requires Distinct(u) && 0 <= k < |u|
    ensures IndexOf(u, u[k]) == k
  {
    var m := IndexOf(u, u[k]);
    assert u[m] == u[k];
  }

  /** The concatenation of two sequences without repetitions, with no atom in
      common, has no repetitions. */
  lemma DistinctAppend(xs: seq<Atom>, ys: seq<Atom>)
    requires Distinct(xs) && Distinct(ys)
    requires forall a | a in xs :: a !in ys
    ensures Distinct(xs + ys)
  {
    forall p, q | 0 <= p < q < |xs + ys|
      ensures (xs + ys)[p] != (xs + ys)[q]
    {
      if q < |xs| {
      } else if p >= |xs| {
        assert (xs + ys)[p] == ys[p - |xs|];
        assert (xs + ys)[q] == ys[q - |xs|];
      } else {
        assert (xs + ys)[p] in xs;
        assert (xs + ys)[q] in ys;
      }
    }
  }
}
