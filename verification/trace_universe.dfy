/** The expanded universe: the original atoms followed by the synthetic
    trace atoms of the chosen encoding (`expandUniverse`). */
module TraceUniverse {
  import opened Outcomes
  import opened Atoms

  /** The two encodings of a trace; `MultiUnroll` is the one the source
      selects with its global `alt` flag. */
  datatype Encoding = SingleUnroll | MultiUnroll

  /** The number of iterations of `for (k = 0; k < n; k++)`. */
  function Count(n: int): nat {
    if n < 0 then 0 else n
  }

  /** The states of unroll j, in state order. */
  function UnrollAtoms(states: int, j: int): (r: seq<Atom>)
    ensures |r| == Count(states)
    ensures forall i | 0 <= i < |r| :: r[i] == StU(i, j)
  {
    seq(Count(states), i => StU(i, j))
  }

  /** The trace atoms of the multi-unroll encoding: unroll-major, so unroll
      0 comes first with its states in order, then unroll 1, and so on. */
  function AltTraceAtoms(states: int, unrolls: int): seq<Atom>
    decreases unrolls
  {
    if unrolls <= 0 then [] else AltTraceAtoms(states, unrolls - 1) + UnrollAtoms(states, unrolls - 1)
  }

  /** The states 0..states of the single-unroll encoding. */
  function StateAtoms(states: int): (r: seq<Atom>)
    ensures |r| == Count(states + 1)
    ensures forall i | 0 <= i < |r| :: r[i] == St(i)
  {
    seq(Count(states + 1), i => St(i))
  }

  /** The levels 0..unrolls-1 of the single-unroll encoding. */
  function LevelAtoms(unrolls: int): (r: seq<Atom>)
    ensures |r| == Count(unrolls)
    ensures forall j | 0 <= j < |r| :: r[j] == Lvl(j)
  {
    seq(Count(unrolls), j => Lvl(j))
  }

  function SingleTraceAtoms(states: int, unrolls: int): seq<Atom> {
    StateAtoms(states) + LevelAtoms(unrolls)
  }

  /** The atoms appended to the universe, which are also appended to the
      caller's list of time atoms. */
  function TraceAtoms(mode: Encoding, states: int, unrolls: int): seq<Atom> {
    match mode
    case MultiUnroll => AltTraceAtoms(states, unrolls)
    case SingleUnroll => SingleTraceAtoms(states, unrolls)
  }

  /** `new Universe(atoms)`: refused when empty or when an atom repeats. */
  function MakeUniverse(atoms: seq<Atom>): (r: Result<seq<Atom>>)
    ensures r.Ok? <==> |atoms| > 0 && Distinct(atoms)
    ensures r.Ok? ==> r.value == atoms
    ensures |atoms| == 0 ==> r == Err(EmptyUniverse)
  {
    if |atoms| == 0 then Err(EmptyUniverse)
    else if !Distinct(atoms) then Err(DuplicateAtom)
    else Ok(atoms)
  }

  /** What `expandUniverse` hands back: the new universe (or the failure of
      building it) and the caller's time-atom list after the appends. */
  datatype UniverseExpansion = UniverseExpansion(universe: Result<seq<Atom>>, timeAtoms: seq<Atom>)

  function ExpandUniverse(orig: seq<Atom>, mode: Encoding, states: int, unrolls: int, timeAtoms: seq<Atom>): UniverseExpansion {
    var added := TraceAtoms(mode, states, unrolls);
    UniverseExpansion(MakeUniverse(orig + added), timeAtoms + added)
  }

  /** A universe a temporal problem starts from: a proper universe without
      trace atoms. */
  predicate OriginalUniverse(orig: seq<Atom>) {
    |orig| > 0 && Distinct(orig) && forall a | a in orig :: !IsTrace(a)
  }

  // ---------------------------------------------------------------------
  // Layout of the multi-unroll trace atoms

  lemma {:induction false} AltLength(states: int, unrolls: int)
    ensures |AltTraceAtoms(states, unrolls)| == Count(states) * Count(unrolls)
    decreases unrolls
  {
    if unrolls > 0 {
      AltLength(states, unrolls - 1);
      assert Count(unrolls) == Count(unrolls - 1) + 1;
    }
  }

  /** The first `j` unrolls are a prefix of the whole sequence. */
  lemma {:induction false} AltUnrollsPrefix(states: int, j: int, unrolls: int)
    requires 0 <= j <= unrolls
    ensures AltTraceAtoms(states, j) <= AltTraceAtoms(states, unrolls)
    decreases unrolls
  {
    if j < unrolls {
      AltUnrollsPrefix(states, j, unrolls - 1);
    }
  }

  /** Unroll j occupies positions j*states .. j*states + states - 1. */
  lemma AltUnrollSlice(states: int, j: int, unrolls: int)
    requires states >= 0 && 0 <= j < unrolls
    ensures j * states + states <= |AltTraceAtoms(states, unrolls)|
    ensures AltTraceAtoms(states, unrolls)[j * states .. j * states + states] == UnrollAtoms(states, j)
  {
    AltUnrollsPrefix(states, j + 1, unrolls);
    AltLength(states, j);
    AltLength(states, j + 1);
    var whole := AltTraceAtoms(states, unrolls);
    var upTo := AltTraceAtoms(states, j + 1);
    assert upTo == AltTraceAtoms(states, j) + UnrollAtoms(states, j);
    assert |upTo| == j * states + states;
    assert whole[j * states .. j * states + states] == upTo[j * states .. j * states + states];
  }

  /** State i of unroll j sits at position j*states + i. */
  lemma AltAt(states: int, unrolls: int, i: int, j: int)
    requires 0 <= i < states && 0 <= j < unrolls
    ensures j * states + i < |AltTraceAtoms(states, unrolls)|
    ensures AltTraceAtoms(states, unrolls)[j * states + i] == StU(i, j)
  {
    AltUnrollSlice(states, j, unrolls);
    var whole := AltTraceAtoms(states, unrolls);
    assert whole[j * states + i] == whole[j * states .. j * states + states][i];
  }

  /** The multi-unroll trace atoms are exactly the pairs (i, j) with
      0 <= i < states and 0 <= j < unrolls. */
  lemma {:induction false} AltMembers(states: int, unrolls: int, a: Atom)
    ensures a in AltTraceAtoms(states, unrolls) <==> a.StU? && 0 <= a.i < states && 0 <= a.j < unrolls
    decreases unrolls
  {
    if unrolls > 0 {
      AltMembers(states, unrolls - 1, a);
      if a.StU? && 0 <= a.i < states && a.j == unrolls - 1 {
        assert UnrollAtoms(states, unrolls - 1)[a.i] == a;
      }
    }
  }

  lemma {:induction false} AltDistinct(states: int, unrolls: int)
    ensures Distinct(AltTraceAtoms(states, unrolls))
    decreases unrolls
  {
    if unrolls > 0 {
      var earlier, last := AltTraceAtoms(states, unrolls - 1), UnrollAtoms(states, unrolls - 1);
      AltDistinct(states, unrolls - 1);
      forall a | a in earlier
        ensures a !in last
      {
        AltMembers(states, unrolls - 1, a);
      }
      DistinctAppend(earlier, last);
    }
  }

  // ---------------------------------------------------------------------
  // The expanded universe

  lemma TraceAtomsDistinct(mode: Encoding, states: int, unrolls: int)
    ensures Distinct(TraceAtoms(mode, states, unrolls))
    ensures forall a | a in TraceAtoms(mode, states, unrolls) :: IsTrace(a)
  {
    match mode
    case MultiUnroll =>
      AltDistinct(states, unrolls);
      forall a | a in TraceAtoms(mode, states, unrolls)
        ensures IsTrace(a)
      {
        AltMembers(states, unrolls, a);
      }
    case SingleUnroll =>
      DistinctAppend(StateAtoms(states), LevelAtoms(unrolls));
  }

  /** Building the universe fails exactly when the original atoms are not a
      proper universe free of trace atoms, or when nothing is left at all. */
  lemma ExpandUniverseSucceeds(orig: seq<Atom>, mode: Encoding, states: int, unrolls: int, timeAtoms: seq<Atom>)
    requires forall a | a in orig :: !IsTrace(a)
    ensures ExpandUniverse(orig, mode, states, unrolls, timeAtoms).universe.Ok?
        <==> Distinct(orig) && |orig + TraceAtoms(mode, states, unrolls)| > 0
  {
    var added := TraceAtoms(mode, states, unrolls);
    TraceAtomsDistinct(mode, states, unrolls);
    if Distinct(orig) {
      DistinctAppend(orig, added);
    }
    if Distinct(orig + added) {
      forall p, q | 0 <= p < q < |orig|
        ensures orig[p] != orig[q]
      {
        assert (orig + added)[p] == orig[p] && (orig + added)[q] == orig[q];
      }
    }
  }

  /** Position of state i of unroll j among the multi-unroll trace atoms. */
  function AltSlot(states: int, i: int, j: int): int {
    j * states + i
  }

  /** The layout of the multi-unroll universe: the original atoms in their
      order, then states*unrolls trace atoms, unroll-major; the caller's
      time atoms gain exactly the appended ones. */
  lemma AltUniverseLayout(orig: seq<Atom>, states: int, unrolls: int, timeAtoms: seq<Atom>)
    requires OriginalUniverse(orig) && states >= 1 && unrolls >= 1
    ensures var e := ExpandUniverse(orig, MultiUnroll, states, unrolls, timeAtoms);
      && e.universe.Ok?
      && |e.universe.value| == |orig| + states * unrolls
      && e.universe.value[..|orig|] == orig
      && (forall i, j | 0 <= i < states && 0 <= j < unrolls ::
            |orig| + AltSlot(states, i, j) < |e.universe.value|
            && e.universe.value[|orig| + AltSlot(states, i, j)] == StU(i, j))
      && e.timeAtoms == timeAtoms + e.universe.value[|orig|..]
  {
    var u := orig + AltTraceAtoms(states, unrolls);
    var e := ExpandUniverse(orig, MultiUnroll, states, unrolls, timeAtoms);
    ExpandUniverseSucceeds(orig, MultiUnroll, states, unrolls, timeAtoms);
    assert e.universe == Ok(u);
    AltLayout(orig, states, unrolls);
    AltPositions(orig, states, unrolls);
  }

  lemma AltLayout(orig: seq<Atom>, states: int, unrolls: int)
    requires states >= 1 && unrolls >= 1
    ensures |orig + AltTraceAtoms(states, unrolls)| == |orig| + states * unrolls
    ensures (orig + AltTraceAtoms(states, unrolls))[..|orig|] == orig
    ensures (orig + AltTraceAtoms(states, unrolls))[|orig|..] == AltTraceAtoms(states, unrolls)
  {
    var trace := AltTraceAtoms(states, unrolls);
    AltLength(states, unrolls);
    assert (orig + trace)[..|orig|] == orig;
    assert (orig + trace)[|orig|..] == trace;
  }

  lemma AltPositions(orig: seq<Atom>, states: int, unrolls: int)
    ensures forall i, j | 0 <= i < states && 0 <= j < unrolls ::
      |orig| + AltSlot(states, i, j) < |orig + AltTraceAtoms(states, unrolls)|
      && (orig + AltTraceAtoms(states, unrolls))[|orig| + AltSlot(states, i, j)] == StU(i, j)
  {
    var u := orig + AltTraceAtoms(states, unrolls);
    forall i, j | 0 <= i < states && 0 <= j < unrolls
      ensures |orig| + AltSlot(states, i, j) < |u| && u[|orig| + AltSlot(states, i, j)] == StU(i, j)
    {
      AltAt(states, unrolls, i, j);
      assert u[|orig| + AltSlot(states, i, j)] == AltTraceAtoms(states, unrolls)[AltSlot(states, i, j)];
    }
  }

  /** The layout of the single-unroll universe: the original atoms in their
      order, then the states+1 states 0..states, then the unrolls levels. */
  lemma SingleUniverseLayout(orig: seq<Atom>, states: int, unrolls: int, timeAtoms: seq<Atom>)
    requires OriginalUniverse(orig) && states >= 1 && unrolls >= 1
    ensures var e := ExpandUniverse(orig, SingleUnroll, states, unrolls, timeAtoms);
      && e.universe.Ok?
      && |e.universe.value| == |orig| + (states + 1) + unrolls
      && e.universe.value[..|orig|] == orig
      && (forall i | 0 <= i <= states :: e.universe.value[|orig| + i] == St(i))
      && (forall j | 0 <= j < unrolls :: e.universe.value[|orig| + states + 1 + j] == Lvl(j))
      && e.timeAtoms == timeAtoms + e.universe.value[|orig|..]
  {
    var u := orig + SingleTraceAtoms(states, unrolls);
    ExpandUniverseSucceeds(orig, SingleUnroll, states, unrolls, timeAtoms);
    assert u[..|orig|] == orig;
    assert u[|orig|..] == SingleTraceAtoms(states, unrolls);
  }
}
