/** Exact contents of the trace relations of the multi-unroll encoding over
    the universe that `expandUniverse` builds for it. */
module AltContents {
  import opened Outcomes
  import opened Atoms
  import opened TupleSets
  import opened BoundSets
  import opened TraceUniverse
  import opened TraceRelations

  /** A trace atom of the multi-unroll encoding: state i of unroll j. */
  predicate IsAltState(a: Atom, states: int, unrolls: int) {
    a.StU? && 0 <= a.i < states && 0 <= a.j < unrolls
  }

  /** The states of unroll j, as unary tuples. */
  function UnrollStates(states: int, j: int): set<seq<Atom>> {
    set i | 0 <= i < states :: [StU(i, j)]
  }

  /** Every trace atom, as a unary tuple. */
  function AllStates(states: int, unrolls: int): set<seq<Atom>> {
    set i, j | 0 <= i < states && 0 <= j < unrolls :: [StU(i, j)]
  }

  /** The expanded universe of the multi-unroll encoding has no repeated
      atom. */
  lemma AltUniverseDistinct(orig: seq<Atom>, u: seq<Atom>, states: int, unrolls: int)
    requires OriginalUniverse(orig) && u == orig + AltTraceAtoms(states, unrolls)
    ensures Distinct(u)
  {
    ExpandUniverseSucceeds(orig, MultiUnroll, states, unrolls, []);
  }

  /** Every trace state belongs to the expanded universe. */
  lemma AltStateInUniverse(orig: seq<Atom>, u: seq<Atom>, states: int, unrolls: int, i: int, j: int)
    requires u == orig + AltTraceAtoms(states, unrolls)
    requires 0 <= i < states && 0 <= j < unrolls
    ensures StU(i, j) in u
  {
    AltMembers(states, unrolls, StU(i, j));
  }

  lemma UnrollSingletons(states: int, j: int)
    ensures Singletons(UnrollAtoms(states, j)) == UnrollStates(states, j)
  {
    var xs := UnrollAtoms(states, j);
    forall t | t in UnrollStates(states, j)
      ensures t in Singletons(xs)
    {
      var i :| 0 <= i < states && t == [StU(i, j)];
      assert xs[i] == StU(i, j);
    }
  }

  lemma AllSingletons(states: int, unrolls: int)
    ensures Singletons(AltTraceAtoms(states, unrolls)) == AllStates(states, unrolls)
  {
    var xs := AltTraceAtoms(states, unrolls);
    forall a | a in xs
      ensures [a] in AllStates(states, unrolls)
    {
      AltMembers(states, unrolls, a);
    }
    forall t | t in AllStates(states, unrolls)
      ensures t in Singletons(xs)
    {
      var i, j :| 0 <= i < states && 0 <= j < unrolls && t == [StU(i, j)];
      AltMembers(states, unrolls, StU(i, j));
    }
  }

  /** Unroll j of the trace, as found in the expanded universe. */
  lemma UnrollInUniverse(orig: seq<Atom>, u: seq<Atom>, states: int, unrolls: int, j: int)
    requires u == orig + AltTraceAtoms(states, unrolls)
    requires states >= 1 && 0 <= j < unrolls
    ensures |orig| + j * states + states <= |u|
    ensures u[|orig| + j * states .. |orig| + j * states + states] == UnrollAtoms(states, j)
    ensures u[|orig| + j * states] == StU(0, j)
    ensures u[|orig| + j * states + states - 1] == StU(states - 1, j)
  {
    AltUnrollSlice(states, j, unrolls);
    var trace := AltTraceAtoms(states, unrolls);
    assert u[|orig| + j * states .. |orig| + j * states + states] == trace[j * states .. j * states + states];
    AltAt(states, unrolls, 0, j);
    AltAt(states, unrolls, states - 1, j);
    assert u[|orig| + j * states] == trace[j * states];
    assert u[|orig| + j * states + states - 1] == trace[j * states + (states - 1)];
  }

  /** `range` from the first to the last state of the last unroll: every
      trace state, since the trace atoms close the universe. */
  lemma AltRangeAll(orig: seq<Atom>, u: seq<Atom>, states: int, unrolls: int)
    requires OriginalUniverse(orig) && u == orig + AltTraceAtoms(states, unrolls)
    requires states >= 1 && unrolls >= 1
    ensures Range(u, StU(0, 0), StU(states - 1, unrolls - 1)) == Ok(TupleSet(1, AllStates(states, unrolls)))
  {
    var trace := AltTraceAtoms(states, unrolls);
    AltUniverseDistinct(orig, u, states, unrolls);
    AltLength(states, unrolls);
    AltAt(states, unrolls, 0, 0);
    AltAt(states, unrolls, states - 1, unrolls - 1);
    assert trace[|trace| - 1] == StU(states - 1, unrolls - 1) by { LastUnrollIndex(states, unrolls); }
    assert u[|orig|..|orig| + |trace|] == trace;
    RangeRun(u, |orig|, trace);
    AllSingletons(states, unrolls);
  }

  lemma LastUnrollIndex(states: int, unrolls: int)
    requires states >= 1 && unrolls >= 1
    ensures (unrolls - 1) * states + (states - 1) + 1 == Count(states) * Count(unrolls)
  {
  }

  /** `range` over unroll j picks out exactly the states of unroll j, since
      the universe lists the states unroll by unroll. */
  lemma AltRangeUnroll(orig: seq<Atom>, u: seq<Atom>, states: int, unrolls: int, j: int)
    requires OriginalUniverse(orig) && u == orig + AltTraceAtoms(states, unrolls)
    requires states >= 1 && 0 <= j < unrolls
    ensures Range(u, StU(0, j), StU(states - 1, j)) == Ok(TupleSet(1, UnrollStates(states, j)))
  {
    AltUniverseDistinct(orig, u, states, unrolls);
    UnrollInUniverse(orig, u, states, unrolls, j);
    var xs := UnrollAtoms(states, j);
    RangeRun(u, |orig| + j * states, xs);
    UnrollSingletons(states, j);
  }

  // ---------------------------------------------------------------------
  // The relations (TemporalBoundsExpander.java, lines 105-159)

  /** FIRST is exactly the first state of the first unroll and LAST_ exactly
      the last state of the first unroll. LAST may only be the last state of
      the last unroll, or, unless the trace must loop, the last state of the
      first unroll; with a single unroll these coincide. */
  lemma AltFirstLast(orig: seq<Atom>, u: seq<Atom>, states: int, unrolls: int, forceLoop: bool)
    requires OriginalUniverse(orig) && u == orig + AltTraceAtoms(states, unrolls)
    requires states >= 1 && unrolls >= 1
    ensures AltEnds(u, states, unrolls, forceLoop).Ok?
    ensures var e := AltEnds(u, states, unrolls, forceLoop).value;
      && e.first == Exactly(TupleSet(1, {[StU(0, 0)]}))
      && e.lastUnr == Exactly(TupleSet(1, {[StU(states - 1, 0)]}))
      && e.last.lower == Empty(1)
      && e.last.upper.arity == 1
      && [StU(states - 1, unrolls - 1)] in e.last.upper.tuples
      && ([StU(states - 1, 0)] in e.last.upper.tuples <==> !forceLoop || unrolls == 1)
      && (forall t | t in e.last.upper.tuples :: t == [StU(states - 1, unrolls - 1)] || t == [StU(states - 1, 0)])
      && (unrolls == 1 ==> |e.last.upper.tuples| == 1)
  {
    AltStateInUniverse(orig, u, states, unrolls, 0, 0);
    AltStateInUniverse(orig, u, states, unrolls, states - 1, 0);
    AltStateInUniverse(orig, u, states, unrolls, states - 1, unrolls - 1);
    EndsFromMembers(u, states, unrolls, forceLoop);
    LastChoices(states, unrolls, forceLoop);
  }

  /** The atoms LAST may hold, as a set: the last state of the last unroll,
      and the last state of unroll 0 unless a loop is forced. */
  lemma LastChoices(states: int, unrolls: int, forceLoop: bool)
    requires unrolls >= 1
    ensures var last := {AltLast(states, unrolls - 1)} + (if forceLoop then {} else {AltLast(states, 0)});
      && [StU(states - 1, unrolls - 1)] in last
      && ([StU(states - 1, 0)] in last <==> !forceLoop || unrolls == 1)
      && (forall t | t in last :: t == [StU(states - 1, unrolls - 1)] || t == [StU(states - 1, 0)])
      && (unrolls == 1 ==> |last| == 1)
  {
    var last := {AltLast(states, unrolls - 1)} + (if forceLoop then {} else {AltLast(states, 0)});
    if unrolls == 1 {
      assert last == {[StU(states - 1, 0)]};
    } else {
      assert [StU(states - 1, 0)] != [StU(states - 1, unrolls - 1)];
    }
  }

  lemma EndsFromMembers(u: seq<Atom>, states: int, unrolls: int, forceLoop: bool)
    requires states >= 1 && unrolls >= 1
    requires StU(0, 0) in u && StU(states - 1, 0) in u && StU(states - 1, unrolls - 1) in u
    ensures AltEnds(u, states, unrolls, forceLoop).Ok?
    ensures AltEnds(u, states, unrolls, forceLoop) == Ok(Ends(
      Exactly(TupleSet(1, {[StU(0, 0)]})),
      UpTo(TupleSet(1, {AltLast(states, unrolls - 1)} + (if forceLoop then {} else {AltLast(states, 0)}))),
      Exactly(TupleSet(1, {[StU(states - 1, 0)]}))))
  {
  }

  lemma StatesFromRanges(u: seq<Atom>, states: int, unrolls: int, forceLoop: bool)
    requires Range(u, StU(0, 0), StU(states - 1, unrolls - 1)) == Ok(TupleSet(1, AllStates(states, unrolls)))
    requires unrolls >= 1
    requires forall j | 0 <= j < unrolls :: Range(u, StU(0, j), StU(states - 1, j)) == Ok(TupleSet(1, UnrollStates(states, j)))
    requires TuplesOf(u, 1, LoopLasts(states, unrolls, forceLoop)).Ok?
    requires UnrollStates(states, 0) + LoopLasts(states, unrolls, forceLoop) <= AllStates(states, unrolls)
    ensures AltStates(u, states, unrolls, forceLoop) == Ok(StateBounds(
      Bound(TupleSet(1, UnrollStates(states, 0) + LoopLasts(states, unrolls, forceLoop)),
            TupleSet(1, AllStates(states, unrolls)), None, None),
      UpTo(TupleSet(1, UnrollStates(states, unrolls - 1))),
      TupleSet(1, UnrollStates(states, 0) + LoopLasts(states, unrolls, forceLoop))))
  {
  }

  lemma LoopLastsIn(orig: seq<Atom>, u: seq<Atom>, states: int, unrolls: int, forceLoop: bool)
    requires u == orig + AltTraceAtoms(states, unrolls)
    requires states >= 1
    ensures TuplesOf(u, 1, LoopLasts(states, unrolls, forceLoop)).Ok?
  {
    forall x | x in LoopLasts(states, unrolls, forceLoop)
      ensures forall a | a in x :: a in u
    {
      var j :| 0 <= j < unrolls && x == AltLast(states, j);
      AltStateInUniverse(orig, u, states, unrolls, states - 1, j);
    }
  }

  /** The states of the first unroll, plus the last state of every unroll
      when the trace must loop. */
  lemma StateLowerMembers(states: int, unrolls: int, forceLoop: bool, x: seq<Atom>)
    requires states >= 1 && unrolls >= 1
    ensures x in UnrollStates(states, 0) + LoopLasts(states, unrolls, forceLoop) <==>
      |x| == 1 && IsAltState(x[0], states, unrolls) && (x[0].j == 0 || (forceLoop && x[0].i == states - 1))
  {
    if |x| == 1 && IsAltState(x[0], states, unrolls) && x[0].j == 0 {
      assert x == [StU(x[0].i, 0)];
    }
    if |x| == 1 && IsAltState(x[0], states, unrolls) && forceLoop && x[0].i == states - 1 {
      assert x == AltLast(states, x[0].j);
    }
  }

  lemma AllStatesMembers(states: int, unrolls: int, x: seq<Atom>)
    ensures x in AllStates(states, unrolls) <==> |x| == 1 && IsAltState(x[0], states, unrolls)
  {
    if |x| == 1 && IsAltState(x[0], states, unrolls) {
      assert x == [StU(x[0].i, x[0].j)];
    }
  }

  lemma UnrollStatesMembers(states: int, unrolls: int, j: int, x: seq<Atom>)
    requires 0 <= j < unrolls
    ensures x in UnrollStates(states, j) <==> |x| == 1 && IsAltState(x[0], states, unrolls) && x[0].j == j
  {
    if |x| == 1 && IsAltState(x[0], states, unrolls) && x[0].j == j {
      assert x == [StU(x[0].i, j)];
    }
  }

  /** STATE holds at least the first unroll, and with a forced loop the last
      state of every unroll; it holds at most every trace state. The lower
      bound is the state set that variable relations are multiplied with.
      LOOP may only be a state of the last unroll. */
  lemma AltStateLoop(orig: seq<Atom>, u: seq<Atom>, states: int, unrolls: int, forceLoop: bool)
    requires OriginalUniverse(orig) && u == orig + AltTraceAtoms(states, unrolls)
    requires states >= 1 && unrolls >= 1
    ensures AltStates(u, states, unrolls, forceLoop).Ok?
    ensures var t := AltStates(u, states, unrolls, forceLoop).value;
      var state := t.state;
      var loop := t.loop;
      && state.lower == t.stateFirst
      && state.lower.arity == state.upper.arity == 1
      && (forall x: seq<Atom> :: x in state.lower.tuples <==>
            |x| == 1 && IsAltState(x[0], states, unrolls) && (x[0].j == 0 || (forceLoop && x[0].i == states - 1)))
      && (forall x: seq<Atom> :: x in state.upper.tuples <==> |x| == 1 && IsAltState(x[0], states, unrolls))
      && Subset(state.lower, state.upper)
      && loop.lower == Empty(1) && loop.upper.arity == 1
      && (forall x: seq<Atom> :: x in loop.upper.tuples <==>
            |x| == 1 && IsAltState(x[0], states, unrolls) && x[0].j == unrolls - 1)
  {
    StateLoopBounds(orig, u, states, unrolls, forceLoop);
    StateSetMembers(states, unrolls, forceLoop);
    StateLowerInAll(states, unrolls, forceLoop);
  }

  /** Which unary tuples the state sets of STATE and LOOP hold. */
  lemma StateSetMembers(states: int, unrolls: int, forceLoop: bool)
    requires states >= 1 && unrolls >= 1
    ensures forall x: seq<Atom> :: x in UnrollStates(states, 0) + LoopLasts(states, unrolls, forceLoop) <==>
      |x| == 1 && IsAltState(x[0], states, unrolls) && (x[0].j == 0 || (forceLoop && x[0].i == states - 1))
    ensures forall x: seq<Atom> :: x in AllStates(states, unrolls) <==> |x| == 1 && IsAltState(x[0], states, unrolls)
    ensures forall x: seq<Atom> :: x in UnrollStates(states, unrolls - 1) <==>
      |x| == 1 && IsAltState(x[0], states, unrolls) && x[0].j == unrolls - 1
  {
    forall x: seq<Atom>
      ensures x in UnrollStates(states, 0) + LoopLasts(states, unrolls, forceLoop) <==>
        |x| == 1 && IsAltState(x[0], states, unrolls) && (x[0].j == 0 || (forceLoop && x[0].i == states - 1))
      ensures x in AllStates(states, unrolls) <==> |x| == 1 && IsAltState(x[0], states, unrolls)
      ensures x in UnrollStates(states, unrolls - 1) <==>
        |x| == 1 && IsAltState(x[0], states, unrolls) && x[0].j == unrolls - 1
    {
      StateLowerMembers(states, unrolls, forceLoop, x);
      AllStatesMembers(states, unrolls, x);
      UnrollStatesMembers(states, unrolls, unrolls - 1, x);
    }
  }

  lemma StateLoopBounds(orig: seq<Atom>, u: seq<Atom>, states: int, unrolls: int, forceLoop: bool)
    requires OriginalUniverse(orig) && u == orig + AltTraceAtoms(states, unrolls)
    requires states >= 1 && unrolls >= 1
    ensures AltStates(u, states, unrolls, forceLoop) == Ok(StateBounds(
      Bound(TupleSet(1, UnrollStates(states, 0) + LoopLasts(states, unrolls, forceLoop)),
            TupleSet(1, AllStates(states, unrolls)), None, None),
      UpTo(TupleSet(1, UnrollStates(states, unrolls - 1))),
      TupleSet(1, UnrollStates(states, 0) + LoopLasts(states, unrolls, forceLoop))))
  {
    StateRanges(orig, u, states, unrolls, forceLoop);
    StatesFromRanges(u, states, unrolls, forceLoop);
  }

  lemma StateRanges(orig: seq<Atom>, u: seq<Atom>, states: int, unrolls: int, forceLoop: bool)
    requires OriginalUniverse(orig) && u == orig + AltTraceAtoms(states, unrolls)
    requires states >= 1 && unrolls >= 1
    ensures Range(u, StU(0, 0), StU(states - 1, unrolls - 1)) == Ok(TupleSet(1, AllStates(states, unrolls)))
    ensures forall j | 0 <= j < unrolls :: Range(u, StU(0, j), StU(states - 1, j)) == Ok(TupleSet(1, UnrollStates(states, j)))
    ensures TuplesOf(u, 1, LoopLasts(states, unrolls, forceLoop)).Ok?
    ensures UnrollStates(states, 0) + LoopLasts(states, unrolls, forceLoop) <= AllStates(states, unrolls)
  {
    AltRangeAll(orig, u, states, unrolls);
    forall j | 0 <= j < unrolls
      ensures Range(u, StU(0, j), StU(states - 1, j)) == Ok(TupleSet(1, UnrollStates(states, j)))
    {
      AltRangeUnroll(orig, u, states, unrolls, j);
    }
    LoopLastsIn(orig, u, states, unrolls, forceLoop);
    StateLowerInAll(states, unrolls, forceLoop);
  }

  lemma StateLowerInAll(states: int, unrolls: int, forceLoop: bool)
    requires states >= 1 && unrolls >= 1
    ensures UnrollStates(states, 0) + LoopLasts(states, unrolls, forceLoop) <= AllStates(states, unrolls)
  {
    forall x | x in UnrollStates(states, 0) + LoopLasts(states, unrolls, forceLoop)
      ensures x in AllStates(states, unrolls)
    {
      StateLowerMembers(states, unrolls, forceLoop, x);
      AllStatesMembers(states, unrolls, x);
    }
  }

  function PrefixLower(states: int): set<seq<Atom>> {
    set i | 0 <= i < states - 1 :: AltStep(i, 0)
  }

  function PrefixUpper(states: int, unrolls: int): set<seq<Atom>> {
    (set i, j | 0 <= i < states - 1 && 0 <= j < unrolls :: AltStep(i, j))
    + (set j, k | 0 <= j < unrolls - 1 && 0 <= k < states :: AltWrap(states, j, k))
  }

  function Homes(states: int, unrolls: int): set<seq<Atom>> {
    set i, j | 0 <= i < states && 0 <= j < unrolls :: AltHome(i, j)
  }

  lemma PrefixFromMembers(u: seq<Atom>, states: int, unrolls: int)
    requires states >= 1 && unrolls >= 1
    requires forall i, j | 0 <= i < states && 0 <= j < unrolls :: StU(i, j) in u
    ensures AltPrefix(u, states, unrolls) == Ok(Bound(TupleSet(2, PrefixLower(states)), TupleSet(2, PrefixUpper(states, unrolls)), None, None))
  {
    forall x | x in PrefixUpper(states, unrolls)
      ensures forall a | a in x :: a in u
    {
      if i, j :| 0 <= i < states - 1 && 0 <= j < unrolls && x == AltStep(i, j) {
        assert StU(i, j) in u && StU(i + 1, j) in u;
      } else {
        var j, k :| 0 <= j < unrolls - 1 && 0 <= k < states && x == AltWrap(states, j, k);
        assert StU(states - 1, j) in u && StU(k, j + 1) in u;
      }
    }
    forall x | x in PrefixLower(states)
      ensures x in PrefixUpper(states, unrolls)
    {
      var i :| 0 <= i < states - 1 && x == AltStep(i, 0);
    }
    assert TuplesOf(u, 2, PrefixLower(states)).Ok?;
  }

  lemma UnrollMapFromMembers(u: seq<Atom>, states: int, unrolls: int)
    requires states >= 1 && unrolls >= 1
    requires forall i, j | 0 <= i < states && 0 <= j < unrolls :: StU(i, j) in u
    ensures AltUnrollMap(u, states, unrolls) == Ok(Bound(TupleSet(2, Homes(states, unrolls)), TupleSet(2, Homes(states, unrolls)), None, None))
  {
    forall x | x in Homes(states, unrolls)
      ensures forall a | a in x :: a in u
    {
      var i, j :| 0 <= i < states && 0 <= j < unrolls && x == AltHome(i, j);
      assert StU(i, j) in u && StU(i, 0) in u;
    }
  }

  /** A fixed step: state i to state i+1, both in the first unroll. */
  lemma PrefixLowerMembers(states: int, unrolls: int, x: seq<Atom>)
    requires unrolls >= 1
    ensures x in PrefixLower(states) <==>
      && |x| == 2 && IsAltState(x[0], states, unrolls) && IsAltState(x[1], states, unrolls)
      && x[0].j == 0 && x[1].j == 0 && x[1].i == x[0].i + 1
  {
    if |x| == 2 && IsAltState(x[0], states, unrolls) && IsAltState(x[1], states, unrolls)
       && x[0].j == 0 && x[1].j == 0 && x[1].i == x[0].i + 1 {
      assert x == AltStep(x[0].i, 0);
    }
  }

  /** A possible step: to the next state of the same unroll, or from the
      last state of an unroll to any state of the next unroll. */
  lemma PrefixUpperMembers(states: int, unrolls: int, x: seq<Atom>)
    requires states >= 1
    ensures x in PrefixUpper(states, unrolls) <==>
      && |x| == 2 && IsAltState(x[0], states, unrolls) && IsAltState(x[1], states, unrolls)
      && ((x[1].j == x[0].j && x[1].i == x[0].i + 1) || (x[0].i == states - 1 && x[1].j == x[0].j + 1))
  {
    if |x| == 2 && IsAltState(x[0], states, unrolls) && IsAltState(x[1], states, unrolls) {
      if x[1].j == x[0].j && x[1].i == x[0].i + 1 {
        assert x == AltStep(x[0].i, x[0].j);
      } else if x[0].i == states - 1 && x[1].j == x[0].j + 1 {
        assert x == AltWrap(states, x[0].j, x[1].i);
      }
    }
  }

  /** Every state is mapped to the same state of the first unroll. */
  lemma HomesMembers(states: int, unrolls: int, x: seq<Atom>)
    requires unrolls >= 1
    ensures x in Homes(states, unrolls) <==>
      |x| == 2 && IsAltState(x[0], states, unrolls) && x[1] == StU(x[0].i, 0)
  {
    if |x| == 2 && IsAltState(x[0], states, unrolls) && x[1] == StU(x[0].i, 0) {
      assert x == AltHome(x[0].i, x[0].j);
    }
  }

  /** PREFIX fixes the steps of the first unroll and allows every step
      within an unroll and every step from the last state of an unroll into
      the next one; lower lies within upper. UNROLL_MAP, bound when there is
      more than one unroll, maps every state exactly to its copy in the
      first unroll. */
  lemma AltPrefixUnrollMap(orig: seq<Atom>, u: seq<Atom>, states: int, unrolls: int)
    requires OriginalUniverse(orig) && u == orig + AltTraceAtoms(states, unrolls)
    requires states >= 1 && unrolls >= 1
    ensures AltPrefix(u, states, unrolls).Ok?
    ensures var p := AltPrefix(u, states, unrolls).value;
      && p.lower.arity == p.upper.arity == 2
      && (forall x: seq<Atom> :: x in p.lower.tuples <==>
            && |x| == 2 && IsAltState(x[0], states, unrolls) && IsAltState(x[1], states, unrolls)
            && x[0].j == 0 && x[1].j == 0 && x[1].i == x[0].i + 1)
      && (forall x: seq<Atom> :: x in p.upper.tuples <==>
            && |x| == 2 && IsAltState(x[0], states, unrolls) && IsAltState(x[1], states, unrolls)
            && ((x[1].j == x[0].j && x[1].i == x[0].i + 1) || (x[0].i == states - 1 && x[1].j == x[0].j + 1)))
      && Subset(p.lower, p.upper)
    ensures AltUnrollMap(u, states, unrolls).Ok?
    ensures var m := AltUnrollMap(u, states, unrolls).value;
      && m.lower == m.upper && m.upper.arity == 2
      && (forall x: seq<Atom> :: x in m.upper.tuples <==>
            |x| == 2 && IsAltState(x[0], states, unrolls) && x[1] == StU(x[0].i, 0))
  {
    forall i, j | 0 <= i < states && 0 <= j < unrolls
      ensures StU(i, j) in u
    {
      AltStateInUniverse(orig, u, states, unrolls, i, j);
    }
    PrefixFromMembers(u, states, unrolls);
    UnrollMapFromMembers(u, states, unrolls);
    forall x: seq<Atom>
      ensures x in PrefixLower(states) <==>
        && |x| == 2 && IsAltState(x[0], states, unrolls) && IsAltState(x[1], states, unrolls)
        && x[0].j == 0 && x[1].j == 0 && x[1].i == x[0].i + 1
      ensures x in PrefixUpper(states, unrolls) <==>
        && |x| == 2 && IsAltState(x[0], states, unrolls) && IsAltState(x[1], states, unrolls)
        && ((x[1].j == x[0].j && x[1].i == x[0].i + 1) || (x[0].i == states - 1 && x[1].j == x[0].j + 1))
      ensures x in Homes(states, unrolls) <==>
        |x| == 2 && IsAltState(x[0], states, unrolls) && x[1] == StU(x[0].i, 0)
    {
      PrefixLowerMembers(states, unrolls, x);
      PrefixUpperMembers(states, unrolls, x);
      HomesMembers(states, unrolls, x);
    }
  }

  /** Over its own universe the multi-unroll encoding always succeeds; it
      binds FIRST, LAST, LAST_, STATE, LOOP and PREFIX, and UNROLL_MAP when
      there is more than one unroll, each as the lemmas above describe. */
  lemma AltTraceParts(orig: seq<Atom>, u: seq<Atom>, states: int, unrolls: int, forceLoop: bool)
    requires OriginalUniverse(orig) && u == orig + AltTraceAtoms(states, unrolls)
    requires states >= 1 && unrolls >= 1
    ensures AltTrace(u, states, unrolls, forceLoop).Ok?
    ensures var t := AltTrace(u, states, unrolls, forceLoop).value;
      var ends := AltEnds(u, states, unrolls, forceLoop).value;
      var st := AltStates(u, states, unrolls, forceLoop).value;
      && t.relations.Keys == {Trace(First), Trace(Last), Trace(LastUnr), Trace(State), Trace(Loop), Trace(Prefix)}
                             + (if unrolls > 1 then {Trace(UnrollMap)} else {})
      && t.stateFirst == st.stateFirst
      && t.relations[Trace(First)] == ends.first
      && t.relations[Trace(Last)] == ends.last
      && t.relations[Trace(LastUnr)] == ends.lastUnr
      && t.relations[Trace(State)] == st.state
      && t.relations[Trace(Loop)] == st.loop
      && t.relations[Trace(Prefix)] == AltPrefix(u, states, unrolls).value
      && (unrolls > 1 ==> t.relations[Trace(UnrollMap)] == AltUnrollMap(u, states, unrolls).value)
  {
    assert AltEnds(u, states, unrolls, forceLoop).Ok? by {
      AltFirstLast(orig, u, states, unrolls, forceLoop);
    }
    assert AltStates(u, states, unrolls, forceLoop).Ok? by {
      AltStateLoop(orig, u, states, unrolls, forceLoop);
    }
    assert AltPrefix(u, states, unrolls).Ok? && AltUnrollMap(u, states, unrolls).Ok? by {
      AltPrefixUnrollMap(orig, u, states, unrolls);
    }
    AltTraceFromParts(u, states, unrolls, forceLoop);
    AltTraceAssembled(u, states, unrolls, forceLoop);
    AltMapLookups(AltEnds(u, states, unrolls, forceLoop).value, AltStates(u, states, unrolls, forceLoop).value,
                  AltPrefix(u, states, unrolls).value, AltUnrollMapIf(u, states, unrolls).value);
  }

  lemma AltTraceFromParts(u: seq<Atom>, states: int, unrolls: int, forceLoop: bool)
    requires AltEnds(u, states, unrolls, forceLoop).Ok? && AltStates(u, states, unrolls, forceLoop).Ok?
    requires AltPrefix(u, states, unrolls).Ok? && AltUnrollMap(u, states, unrolls).Ok?
    ensures AltTrace(u, states, unrolls, forceLoop).Ok?
  {
  }

  /** STATE's upper bound holds states * unrolls tuples, one per trace
      state. */
  lemma AltStateCount(orig: seq<Atom>, u: seq<Atom>, states: int, unrolls: int, forceLoop: bool)
    requires OriginalUniverse(orig) && u == orig + AltTraceAtoms(states, unrolls)
    requires states >= 1 && unrolls >= 1
    ensures AltStates(u, states, unrolls, forceLoop).Ok?
    ensures |AltStates(u, states, unrolls, forceLoop).value.state.upper.tuples| == states * unrolls
  {
    StateLoopBounds(orig, u, states, unrolls, forceLoop);
    AllStatesCount(states, unrolls);
  }

  /** The trace states are states * unrolls distinct unary tuples. */
  lemma AllStatesCount(states: int, unrolls: int)
    requires states >= 1 && unrolls >= 1
    ensures |AllStates(states, unrolls)| == states * unrolls
  {
    AllSingletons(states, unrolls);
    AltDistinct(states, unrolls);
    SingletonsCard(AltTraceAtoms(states, unrolls));
    AltLength(states, unrolls);
  }
}
