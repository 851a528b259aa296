/** Exact contents of the trace relations of the single-unroll encoding over
    the universe that `expandUniverse` builds for it. */
module SingleContents {
  import opened Outcomes
  import opened Atoms
  import opened TupleSets
  import opened BoundSets
  import opened TraceUniverse
  import opened TraceRelations

  /** The states lo..hi, both included, as unary tuples. */
  function StateRange(lo: int, hi: int): set<seq<Atom>> {
    set i | lo <= i <= hi :: [St(i)]
  }

  /** The levels 0..unrolls-1, as unary tuples. */
  function LevelRange(unrolls: int): set<seq<Atom>> {
    set j | 0 <= j < unrolls :: [Lvl(j)]
  }

  /** Each state to the next one, from state 0 up to the last state. */
  function StateSteps(states: int): set<seq<Atom>> {
    set i | 0 <= i < states :: StateStep(i)
  }

  /** Each level to the next one. */
  function LevelSteps(unrolls: int): set<seq<Atom>> {
    set i | 0 <= i < unrolls - 1 :: LevelStep(i)
  }

  // ---------------------------------------------------------------------
  // The single-unroll universe

  lemma SingleMembers(states: int, unrolls: int, a: Atom)
    ensures a in SingleTraceAtoms(states, unrolls) <==>
      (a.St? && 0 <= a.i <= states) || (a.Lvl? && 0 <= a.j < unrolls)
  {
    var ss, ls := StateAtoms(states), LevelAtoms(unrolls);
    assert SingleTraceAtoms(states, unrolls) == ss + ls;
    if a.St? && 0 <= a.i <= states {
      assert ss[a.i] == a;
    }
    if a.Lvl? && 0 <= a.j < unrolls {
      assert ls[a.j] == a;
    }
  }

  /** The expanded universe has no repeated atom; it holds the original
      atoms, the states 0..states and the levels 0..unrolls-1. */
  lemma SingleUniverseFacts(orig: seq<Atom>, u: seq<Atom>, states: int, unrolls: int)
    requires OriginalUniverse(orig) && u == orig + SingleTraceAtoms(states, unrolls)
    ensures Distinct(u)
    ensures forall a :: a in u <==> a in orig || (a.St? && 0 <= a.i <= states) || (a.Lvl? && 0 <= a.j < unrolls)
  {
    ExpandUniverseSucceeds(orig, SingleUnroll, states, unrolls, []);
    forall a
      ensures a in u <==> a in orig || (a.St? && 0 <= a.i <= states) || (a.Lvl? && 0 <= a.j < unrolls)
    {
      SingleMembers(states, unrolls, a);
    }
  }

  /** State i sits right after the original atoms, at offset i; level j
      right after the states. */
  lemma SinglePositions(orig: seq<Atom>, u: seq<Atom>, states: int, unrolls: int)
    requires u == orig + SingleTraceAtoms(states, unrolls) && states >= 0
    ensures |u| == |orig| + states + 1 + Count(unrolls)
    ensures forall k | |orig| <= k <= |orig| + states :: u[k] == St(k - |orig|)
    ensures forall k | |orig| + states + 1 <= k < |orig| + states + 1 + unrolls :: u[k] == Lvl(k - (|orig| + states + 1))
  {
    var ss, ls := StateAtoms(states), LevelAtoms(unrolls);
    forall k | |orig| <= k <= |orig| + states
      ensures u[k] == St(k - |orig|)
    {
      assert u[k] == ss[k - |orig|];
    }
    forall k | |orig| + states + 1 <= k < |orig| + states + 1 + unrolls
      ensures u[k] == Lvl(k - (|orig| + states + 1))
    {
      assert u[k] == ls[k - (|orig| + states + 1)];
    }
  }

  lemma StateSlice(xs: seq<Atom>, lo: int, hi: int)
    requires |xs| == hi - lo + 1
    requires forall p | 0 <= p < |xs| :: xs[p] == St(lo + p)
    ensures Singletons(xs) == StateRange(lo, hi)
  {
    forall t | t in StateRange(lo, hi)
      ensures t in Singletons(xs)
    {
      var i :| lo <= i <= hi && t == [St(i)];
      assert xs[i - lo] == St(i);
    }
  }

  lemma LevelSlice(xs: seq<Atom>)
    requires forall p | 0 <= p < |xs| :: xs[p] == Lvl(p)
    ensures Singletons(xs) == LevelRange(|xs|)
  {
    forall t | t in LevelRange(|xs|)
      ensures t in Singletons(xs)
    {
      var j :| 0 <= j < |xs| && t == [Lvl(j)];
      assert xs[j] == Lvl(j);
    }
  }

  /** `range` from state lo to state hi: exactly the states in between. */
  lemma StateRangeIn(orig: seq<Atom>, u: seq<Atom>, states: int, unrolls: int, lo: int, hi: int)
    requires OriginalUniverse(orig) && u == orig + SingleTraceAtoms(states, unrolls)
    requires 0 <= lo <= hi <= states
    ensures Range(u, St(lo), St(hi)) == Ok(TupleSet(1, StateRange(lo, hi)))
  {
    assert Distinct(u) by {
      SingleUniverseFacts(orig, u, states, unrolls);
    }
    SinglePositions(orig, u, states, unrolls);
    StatesAt(u, |orig|, lo, hi);
  }

  lemma StatesAt(u: seq<Atom>, n: int, lo: int, hi: int)
    requires Distinct(u) && 0 <= n && 0 <= lo <= hi && n + hi < |u|
    requires forall k | n + lo <= k <= n + hi :: u[k] == St(k - n)
    ensures Range(u, St(lo), St(hi)) == Ok(TupleSet(1, StateRange(lo, hi)))
  {
    assert u[n + lo] == St(lo) && u[n + hi] == St(hi);
    RangeSlice(u, n + lo, n + hi);
    var slice := u[n + lo..n + hi + 1];
    forall p | 0 <= p < |slice|
      ensures slice[p] == St(lo + p)
    {
      assert slice[p] == u[n + lo + p];
    }
    StateSlice(slice, lo, hi);
  }

  /** `range` over the levels: every level. */
  lemma LevelRangeIn(orig: seq<Atom>, u: seq<Atom>, states: int, unrolls: int)
    requires OriginalUniverse(orig) && u == orig + SingleTraceAtoms(states, unrolls)
    requires states >= 0 && unrolls >= 1
    ensures Range(u, Lvl(0), Lvl(unrolls - 1)) == Ok(TupleSet(1, LevelRange(unrolls)))
  {
    assert Distinct(u) by {
      SingleUniverseFacts(orig, u, states, unrolls);
    }
    SinglePositions(orig, u, states, unrolls);
    LevelsAt(u, |orig| + states + 1, unrolls);
  }

  lemma LevelsAt(u: seq<Atom>, at: int, unrolls: int)
    requires Distinct(u) && 0 <= at && 1 <= unrolls && at + unrolls <= |u|
    requires forall k | at <= k < at + unrolls :: u[k] == Lvl(k - at)
    ensures Range(u, Lvl(0), Lvl(unrolls - 1)) == Ok(TupleSet(1, LevelRange(unrolls)))
  {
    var slice := u[at..at + unrolls];
    forall p | 0 <= p < |slice|
      ensures slice[p] == Lvl(p)
    {
      assert slice[p] == u[at + p];
    }
    RangeRun(u, at, slice);
    LevelSlice(slice);
  }

  // ---------------------------------------------------------------------
  // Bounds of the single-unroll encoding

  lemma StatesFromMembers(u: seq<Atom>, states: int)
    requires states >= 0
    requires Range(u, St(0), St(states)) == Ok(TupleSet(1, StateRange(0, states)))
    requires forall i | 0 <= i <= states :: St(i) in u
    ensures SingleStates(u, states) == Ok(SingleStateBounds(
      Exactly(TupleSet(1, {[St(0)]})), Exactly(TupleSet(1, {[St(states)]})),
      Exactly(TupleSet(1, StateRange(0, states))), Exactly(TupleSet(2, StateSteps(states))),
      TupleSet(1, StateRange(0, states))))
  {
    forall x | x in StateSteps(states)
      ensures forall a | a in x :: a in u
    {
      var i :| 0 <= i < states && x == StateStep(i);
      assert St(i) in u && St(i + 1) in u;
    }
  }

  lemma LevelsFromMembers(u: seq<Atom>, unrolls: int)
    requires unrolls >= 1
    requires Range(u, Lvl(0), Lvl(unrolls - 1)) == Ok(TupleSet(1, LevelRange(unrolls)))
    requires forall j | 0 <= j < unrolls :: Lvl(j) in u
    ensures SingleLevels(u, unrolls) == Ok(LevelBounds(
      Exactly(TupleSet(1, {[Lvl(0)]})), Exactly(TupleSet(1, {[Lvl(unrolls - 1)]})),
      Exactly(TupleSet(1, LevelRange(unrolls))), Exactly(TupleSet(2, LevelSteps(unrolls)))))
  {
    forall x | x in LevelSteps(unrolls)
      ensures forall a | a in x :: a in u
    {
      var i :| 0 <= i < unrolls - 1 && x == LevelStep(i);
      assert Lvl(i) in u && Lvl(i + 1) in u;
    }
  }

  lemma StateRangeMembers(lo: int, hi: int, x: seq<Atom>)
    ensures x in StateRange(lo, hi) <==> |x| == 1 && x[0].St? && lo <= x[0].i <= hi
  {
    if |x| == 1 && x[0].St? && lo <= x[0].i <= hi {
      assert x == [St(x[0].i)];
    }
  }

  lemma LevelRangeMembers(unrolls: int, x: seq<Atom>)
    ensures x in LevelRange(unrolls) <==> |x| == 1 && x[0].Lvl? && 0 <= x[0].j < unrolls
  {
    if |x| == 1 && x[0].Lvl? && 0 <= x[0].j < unrolls {
      assert x == [Lvl(x[0].j)];
    }
  }

  lemma StateStepsMembers(states: int, x: seq<Atom>)
    ensures x in StateSteps(states) <==>
      |x| == 2 && x[0].St? && 0 <= x[0].i < states && x[1] == St(x[0].i + 1)
  {
    if |x| == 2 && x[0].St? && 0 <= x[0].i < states && x[1] == St(x[0].i + 1) {
      assert x == StateStep(x[0].i);
    }
  }

  lemma LevelStepsMembers(unrolls: int, x: seq<Atom>)
    ensures x in LevelSteps(unrolls) <==>
      |x| == 2 && x[0].Lvl? && 0 <= x[0].j < unrolls - 1 && x[1] == Lvl(x[0].j + 1)
  {
    if |x| == 2 && x[0].Lvl? && 0 <= x[0].j < unrolls - 1 && x[1] == Lvl(x[0].j + 1) {
      assert x == LevelStep(x[0].j);
    }
  }

  /** FIRST is exactly state 0 and LAST exactly the last state; STATE is
      exactly the states+1 states 0..states, and is also the state set that
      variable relations are multiplied with; PREFIX is exactly the chain
      from each state to the next. */
  lemma SingleStateContents(orig: seq<Atom>, u: seq<Atom>, states: int, unrolls: int)
    requires OriginalUniverse(orig) && u == orig + SingleTraceAtoms(states, unrolls)
    requires states >= 0
    ensures SingleStates(u, states).Ok?
    ensures var b := SingleStates(u, states).value;
      && b.first == Exactly(TupleSet(1, {[St(0)]}))
      && b.last == Exactly(TupleSet(1, {[St(states)]}))
      && b.state == Exactly(b.stateAll) && b.stateAll.arity == 1
      && (forall x: seq<Atom> :: x in b.stateAll.tuples <==> |x| == 1 && x[0].St? && 0 <= x[0].i <= states)
      && |b.stateAll.tuples| == states + 1
      && b.prefix.lower == b.prefix.upper && b.prefix.lower.arity == 2
      && (forall x: seq<Atom> :: x in b.prefix.lower.tuples <==>
            |x| == 2 && x[0].St? && 0 <= x[0].i < states && x[1] == St(x[0].i + 1))
  {
    assert Range(u, St(0), St(states)) == Ok(TupleSet(1, StateRange(0, states))) by {
      StateRangeIn(orig, u, states, unrolls, 0, states);
    }
    assert forall i | 0 <= i <= states :: St(i) in u by {
      SingleUniverseFacts(orig, u, states, unrolls);
    }
    StatesFromMembers(u, states);
    forall x: seq<Atom>
      ensures x in StateRange(0, states) <==> |x| == 1 && x[0].St? && 0 <= x[0].i <= states
      ensures x in StateSteps(states) <==> |x| == 2 && x[0].St? && 0 <= x[0].i < states && x[1] == St(x[0].i + 1)
    {
      StateRangeMembers(0, states, x);
      StateStepsMembers(states, x);
    }
    StateCount(states);
  }

  /** The states 0..states are states+1 distinct unary tuples. */
  lemma StateCount(states: int)
    requires states >= 0
    ensures |StateRange(0, states)| == states + 1
  {
    var xs := StateAtoms(states);
    assert Distinct(xs);
    forall t | t in StateRange(0, states)
      ensures t in Singletons(xs)
    {
      var i :| 0 <= i <= states && t == [St(i)];
      assert xs[i] == St(i);
    }
    assert Singletons(xs) == StateRange(0, states);
    SingletonsCard(xs);
  }

  /** L_FIRST is exactly level 0, L_LAST exactly the last level, LEVEL
      exactly every level and L_PREFIX exactly the chain of levels. */
  lemma SingleLevelContents(orig: seq<Atom>, u: seq<Atom>, states: int, unrolls: int)
    requires OriginalUniverse(orig) && u == orig + SingleTraceAtoms(states, unrolls)
    requires states >= 0 && unrolls >= 1
    ensures SingleLevels(u, unrolls).Ok?
    ensures var b := SingleLevels(u, unrolls).value;
      && b.lFirst == Exactly(TupleSet(1, {[Lvl(0)]}))
      && b.lLast == Exactly(TupleSet(1, {[Lvl(unrolls - 1)]}))
      && b.level.lower == b.level.upper && b.level.lower.arity == 1
      && (forall x: seq<Atom> :: x in b.level.lower.tuples <==> |x| == 1 && x[0].Lvl? && 0 <= x[0].j < unrolls)
      && b.lPrefix.lower == b.lPrefix.upper && b.lPrefix.lower.arity == 2
      && (forall x: seq<Atom> :: x in b.lPrefix.lower.tuples <==>
            |x| == 2 && x[0].Lvl? && 0 <= x[0].j < unrolls - 1 && x[1] == Lvl(x[0].j + 1))
  {
    assert Range(u, Lvl(0), Lvl(unrolls - 1)) == Ok(TupleSet(1, LevelRange(unrolls))) by {
      LevelRangeIn(orig, u, states, unrolls);
    }
    assert forall j | 0 <= j < unrolls :: Lvl(j) in u by {
      SingleUniverseFacts(orig, u, states, unrolls);
    }
    LevelsFromMembers(u, unrolls);
    forall x: seq<Atom>
      ensures x in LevelRange(unrolls) <==> |x| == 1 && x[0].Lvl? && 0 <= x[0].j < unrolls
      ensures x in LevelSteps(unrolls) <==> |x| == 2 && x[0].Lvl? && 0 <= x[0].j < unrolls - 1 && x[1] == Lvl(x[0].j + 1)
    {
      LevelRangeMembers(unrolls, x);
      LevelStepsMembers(unrolls, x);
    }
  }

  /** LOOP may be any state but state 0, and nothing is forced into it. */
  lemma SingleLoopContents(orig: seq<Atom>, u: seq<Atom>, states: int, unrolls: int)
    requires OriginalUniverse(orig) && u == orig + SingleTraceAtoms(states, unrolls)
    requires states >= 1
    ensures SingleLoop(u, states).Ok?
    ensures var b := SingleLoop(u, states).value;
      && b.lower == Empty(1) && b.upper.arity == 1
      && (forall x: seq<Atom> :: x in b.upper.tuples <==> |x| == 1 && x[0].St? && 1 <= x[0].i <= states)
  {
    StateRangeIn(orig, u, states, unrolls, 1, states);
    forall x: seq<Atom>
      ensures x in StateRange(1, states) <==> |x| == 1 && x[0].St? && 1 <= x[0].i <= states
    {
      StateRangeMembers(1, states, x);
    }
  }

  // ---------------------------------------------------------------------
  // The whole single-unroll encoding

  /** Over its own universe the single-unroll encoding succeeds once there
      is a state to loop to and a level; it binds FIRST, LAST, STATE, PREFIX,
      L_FIRST, L_LAST, LEVEL, L_PREFIX and LOOP, each as the lemmas above
      describe. */
  lemma SingleTraceParts(orig: seq<Atom>, u: seq<Atom>, states: int, unrolls: int)
    requires OriginalUniverse(orig) && u == orig + SingleTraceAtoms(states, unrolls)
    requires states >= 1 && unrolls >= 1
    ensures SingleTrace(u, states, unrolls).Ok?
    ensures var t := SingleTrace(u, states, unrolls).value;
      var st := SingleStates(u, states).value;
      var lv := SingleLevels(u, unrolls).value;
      && t.relations.Keys == {Trace(First), Trace(Last), Trace(State), Trace(Prefix),
                              Trace(LFirst), Trace(LLast), Trace(Level), Trace(LPrefix), Trace(Loop)}
      && t.stateFirst == st.stateAll
      && t.relations[Trace(First)] == st.first
      && t.relations[Trace(Last)] == st.last
      && t.relations[Trace(State)] == st.state
      && t.relations[Trace(Prefix)] == st.prefix
      && t.relations[Trace(LFirst)] == lv.lFirst
      && t.relations[Trace(LLast)] == lv.lLast
      && t.relations[Trace(Level)] == lv.level
      && t.relations[Trace(LPrefix)] == lv.lPrefix
      && t.relations[Trace(Loop)] == SingleLoop(u, states).value
  {
    assert SingleStates(u, states).Ok? by {
      SingleStateContents(orig, u, states, unrolls);
    }
    assert SingleLevels(u, unrolls).Ok? by {
      SingleLevelContents(orig, u, states, unrolls);
    }
    assert SingleLoop(u, states).Ok? by {
      SingleLoopContents(orig, u, states, unrolls);
    }
    SingleTraceFromParts(u, states, unrolls);
    SingleTraceAssembled(u, states, unrolls);
    SingleMapLookups(SingleStates(u, states).value, SingleLevels(u, unrolls).value, SingleLoop(u, states).value);
  }

  lemma SingleTraceFromParts(u: seq<Atom>, states: int, unrolls: int)
    requires SingleStates(u, states).Ok? && SingleLevels(u, unrolls).Ok? && SingleLoop(u, states).Ok?
    ensures SingleTrace(u, states, unrolls).Ok?
  {
  }
}
