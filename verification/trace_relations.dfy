/** The relations that shape the trace, bound over the expanded universe in
    one of the two encodings, together with the state set that variable
    relations are multiplied with (`tupleSetTime_unr_first` in the source). */
module TraceRelations {
  import opened Outcomes
  import opened Atoms
  import opened TupleSets
  import opened BoundSets
  import opened TraceUniverse

  datatype TraceBounds = TraceBounds(relations: map<StaticRelation, Bound>, stateFirst: TupleSet)

  /** Every bound of `m` is well formed over `u`. */
  predicate BoundsOver(m: map<StaticRelation, Bound>, u: seq<Atom>) {
    forall r | r in m :: BoundWellFormed(m[r], u)
  }

  /** Only trace relations are bound, each with a bound well formed over `u`. */
  predicate TraceMap(m: map<StaticRelation, Bound>, u: seq<Atom>) {
    forall r | r in m :: r.Trace? && BoundWellFormed(m[r], u)
  }

  /** The trace bounds are well formed over `u`, and the state set is a set
      of unary tuples over `u`. */
  predicate TraceWellFormed(t: TraceBounds, u: seq<Atom>) {
    && TraceMap(t.relations, u)
    && t.stateFirst.arity == 1 && Shaped(t.stateFirst) && Over(t.stateFirst, u)
  }

  /** STATE is bounded, and its lower bound is the state set. */
  predicate StateIsFirst(t: TraceBounds) {
    Trace(State) in t.relations && t.relations[Trace(State)].lower == t.stateFirst
  }

  /** Binding a trace relation to a well-formed bound keeps the map a map
      of well-formed trace bounds. */
  lemma PutTrace(m: map<StaticRelation, Bound>, k: StaticRelation, b: Bound, u: seq<Atom>)
    requires TraceMap(m, u) && k.Trace? && BoundWellFormed(b, u)
    ensures TraceMap(m[k := b], u)
  {
  }

  // ---------------------------------------------------------------------
  // Tuples of the multi-unroll encoding

  /** The last state, in unroll j. */
  function AltLast(states: int, j: int): seq<Atom> {
    [StU(states - 1, j)]
  }

  /** With a forced loop, the last state of every unroll; otherwise none. */
  function LoopLasts(states: int, unrolls: int, forceLoop: bool): set<seq<Atom>> {
    if forceLoop then set j | 0 <= j < unrolls :: AltLast(states, j) else {}
  }

  /** Step of unroll j from state i to state i+1. */
  function AltStep(i: int, j: int): seq<Atom> {
    [StU(i, j), StU(i + 1, j)]
  }

  /** Step from the last state of unroll j to state k of unroll j+1. */
  function AltWrap(states: int, j: int, k: int): seq<Atom> {
    [StU(states - 1, j), StU(k, j + 1)]
  }

  /** State i of unroll j paired with its representative in unroll 0. */
  function AltHome(i: int, j: int): seq<Atom> {
    [StU(i, j), StU(i, 0)]
  }

  // ---------------------------------------------------------------------
  // The multi-unroll encoding (TemporalBoundsExpander.java, lines 105-159)

  /** FIRST, LAST and LAST_ (LAST_ is the last state of the first unroll). */
  datatype Ends = Ends(first: Bound, last: Bound, lastUnr: Bound)

  /** STATE and LOOP, and the state set variable relations are multiplied with. */
  datatype StateBounds = StateBounds(state: Bound, loop: Bound, stateFirst: TupleSet)

  function AltEnds(u: seq<Atom>, states: int, unrolls: int, forceLoop: bool): (r: Result<Ends>)
    ensures r.Ok? ==> && BoundWellFormed(r.value.first, u) && BoundWellFormed(r.value.last, u)
                      && BoundWellFormed(r.value.lastUnr, u)
  {
    var first :- TuplesOf(u, 1, {[StU(0, 0)]});
    // unless the trace must loop, it may also end in the first unroll
    var last :- TuplesOf(u, 1, {AltLast(states, unrolls - 1)} + (if forceLoop then {} else {AltLast(states, 0)}));
    var lastUnr :- TuplesOf(u, 1, {AltLast(states, 0)});
    Ok(Ends(Exactly(first), UpTo(last), Exactly(lastUnr)))
  }

  function AltStates(u: seq<Atom>, states: int, unrolls: int, forceLoop: bool): (r: Result<StateBounds>)
    ensures r.Ok? ==> && BoundWellFormed(r.value.state, u) && BoundWellFormed(r.value.loop, u)
                      && r.value.state.lower == r.value.stateFirst
                      && r.value.stateFirst.arity == 1 && Shaped(r.value.stateFirst) && Over(r.value.stateFirst, u)
  {
    var all :- Range(u, StU(0, 0), StU(states - 1, unrolls - 1));
    var firstUnroll :- Range(u, StU(0, 0), StU(states - 1, 0));
    // a trace that must loop holds the last state in every unroll
    var loopLasts :- TuplesOf(u, 1, LoopLasts(states, unrolls, forceLoop));
    var stateFirst := Union(firstUnroll, loopLasts);
    var state :- Bind(stateFirst, all);
    var loop :- Range(u, StU(0, unrolls - 1), StU(states - 1, unrolls - 1));
    Ok(StateBounds(state, UpTo(loop), stateFirst))
  }

  /** PREFIX: fixed steps within the first unroll, possible steps within
      every unroll and from the end of one unroll into the next. */
  function AltPrefix(u: seq<Atom>, states: int, unrolls: int): (r: Result<Bound>)
    ensures r.Ok? ==> BoundWellFormed(r.value, u)
  {
    var lower :- TuplesOf(u, 2, set i | 0 <= i < states - 1 :: AltStep(i, 0));
    var upper :- TuplesOf(u, 2,
      (set i, j | 0 <= i < states - 1 && 0 <= j < unrolls :: AltStep(i, j))
      + (set j, k | 0 <= j < unrolls - 1 && 0 <= k < states :: AltWrap(states, j, k)));
    Bind(lower, upper)
  }

  /** UNROLL_MAP: every state to its representative in the first unroll. */
  function AltUnrollMap(u: seq<Atom>, states: int, unrolls: int): (r: Result<Bound>)
    ensures r.Ok? ==> BoundWellFormed(r.value, u)
  {
    var homes :- TuplesOf(u, 2, set i, j | 0 <= i < states && 0 <= j < unrolls :: AltHome(i, j));
    Bind(homes, homes)
  }

  /** UNROLL_MAP, bound only when there is more than one unroll. */
  function AltUnrollMapIf(u: seq<Atom>, states: int, unrolls: int): (r: Result<Option<Bound>>)
    ensures r.Ok? ==> (r.value.Some? <==> unrolls > 1)
    ensures r.Ok? && r.value.Some? ==> BoundWellFormed(r.value.value, u)
  {
    if unrolls > 1 then
      var m :- AltUnrollMap(u, states, unrolls);
      Ok(Some(m))
    else
      Ok(None)
  }

  /** The trace relations of the multi-unroll encoding, keyed by relation. */
  function AltMap(ends: Ends, st: StateBounds, prefix: Bound, unrollMap: Option<Bound>): map<StaticRelation, Bound> {
    var fixed := map[Trace(First) := ends.first][Trace(Last) := ends.last][Trace(LastUnr) := ends.lastUnr]
                    [Trace(State) := st.state][Trace(Loop) := st.loop][Trace(Prefix) := prefix];
    if unrollMap.Some? then fixed[Trace(UnrollMap) := unrollMap.value] else fixed
  }

  lemma AltMapOver(ends: Ends, st: StateBounds, prefix: Bound, unrollMap: Option<Bound>, u: seq<Atom>)
    requires BoundWellFormed(ends.first, u) && BoundWellFormed(ends.last, u) && BoundWellFormed(ends.lastUnr, u)
    requires BoundWellFormed(st.state, u) && BoundWellFormed(st.loop, u) && BoundWellFormed(prefix, u)
    requires unrollMap.Some? ==> BoundWellFormed(unrollMap.value, u)
    ensures TraceMap(AltMap(ends, st, prefix, unrollMap), u)
    ensures Trace(State) in AltMap(ends, st, prefix, unrollMap)
    ensures AltMap(ends, st, prefix, unrollMap)[Trace(State)] == st.state
  {
    var m0 := map[Trace(First) := ends.first];
    PutTrace(m0, Trace(Last), ends.last, u);
    var m1 := m0[Trace(Last) := ends.last];
    PutTrace(m1, Trace(LastUnr), ends.lastUnr, u);
    var m2 := m1[Trace(LastUnr) := ends.lastUnr];
    PutTrace(m2, Trace(State), st.state, u);
    var m3 := m2[Trace(State) := st.state];
    PutTrace(m3, Trace(Loop), st.loop, u);
    var m4 := m3[Trace(Loop) := st.loop];
    PutTrace(m4, Trace(Prefix), prefix, u);
    var fixed := m4[Trace(Prefix) := prefix];
    if unrollMap.Some? {
      PutTrace(fixed, Trace(UnrollMap), unrollMap.value, u);
    }
  }

  /** Each trace relation of the multi-unroll encoding is bound to its part. */
  lemma AltMapLookups(ends: Ends, st: StateBounds, prefix: Bound, unrollMap: Option<Bound>)
    ensures var m := AltMap(ends, st, prefix, unrollMap);
      && m.Keys == {Trace(First), Trace(Last), Trace(LastUnr), Trace(State), Trace(Loop), Trace(Prefix)}
                   + (if unrollMap.Some? then {Trace(UnrollMap)} else {})
      && m[Trace(First)] == ends.first && m[Trace(Last)] == ends.last && m[Trace(LastUnr)] == ends.lastUnr
      && m[Trace(State)] == st.state && m[Trace(Loop)] == st.loop && m[Trace(Prefix)] == prefix
      && (unrollMap.Some? ==> m[Trace(UnrollMap)] == unrollMap.value)
  {
  }

  function AltTrace(u: seq<Atom>, states: int, unrolls: int, forceLoop: bool): (r: Result<TraceBounds>)
    ensures r.Ok? ==> TraceWellFormed(r.value, u) && StateIsFirst(r.value)
  {
    var ends :- AltEnds(u, states, unrolls, forceLoop);
    var st :- AltStates(u, states, unrolls, forceLoop);
    var prefix :- AltPrefix(u, states, unrolls);
    var unrollMap :- AltUnrollMapIf(u, states, unrolls);
    AltMapOver(ends, st, prefix, unrollMap, u);
    Ok(TraceBounds(AltMap(ends, st, prefix, unrollMap), st.stateFirst))
  }

  /** The multi-unroll encoding bounds FIRST, LAST, LAST_, STATE, LOOP and
      PREFIX, and UNROLL_MAP when there is more than one unroll; each to the
      bound its part computes. */
  lemma AltTraceAssembled(u: seq<Atom>, states: int, unrolls: int, forceLoop: bool)
    requires AltTrace(u, states, unrolls, forceLoop).Ok?
    ensures AltEnds(u, states, unrolls, forceLoop).Ok? && AltStates(u, states, unrolls, forceLoop).Ok?
    ensures AltPrefix(u, states, unrolls).Ok? && AltUnrollMapIf(u, states, unrolls).Ok?
    ensures AltTrace(u, states, unrolls, forceLoop).value == TraceBounds(
      AltMap(AltEnds(u, states, unrolls, forceLoop).value, AltStates(u, states, unrolls, forceLoop).value,
             AltPrefix(u, states, unrolls).value, AltUnrollMapIf(u, states, unrolls).value),
      AltStates(u, states, unrolls, forceLoop).value.stateFirst)
  {
  }

  // ---------------------------------------------------------------------
  // The single-unroll encoding (TemporalBoundsExpander.java, lines 161-196)

  function StateStep(i: int): seq<Atom> {
    [St(i), St(i + 1)]
  }

  function LevelStep(i: int): seq<Atom> {
    [Lvl(i), Lvl(i + 1)]
  }

  /** FIRST, LAST, STATE and PREFIX; the state set is STATE itself. */
  datatype SingleStateBounds = SingleStateBounds(first: Bound, last: Bound, state: Bound, prefix: Bound, stateAll: TupleSet)

  /** L_FIRST, L_LAST, LEVEL and L_PREFIX. */
  datatype LevelBounds = LevelBounds(lFirst: Bound, lLast: Bound, level: Bound, lPrefix: Bound)

  function SingleStates(u: seq<Atom>, states: int): (r: Result<SingleStateBounds>)
    ensures r.Ok? ==> && BoundWellFormed(r.value.first, u) && BoundWellFormed(r.value.last, u)
                      && BoundWellFormed(r.value.state, u) && BoundWellFormed(r.value.prefix, u)
                      && r.value.state.lower == r.value.stateAll
                      && r.value.stateAll.arity == 1 && Shaped(r.value.stateAll) && Over(r.value.stateAll, u)
  {
    var first :- TuplesOf(u, 1, {[St(0)]});
    var last :- TuplesOf(u, 1, {[St(states)]});
    var stateAll :- Range(u, St(0), St(states));
    var prefix :- TuplesOf(u, 2, set i | 0 <= i < states :: StateStep(i));
    Ok(SingleStateBounds(Exactly(first), Exactly(last), Exactly(stateAll), Exactly(prefix), stateAll))
  }

  function SingleLevels(u: seq<Atom>, unrolls: int): (r: Result<LevelBounds>)
    ensures r.Ok? ==> && BoundWellFormed(r.value.lFirst, u) && BoundWellFormed(r.value.lLast, u)
                      && BoundWellFormed(r.value.level, u) && BoundWellFormed(r.value.lPrefix, u)
  {
    var lFirst :- TuplesOf(u, 1, {[Lvl(0)]});
    var lLast :- TuplesOf(u, 1, {[Lvl(unrolls - 1)]});
    var levels :- Range(u, Lvl(0), Lvl(unrolls - 1));
    var lPrefix :- TuplesOf(u, 2, set i | 0 <= i < unrolls - 1 :: LevelStep(i));
    Ok(LevelBounds(Exactly(lFirst), Exactly(lLast), Exactly(levels), Exactly(lPrefix)))
  }

  /** LOOP: any state but the first may be the loop target. */
  function SingleLoop(u: seq<Atom>, states: int): (r: Result<Bound>)
    ensures r.Ok? ==> BoundWellFormed(r.value, u)
  {
    var loop :- Range(u, St(1), St(states));
    Ok(UpTo(loop))
  }

  /** The trace relations of the single-unroll encoding, keyed by relation. */
  function SingleMap(st: SingleStateBounds, lv: LevelBounds, loop: Bound): map<StaticRelation, Bound> {
    map[Trace(First) := st.first][Trace(Last) := st.last][Trace(State) := st.state][Trace(Prefix) := st.prefix]
       [Trace(LFirst) := lv.lFirst][Trace(LLast) := lv.lLast][Trace(Level) := lv.level][Trace(LPrefix) := lv.lPrefix]
       [Trace(Loop) := loop]
  }

  lemma SingleMapOver(st: SingleStateBounds, lv: LevelBounds, loop: Bound, u: seq<Atom>)
    requires BoundWellFormed(st.first, u) && BoundWellFormed(st.last, u)
    requires BoundWellFormed(st.state, u) && BoundWellFormed(st.prefix, u)
    requires BoundWellFormed(lv.lFirst, u) && BoundWellFormed(lv.lLast, u)
    requires BoundWellFormed(lv.level, u) && BoundWellFormed(lv.lPrefix, u)
    requires BoundWellFormed(loop, u)
    ensures TraceMap(SingleMap(st, lv, loop), u)
    ensures Trace(State) in SingleMap(st, lv, loop) && SingleMap(st, lv, loop)[Trace(State)] == st.state
  {
    var m0 := map[Trace(First) := st.first];
    PutTrace(m0, Trace(Last), st.last, u);
    var m1 := m0[Trace(Last) := st.last];
    PutTrace(m1, Trace(State), st.state, u);
    var m2 := m1[Trace(State) := st.state];
    PutTrace(m2, Trace(Prefix), st.prefix, u);
    var m3 := m2[Trace(Prefix) := st.prefix];
    PutTrace(m3, Trace(LFirst), lv.lFirst, u);
    var m4 := m3[Trace(LFirst) := lv.lFirst];
    PutTrace(m4, Trace(LLast), lv.lLast, u);
    var m5 := m4[Trace(LLast) := lv.lLast];
    PutTrace(m5, Trace(Level), lv.level, u);
    var m6 := m5[Trace(Level) := lv.level];
    PutTrace(m6, Trace(LPrefix), lv.lPrefix, u);
    var m7 := m6[Trace(LPrefix) := lv.lPrefix];
    PutTrace(m7, Trace(Loop), loop, u);
  }

  /** Each trace relation of the single-unroll encoding is bound to its part. */
  lemma SingleMapLookups(st: SingleStateBounds, lv: LevelBounds, loop: Bound)
    ensures var m := SingleMap(st, lv, loop);
      && m.Keys == {Trace(First), Trace(Last), Trace(State), Trace(Prefix),
                    Trace(LFirst), Trace(LLast), Trace(Level), Trace(LPrefix), Trace(Loop)}
      && m[Trace(First)] == st.first && m[Trace(Last)] == st.last
      && m[Trace(State)] == st.state && m[Trace(Prefix)] == st.prefix
      && m[Trace(LFirst)] == lv.lFirst && m[Trace(LLast)] == lv.lLast
      && m[Trace(Level)] == lv.level && m[Trace(LPrefix)] == lv.lPrefix
      && m[Trace(Loop)] == loop
  {
  }

  function SingleTrace(u: seq<Atom>, states: int, unrolls: int): (r: Result<TraceBounds>)
    ensures r.Ok? ==> TraceWellFormed(r.value, u) && StateIsFirst(r.value)
  {
    var st :- SingleStates(u, states);
    var lv :- SingleLevels(u, unrolls);
    var loop :- SingleLoop(u, states);
    SingleMapOver(st, lv, loop, u);
    Ok(TraceBounds(SingleMap(st, lv, loop), st.stateAll))
  }

  /** The single-unroll encoding binds each trace relation to the bound its
      part computes. */
  lemma SingleTraceAssembled(u: seq<Atom>, states: int, unrolls: int)
    requires SingleTrace(u, states, unrolls).Ok?
    ensures SingleStates(u, states).Ok? && SingleLevels(u, unrolls).Ok? && SingleLoop(u, states).Ok?
    ensures SingleTrace(u, states, unrolls).value == TraceBounds(
      SingleMap(SingleStates(u, states).value, SingleLevels(u, unrolls).value, SingleLoop(u, states).value),
      SingleStates(u, states).value.stateAll)
  {
  }

  function TraceFor(mode: Encoding, u: seq<Atom>, states: int, unrolls: int, forceLoop: bool): (r: Result<TraceBounds>)
    ensures r.Ok? ==> TraceWellFormed(r.value, u) && StateIsFirst(r.value)
  {
    match mode
    case MultiUnroll => AltTrace(u, states, unrolls, forceLoop)
    case SingleUnroll => SingleTrace(u, states, unrolls)
  }
}
