# Temporal bounds expansion, modelled in Dafny

Pardinus extends Kodkod with temporal problems. The bounds of such a problem
may mention *variable* relations, whose value changes from state to state.
Before a temporal problem goes to a SAT solver, `TemporalBoundsExpander`
rewrites its bounds as ordinary static bounds. The expansion does three
things:

- **Expand the universe.** Trace atoms are appended to the universe, and the
  caller's time-atom list gains the same atoms (`expandUniverse`). There are
  two encodings:
  - *multi-unroll* (the `alt` encoding): one atom for each pair of a state
    `i < states` and an unroll `j < unrolls`, listed unroll by unroll;
  - *single-unroll*: the states `0..states`, followed by the levels
    `0..unrolls-1`.
- **Bind the trace relations.** In the multi-unroll encoding these are
  FIRST, LAST, LAST_, STATE, LOOP, PREFIX and UNROLL_MAP. In the
  single-unroll encoding they are FIRST, LAST, STATE, PREFIX, L_FIRST,
  L_LAST, LEVEL, L_PREFIX and LOOP.
- **Lift every input relation.** A plain relation keeps its bounds, which
  are converted onto the new universe. A variable relation is replaced by
  its `expanded` relation. That relation's lower, upper and target sets are
  the originals multiplied by the lower bound of STATE. The weight is copied
  in both cases. Companion (amalgamated) bounds are expanded in the same
  way, and three configuration fields are copied unchanged.

The model is written over immutable values:

- **Atoms** (`atoms.dfy`). A datatype keeps original atoms apart from the
  three kinds of trace atom.
- **Tuple sets** (`tuple_sets.dfy`). A tuple set is an arity plus a set of
  atom sequences, with `range`, `product` and `convert` defined on it. A
  failure of the tuple factory becomes an error value. Three factory calls
  can fail: naming an atom the universe lacks, a reversed `range`, and an
  empty universe or one with duplicate atoms.
- **Bounds** (`bounds.dfy`). The bounds of a relation pair a lower and an
  upper tuple set with an optional target and weight. Input relations
  (`Relation`) and output relations (`StaticRelation`) have separate types.
- **Universe** (`trace_universe.dfy`). The universe expansion for both
  encodings.
- **Trace relations** (`trace_relations.dfy`). The trace relations for each
  encoding. The global `alt` switch is an explicit `Encoding` parameter.
- **Expansion** (`expander.dfy`). Lifting the input relations, the private
  `expand` (`ExpandOver`) and the public `expand` (`Expand`).
- **Contents** (`alt_contents.dfy`, `single_contents.dfy`). What each trace
  relation is bound to in each encoding.
- **Properties** (`expander_props.dfy`). What the expansion as a whole
  guarantees.

## Behaviour worth noting

Line numbers refer to `src/main/java/kodkod/engine/ltl2fol/TemporalBoundsExpander.java`.

- **Single-unroll states.** The single-unroll universe gets `states + 1`
  state atoms, `0..states` (lines 264-268). STATE is bound exactly to the
  range over all of them (lines 166-168). Lifting multiplies variable
  relations by that same set (lines 202-206).
- **LAST lower bound.** In the multi-unroll encoding LAST is bound with
  the one-argument `bound` (lines 109-114), so its lower bound is empty. It
  may hold the last state of the last unroll. Unless a loop is forced, it
  may also hold the last state of the first unroll.
- **Forced loop.** With a forced loop, STATE's lower bound in the
  multi-unroll encoding also holds the last state of every unroll (lines
  121-125). That lower bound is the state set variable relations are
  multiplied by.
- **Trace sizes.** `states` and `unrolls` are used without a check. When
  either is too small, some bound names an atom the universe lacks, and
  the tuple factory fails. The model reports this as `NoSuchAtom`. In the
  single-unroll encoding with `states == 0` and at least one unroll, the
  failure comes only at LOOP, whose range starts at state 1 (lines 191-193).

## Model

| member | source | states |
|---|---|---|
| TupleSets.Convert | src/main/java/kodkod/engine/ltl2fol/TemporalBoundsExpander.java:287-298 | converting a tuple set onto a universe succeeds exactly when every atom of every tuple is in that universe; it then yields the same arity and tuples, and otherwise fails with a missing atom |
| TupleSets.ConvertRoundTrip | src/main/java/kodkod/engine/ltl2fol/TemporalBoundsExpander.java:287-298 | converting onto a larger universe and back returns the original tuple set |
| TupleSets.Range | src/main/java/kodkod/engine/ltl2fol/TemporalBoundsExpander.java:119-122 | `range(from, to)` fails when either atom is missing or `from` comes after `to`; otherwise it is a unary set over the universe, and in a proper universe a unary tuple is in it exactly when its atom lies between the two positions |
| TupleSets.ProjectProduct | src/main/java/kodkod/engine/ltl2fol/TemporalBoundsExpander.java:202-206 | multiplying a tuple set by a non-empty set and projecting back onto its own columns gives the original set |
| TraceUniverse.MakeUniverse | src/main/java/kodkod/engine/ltl2fol/TemporalBoundsExpander.java:276 | a universe can be built exactly from a non-empty list of distinct atoms, and keeps their order |
| TraceUniverse.ExpandUniverseSucceeds | src/main/java/kodkod/engine/ltl2fol/TemporalBoundsExpander.java:249-277 | appending the trace atoms of either encoding to a proper universe without trace atoms yields a proper universe |
| TraceUniverse.AltUniverseLayout | src/main/java/kodkod/engine/ltl2fol/TemporalBoundsExpander.java:250-261 | multi-unroll: the original atoms come first, in order, then `states * unrolls` atoms with state `i` of unroll `j` at offset `j * states + i`; the time atoms gain exactly the appended atoms |
| TraceUniverse.SingleUniverseLayout | src/main/java/kodkod/engine/ltl2fol/TemporalBoundsExpander.java:263-274 | single-unroll: the original atoms, then states `0..states`, then levels `0..unrolls-1`; the time atoms gain exactly the appended atoms |
| TraceUniverse.AltMembers | src/main/java/kodkod/engine/ltl2fol/TemporalBoundsExpander.java:256-261 | an atom is a multi-unroll trace atom exactly when it is state `i` of unroll `j` with `i < states` and `j < unrolls` |
| TraceUniverse.TraceAtomsDistinct | src/main/java/kodkod/engine/ltl2fol/TemporalBoundsExpander.java:255-274 | the appended atoms of either encoding are distinct trace atoms |
| AltContents.AltFirstLast | src/main/java/kodkod/engine/ltl2fol/TemporalBoundsExpander.java:108-117 | FIRST is exactly state 0 of unroll 0 and LAST_ exactly the last state of unroll 0; LAST has an empty lower bound, may hold the last state of the last unroll, and may hold the last state of unroll 0 exactly when no loop is forced or there is one unroll |
| AltContents.AltStateLoop | src/main/java/kodkod/engine/ltl2fol/TemporalBoundsExpander.java:119-131 | STATE's lower bound holds exactly the states of unroll 0, plus the last state of every unroll when a loop is forced, and is the state set used for lifting; its upper bound holds every trace state; LOOP may hold exactly the states of the last unroll |
| AltContents.AltPrefixUnrollMap | src/main/java/kodkod/engine/ltl2fol/TemporalBoundsExpander.java:133-159 | PREFIX forces exactly the steps within unroll 0 and allows exactly the steps within an unroll plus the steps from the last state of an unroll into any state of the next; UNROLL_MAP maps exactly every state to its copy in unroll 0 |
| AltContents.AltTraceParts | src/main/java/kodkod/engine/ltl2fol/TemporalBoundsExpander.java:105-159 | the multi-unroll encoding succeeds over its own universe and binds exactly FIRST, LAST, LAST_, STATE, LOOP and PREFIX, plus UNROLL_MAP only when there is more than one unroll, each to the bound described above |
| AltContents.AltStateCount | src/main/java/kodkod/engine/ltl2fol/TemporalBoundsExpander.java:119-120 | over its own universe with at least one state and one unroll, the multi-unroll STATE bound exists and its upper bound holds exactly `states * unrolls` tuples |
| SingleContents.SingleStateContents | src/main/java/kodkod/engine/ltl2fol/TemporalBoundsExpander.java:162-174 | FIRST is exactly state 0 and LAST exactly state `states`; STATE is exactly the `states + 1` states `0..states`, which are the state set used for lifting; PREFIX is exactly the steps from each state to the next |
| SingleContents.SingleLevelContents | src/main/java/kodkod/engine/ltl2fol/TemporalBoundsExpander.java:176-189 | L_FIRST is exactly level 0 and L_LAST exactly the last level; LEVEL is exactly every level; L_PREFIX is exactly the steps from each level to the next |
| SingleContents.SingleLoopContents | src/main/java/kodkod/engine/ltl2fol/TemporalBoundsExpander.java:191-194 | LOOP has an empty lower bound and may hold exactly the states `1..states` |
| SingleContents.SingleTraceParts | src/main/java/kodkod/engine/ltl2fol/TemporalBoundsExpander.java:161-196 | the single-unroll encoding succeeds over its own universe and binds exactly FIRST, LAST, STATE, PREFIX, L_FIRST, L_LAST, LEVEL, L_PREFIX and LOOP, each to the bound described above |
| Expander.LiftBound | src/main/java/kodkod/engine/ltl2fol/TemporalBoundsExpander.java:198-219 | a lifted variable relation has its lower, upper and target sets multiplied by the state set; a lifted plain relation keeps all three; both keep their weight |
| Expander.LiftAll | src/main/java/kodkod/engine/ltl2fol/TemporalBoundsExpander.java:198-219 | lifting succeeds exactly when every relation lifts; every relation's lifted bound is stored under its output relation, and nothing else is stored |
| Expander.LiftBoundWellFormed | src/main/java/kodkod/engine/ltl2fol/TemporalBoundsExpander.java:199-206 | a lifted bound is well formed over the new universe: lower within upper, lower, upper and target of the same arity, and every atom in the new universe |
| Expander.ExpandOver | src/main/java/kodkod/engine/ltl2fol/TemporalBoundsExpander.java:96-231 | unresolved bounds are rejected before anything else; a result is over the given universe, resolved, keeps the flags, has companion bounds exactly when the input does, and that companion is the expansion of the input's companion over the same universe; a result is well formed when the input is |
| Expander.Expand | src/main/java/kodkod/engine/ltl2fol/TemporalBoundsExpander.java:68-71 | the caller's time atoms gain the trace atoms whatever the outcome; a result lies over the original atoms followed by the trace atoms and keeps the flags; unresolved bounds fail |
| ExpanderProps.TraceForSucceeds | src/main/java/kodkod/engine/ltl2fol/TemporalBoundsExpander.java:105-196 | over the universe built for them, the trace relations of either encoding can be bound exactly when there is at least one state and one unroll; otherwise a bound names a missing atom |
| ExpanderProps.StateSetHoldsFirst | src/main/java/kodkod/engine/ltl2fol/TemporalBoundsExpander.java:119-126 | the state set that variable relations are multiplied by always holds the first state of the trace |
| ExpanderProps.ExpandOverRelations | src/main/java/kodkod/engine/ltl2fol/TemporalBoundsExpander.java:198-219 | the expanded bounds keep every trace relation's bound; each plain relation keeps its bound; each variable relation's `expanded` relation has its lower, upper and target sets multiplied by STATE's lower bound and keeps its weight; nothing else is bound |
| ExpanderProps.ExpandOverSucceeds | src/main/java/kodkod/engine/ltl2fol/TemporalBoundsExpander.java:96-231 | over its expanded universe, expanding well-formed bounds succeeds exactly when they and every companion are resolved and the trace has a state and an unroll; unresolved bounds, bad trace sizes and an unresolved companion fail with the matching error |
| ExpanderProps.ExpandedProjectsBack | src/main/java/kodkod/engine/ltl2fol/TemporalBoundsExpander.java:201-207 | projecting a variable relation's expanded lower, upper and target sets back onto its own columns gives its original sets, so the lifting loses nothing |
| ExpanderProps.ExpandSucceeds | src/main/java/kodkod/engine/ltl2fol/TemporalBoundsExpander.java:68-71 | the public expand on well-formed bounds succeeds exactly when everything is resolved and there is a state and an unroll; unresolved bounds and bad trace sizes fail with their own errors; a result is well formed over the original atoms followed by the trace atoms |

## Left out

- Atom names: the source builds trace atoms as strings (`STATEATOM + i + STATE_SEP + j`). The model uses distinct constructors, so an original atom that happens to carry a trace atom's name does not collide with it. The source would report that collision as a duplicate atom.
- Tuple arities: the model does not check that a relation's bounds, or a tuple set and the tuples added to it, share an arity. Kodkod's factory checks this, but well-formed input never trips it.
- Iteration order: the source walks the relations in the order `bounds.relations()` returns them. The model lifts them all at once.
- Input relations: the model assumes the input never binds a trace relation (FIRST, STATE, …) or a variable relation's `expanded` relation. Input relations (`Relation`) and output relations (`StaticRelation`) are separate types, so the model cannot express such input. In the source, the loop at TemporalBoundsExpander.java:198-218 would bind such a relation a second time, after lines 105-196 bound it, and the order of `bounds.relations()` would then decide the outcome.
- Expander.LiftAll: when several relations cannot be lifted, the source reports whichever it reaches first. The model reports a missing atom in preference to a refused bound.
- PardinusBounds internals: the constructor `new PardinusBounds(newBounds, newAmalg)` is assumed to keep the relations and flags of `newBounds` and to attach `newAmalg` as its companion.
- Symbolic bounds: `resolved()` is a boolean field. How symbolic bounds get resolved is not part of this model.
- Flags: `trivial_config`, `integrated` and `integration` are carried together as one value of a type parameter and copied unchanged.
- Side effects: appending to the caller's `timeAtoms` list is modelled as returning the extended list.
- Distributed solving: `DProblemManagerImpl` (a thread-pool scheduler for decomposed solving) and the `RingP` example (a domain model solved through `Solver.solve`) do not call the expander and are not part of this model.
- Integer width: Java's 32-bit `int` arithmetic is not modelled. `states`, `unrolls` and the loop counters are unbounded integers. For example, the single-unroll loop `for (int i = 0; i <= steps; i++)` (TemporalBoundsExpander.java:264) never ends when `steps` is `Integer.MAX_VALUE`; the model yields a finite list instead.
