/** Relations and bounds: per relation a lower and an upper tuple set, an
    optional target and an optional weight, over one universe. */
module BoundSets {
  import opened Outcomes
  import opened Atoms
  import opened TupleSets

  /** A relation of a temporal problem; `Var` is a variable relation, whose
      value may differ from state to state. */
  datatype Relation = Plain(name: string) | Var(name: string)

  /** The relations that describe the shape of the trace. `LastUnr` is the
      last state of the first unroll (LAST_ in the source). */
  datatype TraceRel =
    | First | Last | LastUnr | State | Prefix | Loop | UnrollMap
    | LFirst | LLast | Level | LPrefix

  /** A relation of the expanded, time-free problem: a plain relation kept as
      it is, the expanded companion of a variable relation, or a trace
      relation. */
  datatype StaticRelation =
    | Declared(name: string)
    | ExpandedOf(name: string)
    | Trace(t: TraceRel)

  /** The relation of the expanded problem that holds the bound of `r`:
      the relation itself, or the `expanded` relation of a variable one. */
  function Lifted(r: Relation): (s: StaticRelation)
    ensures !s.Trace?
    ensures s.ExpandedOf? <==> r.Var?
    ensures s.name == r.name
  {
    match r
    case Plain(n) => Declared(n)
    case Var(n) => ExpandedOf(n)
  }

  datatype Bound = Bound(lower: TupleSet, upper: TupleSet, target: Option<TupleSet>, weight: Option<int>)

  /** `boundExactly(r, ts)`: lower and upper bound are both `ts`. */
  function Exactly(ts: TupleSet): Bound {
    Bound(ts, ts, None, None)
  }

  /** `bound(r, upper)`: the lower bound is empty. */
  function UpTo(upper: TupleSet): Bound {
    Bound(Empty(upper.arity), upper, None, None)
  }

  /** `bound(r, lower, upper)`, which Kodkod refuses unless the lower bound
      lies within the upper one. */
  function Bind(lower: TupleSet, upper: TupleSet): (r: Result<Bound>)
    ensures r.Ok? <==> Subset(lower, upper)
    ensures r.Ok? ==> r.value.lower == lower && r.value.upper == upper
    ensures r.Ok? ==> r.value.target.None? && r.value.weight.None?
    ensures r.Err? ==> r.error == BadBound
  {
    if Subset(lower, upper) then Ok(Bound(lower, upper, None, None)) else Err(BadBound)
  }

  /** A bound set over `universe`. `flags` stands for the fields that are
      passed through unchanged; `amalgamated` is the companion bound set. */
  datatype Bounds<R, F> = Bounds(
    universe: seq<Atom>,
    relations: map<R, Bound>,
    resolved: bool,
    flags: F,
    amalgamated: Option<Bounds<R, F>>)

  /** What Kodkod guarantees of every bound it stores: one arity of at least
      one for all of its sets, every atom in the universe, lower within upper. */
  predicate BoundWellFormed(b: Bound, u: seq<Atom>) {
    && b.lower.arity == b.upper.arity >= 1
    && Shaped(b.lower) && Shaped(b.upper)
    && Over(b.lower, u) && Over(b.upper, u)
    && Subset(b.lower, b.upper)
    && (b.target.Some? ==>
          b.target.value.arity == b.upper.arity && Shaped(b.target.value) && Over(b.target.value, u))
  }

  /** A bound set whose universe is a proper universe (non-empty, no atom
      twice), whose bounds are all well formed, and whose companion, if any,
      is well formed over the same universe. */
  predicate WellFormed<R, F>(b: Bounds<R, F>)
    decreases b
  {
    && |b.universe| > 0 && Distinct(b.universe)
    && (forall r | r in b.relations :: BoundWellFormed(b.relations[r], b.universe))
    && (b.amalgamated.Some? ==>
          b.amalgamated.value.universe == b.universe && WellFormed(b.amalgamated.value))
  }

  /** The bound set and its companions are all resolved. */
  predicate FullyResolved<R, F>(b: Bounds<R, F>)
    decreases b
  {
    b.resolved && (b.amalgamated.Some? ==> FullyResolved(b.amalgamated.value))
  }
}
