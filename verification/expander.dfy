/** The temporal bounds expander: re-expresses the bounds of a temporal
    problem over the expanded universe, binds the trace relations, and lifts
    every variable relation to its state-indexed `expanded` relation. */
module Expander {
  import opened Outcomes
  import opened Atoms
  import opened TupleSets
  import opened BoundSets
  import opened TraceUniverse
  import opened TraceRelations

  /** The target, if there is one, converted onto `u`. */
  function ConvertTarget(target: Option<TupleSet>, u: seq<Atom>): (r: Result<Option<TupleSet>>)
    ensures r.Ok? <==> (target.Some? ==> Over(target.value, u))
    ensures r.Ok? ==> r.value == target
  {
    match target
    case None => Ok(None)
    case Some(t) =>
      var c :- Convert(t, u);
      Ok(Some(c))
  }

  function MultiplyTarget(target: Option<TupleSet>, states: TupleSet): Option<TupleSet> {
    match target
    case None => None
    case Some(t) => Some(Product(t, states))
  }

  /** The bound of one input relation over `u`. A variable relation has its
      lower, upper and target sets each multiplied with the state set; a
      plain relation keeps them. The weight is copied in both cases. */
  function LiftBound(b: Bound, isVar: bool, u: seq<Atom>, states: TupleSet): (r: Result<Bound>)
    ensures r.Ok? ==> r.value.weight == b.weight
    ensures r.Ok? && !isVar ==>
      r.value.lower == b.lower && r.value.upper == b.upper && r.value.target == b.target
    ensures r.Ok? && isVar ==>
      && r.value.lower == Product(b.lower, states)
      && r.value.upper == Product(b.upper, states)
      && r.value.target == MultiplyTarget(b.target, states)
  {
    var lower :- Convert(b.lower, u);
    var upper :- Convert(b.upper, u);
    if isVar then
      var bound :- Bind(Product(lower, states), Product(upper, states));
      var target :- ConvertTarget(b.target, u);
      Ok(bound.(target := MultiplyTarget(target, states), weight := b.weight))
    else
      var bound :- Bind(lower, upper);
      var target :- ConvertTarget(b.target, u);
      Ok(bound.(target := target, weight := b.weight))
  }

  /** Every input relation lifted: the bound of `r` is stored under
      `Lifted(r)`. When some relation cannot be lifted the expansion fails;
      a missing atom is reported in preference to a refused bound. */
  function LiftAll(relations: map<Relation, Bound>, u: seq<Atom>, states: TupleSet): (r: Result<map<StaticRelation, Bound>>)
    ensures r.Ok? <==> forall x | x in relations :: LiftBound(relations[x], x.Var?, u, states).Ok?
    ensures r.Ok? ==> forall x | x in relations ::
      Lifted(x) in r.value && r.value[Lifted(x)] == LiftBound(relations[x], x.Var?, u, states).value
    ensures r.Ok? ==> forall s | s in r.value :: exists x | x in relations :: Lifted(x) == s
  {
    if forall x | x in relations :: LiftBound(relations[x], x.Var?, u, states).Ok? then
      Ok(map x | x in relations :: Lifted(x) := LiftBound(relations[x], x.Var?, u, states).value)
    else if exists x | x in relations :: LiftBound(relations[x], x.Var?, u, states) == Err(NoSuchAtom) then
      Err(NoSuchAtom)
    else
      Err(BadBound)
  }

  /** A lifted bound is well formed over `u` when the input bound was well
      formed over some universe and the state set is a set of unary tuples
      over `u`. */
  lemma LiftBoundWellFormed(b: Bound, isVar: bool, u0: seq<Atom>, u: seq<Atom>, states: TupleSet)
    requires BoundWellFormed(b, u0)
    requires states.arity == 1 && Shaped(states) && Over(states, u)
    requires LiftBound(b, isVar, u, states).Ok?
    ensures BoundWellFormed(LiftBound(b, isVar, u, states).value, u)
  {
    if isVar {
      ProductOver(b.lower, states, u);
      ProductOver(b.upper, states, u);
      if b.target.Some? {
        ProductOver(b.target.value, states, u);
      }
    }
  }

  lemma LiftAllWellFormed(relations: map<Relation, Bound>, u0: seq<Atom>, u: seq<Atom>, states: TupleSet)
    requires forall x | x in relations :: BoundWellFormed(relations[x], u0)
    requires states.arity == 1 && Shaped(states) && Over(states, u)
    requires LiftAll(relations, u, states).Ok?
    ensures BoundsOver(LiftAll(relations, u, states).value, u)
  {
    var m := LiftAll(relations, u, states).value;
    forall s | s in m
      ensures BoundWellFormed(m[s], u)
    {
      var x :| x in relations && Lifted(x) == s;
      LiftBoundWellFormed(relations[x], x.Var?, u0, u, states);
    }
  }

  /** The private `expand`: the bounds `b` over the already expanded
      universe `u`, its companion bounds expanded over the same universe. */
  function ExpandOver<F>(b: Bounds<Relation, F>, u: seq<Atom>, mode: Encoding, states: int, unrolls: int, forceLoop: bool)
    : (r: Result<Bounds<StaticRelation, F>>)
    decreases b
    ensures !b.resolved ==> r == Err(Unresolved)
    ensures r.Ok? ==> && r.value.universe == u && r.value.flags == b.flags && r.value.resolved
                      && (r.value.amalgamated.Some? <==> b.amalgamated.Some?)
    ensures r.Ok? && r.value.amalgamated.Some? ==>
      r.value.amalgamated.value.universe == u && r.value.amalgamated.value.flags == b.amalgamated.value.flags
    ensures r.Ok? && b.amalgamated.Some? ==>
      && ExpandOver(b.amalgamated.value, u, mode, states, unrolls, forceLoop).Ok?
      && r.value.amalgamated == Some(ExpandOver(b.amalgamated.value, u, mode, states, unrolls, forceLoop).value)
    ensures r.Ok? && |u| > 0 && Distinct(u) && WellFormed(b) ==> WellFormed(r.value)
  {
    if !b.resolved then
      Err(Unresolved)
    else
      var trace :- TraceFor(mode, u, states, unrolls, forceLoop);
      var lifted :- LiftAll(b.relations, u, trace.stateFirst);
      var amalgamated :- match b.amalgamated
        case None => Ok(None)
        case Some(a) =>
          var e :- ExpandOver(a, u, mode, states, unrolls, forceLoop);
          Ok(Some(e));
      var result := Bounds(u, trace.relations + lifted, true, b.flags, amalgamated);
      assert |u| > 0 && Distinct(u) && WellFormed(b) ==> WellFormed(result) by {
        if |u| > 0 && Distinct(u) && WellFormed(b) {
          ExpandedWellFormed(b, u, trace, lifted, amalgamated);
        }
      }
      Ok(result)
  }

  /** The expanded bounds are well formed once the trace bounds and the
      lifted bounds each are, and the companion is. */
  lemma ExpandedWellFormed<F>(b: Bounds<Relation, F>, u: seq<Atom>, trace: TraceBounds, lifted: map<StaticRelation, Bound>,
                              amalgamated: Option<Bounds<StaticRelation, F>>)
    requires |u| > 0 && Distinct(u) && WellFormed(b)
    requires TraceWellFormed(trace, u)
    requires LiftAll(b.relations, u, trace.stateFirst) == Ok(lifted)
    requires amalgamated.Some? ==> amalgamated.value.universe == u && WellFormed(amalgamated.value)
    ensures WellFormed(Bounds(u, trace.relations + lifted, true, b.flags, amalgamated))
  {
    LiftAllWellFormed(b.relations, b.universe, u, trace.stateFirst);
  }

  /** What the public `expand` leaves behind: the caller's time-atom list,
      extended even when the expansion itself fails, and the expansion. */
  datatype Expansion<F> = Expansion(timeAtoms: seq<Atom>, result: Result<Bounds<StaticRelation, F>>)

  /** The public `expand`: builds the expanded universe, then expands over it. */
  function Expand<F>(b: Bounds<Relation, F>, mode: Encoding, states: int, unrolls: int, forceLoop: bool, timeAtoms: seq<Atom>)
    : (r: Expansion<F>)
    ensures r.timeAtoms == timeAtoms + TraceAtoms(mode, states, unrolls)
    ensures r.result.Ok? ==> && r.result.value.universe == b.universe + TraceAtoms(mode, states, unrolls)
                             && r.result.value.flags == b.flags
    ensures !b.resolved ==> r.result.Err?
  {
    var e := ExpandUniverse(b.universe, mode, states, unrolls, timeAtoms);
    Expansion(e.timeAtoms,
      match e.universe
      case Err(err) => Err(err)
      case Ok(u) => ExpandOver(b, u, mode, states, unrolls, forceLoop))
  }
}
