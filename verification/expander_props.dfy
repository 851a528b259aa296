/** What the expansion as a whole guarantees: when it succeeds, which
    relations the expanded bounds hold and what each is bound to, and that
    the bound of every variable relation can be read back from its
    `expanded` relation. */
module ExpanderProps {
  import opened Outcomes
  import opened Atoms
  import opened TupleSets
  import opened BoundSets
  import opened TraceUniverse
  import opened TraceRelations
  import opened AltContents
  import opened SingleContents
  import opened Expander

  // ---------------------------------------------------------------------
  // The trace relations

  /** Over the universe built for them, the trace relations can be bound
      exactly when there is at least one state and one unroll; otherwise an
      atom the bounds name is missing from the universe. */
  lemma TraceForSucceeds(orig: seq<Atom>, mode: Encoding, states: int, unrolls: int, forceLoop: bool)
    requires OriginalUniverse(orig)
    ensures var r := TraceFor(mode, orig + TraceAtoms(mode, states, unrolls), states, unrolls, forceLoop);
      && (r.Ok? <==> states >= 1 && unrolls >= 1)
      && (r.Err? ==> r.error == NoSuchAtom)
  {
    match mode
    case MultiUnroll => AltTraceSucceeds(orig, orig + AltTraceAtoms(states, unrolls), states, unrolls, forceLoop);
    case SingleUnroll => SingleTraceSucceeds(orig, orig + SingleTraceAtoms(states, unrolls), states, unrolls);
  }

  lemma AltTraceSucceeds(orig: seq<Atom>, u: seq<Atom>, states: int, unrolls: int, forceLoop: bool)
    requires OriginalUniverse(orig) && u == orig + AltTraceAtoms(states, unrolls)
    ensures var r := AltTrace(u, states, unrolls, forceLoop);
      && (r.Ok? <==> states >= 1 && unrolls >= 1)
      && (r.Err? ==> r.error == NoSuchAtom)
  {
    if states >= 1 && unrolls >= 1 {
      AltTraceParts(orig, u, states, unrolls, forceLoop);
    } else {
      AltMembers(states, unrolls, StU(0, 0));
      assert StU(0, 0) !in u;
      assert AltEnds(u, states, unrolls, forceLoop) == Err(NoSuchAtom);
    }
  }

  lemma SingleTraceSucceeds(orig: seq<Atom>, u: seq<Atom>, states: int, unrolls: int)
    requires OriginalUniverse(orig) && u == orig + SingleTraceAtoms(states, unrolls)
    ensures var r := SingleTrace(u, states, unrolls);
      && (r.Ok? <==> states >= 1 && unrolls >= 1)
      && (r.Err? ==> r.error == NoSuchAtom)
  {
    if states >= 1 && unrolls >= 1 {
      SingleTraceParts(orig, u, states, unrolls);
    } else {
      SingleTraceFails(orig, u, states, unrolls);
    }
  }

  /** Too few states or levels: some bound names an atom that was never
      added, so the tuple factory refuses it. */
  lemma SingleTraceFails(orig: seq<Atom>, u: seq<Atom>, states: int, unrolls: int)
    requires OriginalUniverse(orig) && u == orig + SingleTraceAtoms(states, unrolls)
    requires states < 1 || unrolls < 1
    ensures SingleTrace(u, states, unrolls) == Err(NoSuchAtom)
  {
    SingleUniverseFacts(orig, u, states, unrolls);
    if states < 0 {
      assert St(0) !in u;
      assert SingleStates(u, states) == Err(NoSuchAtom);
    } else if unrolls < 1 {
      SingleStateContents(orig, u, states, unrolls);
      assert Lvl(0) !in u;
      assert SingleLevels(u, unrolls) == Err(NoSuchAtom);
    } else {
      SingleStateContents(orig, u, states, unrolls);
      SingleLevelContents(orig, u, states, unrolls);
      assert St(1) !in u;
      assert SingleLoop(u, states) == Err(NoSuchAtom);
    }
  }

  /** The state set that variable relations are multiplied with always
      holds the first state of the trace. */
  lemma StateSetHoldsFirst(orig: seq<Atom>, mode: Encoding, states: int, unrolls: int, forceLoop: bool)
    requires OriginalUniverse(orig)
    requires TraceFor(mode, orig + TraceAtoms(mode, states, unrolls), states, unrolls, forceLoop).Ok?
    ensures var t := TraceFor(mode, orig + TraceAtoms(mode, states, unrolls), states, unrolls, forceLoop).value;
      [if mode.MultiUnroll? then StU(0, 0) else St(0)] in t.stateFirst.tuples
  {
    TraceForSucceeds(orig, mode, states, unrolls, forceLoop);
    match mode
    case MultiUnroll => AltFirstState(orig, orig + AltTraceAtoms(states, unrolls), states, unrolls, forceLoop);
    case SingleUnroll => SingleFirstState(orig, orig + SingleTraceAtoms(states, unrolls), states, unrolls);
  }

  lemma AltFirstState(orig: seq<Atom>, u: seq<Atom>, states: int, unrolls: int, forceLoop: bool)
    requires OriginalUniverse(orig) && u == orig + AltTraceAtoms(states, unrolls)
    requires states >= 1 && unrolls >= 1
    ensures AltTrace(u, states, unrolls, forceLoop).Ok?
    ensures [StU(0, 0)] in AltTrace(u, states, unrolls, forceLoop).value.stateFirst.tuples
  {
    AltTraceParts(orig, u, states, unrolls, forceLoop);
    StateLoopBounds(orig, u, states, unrolls, forceLoop);
    assert [StU(0, 0)] in UnrollStates(states, 0);
  }

  lemma SingleFirstState(orig: seq<Atom>, u: seq<Atom>, states: int, unrolls: int)
    requires OriginalUniverse(orig) && u == orig + SingleTraceAtoms(states, unrolls)
    requires states >= 1 && unrolls >= 1
    ensures SingleTrace(u, states, unrolls).Ok?
    ensures [St(0)] in SingleTrace(u, states, unrolls).value.stateFirst.tuples
  {
    SingleTraceParts(orig, u, states, unrolls);
    assert SingleStates(u, states).value.stateAll == TupleSet(1, StateRange(0, states)) by {
      StateRangeIn(orig, u, states, unrolls, 0, states);
      StatesFromMembers(u, states);
    }
    assert [St(0)] in StateRange(0, states);
  }

  // ---------------------------------------------------------------------
  // Lifting the input relations

  /** A bound well formed over the original universe lifts onto any
      universe that holds the original atoms. */
  lemma LiftBoundSucceeds(b: Bound, isVar: bool, u0: seq<Atom>, u: seq<Atom>, states: TupleSet)
    requires BoundWellFormed(b, u0)
    requires forall a | a in u0 :: a in u
    ensures LiftBound(b, isVar, u, states).Ok?
  {
    ConvertOnto(b.lower, u0, u);
    ConvertOnto(b.upper, u0, u);
    if b.target.Some? {
      ConvertOnto(b.target.value, u0, u);
    }
    if isVar {
      ProductMono(b.lower, b.upper, states);
    }
  }

  lemma LiftAllSucceeds(relations: map<Relation, Bound>, u0: seq<Atom>, u: seq<Atom>, states: TupleSet)
    requires forall x | x in relations :: BoundWellFormed(relations[x], u0)
    requires forall a | a in u0 :: a in u
    ensures LiftAll(relations, u, states).Ok?
  {
    forall x | x in relations
      ensures LiftBound(relations[x], x.Var?, u, states).Ok?
    {
      LiftBoundSucceeds(relations[x], x.Var?, u0, u, states);
    }
  }

  // ---------------------------------------------------------------------
  // The private expand

  /** The expanded bounds hold the trace relations, bound as the encoding
      prescribes, and one relation per input relation: a plain relation
      keeps its bound, a variable relation's `expanded` relation has its
      lower, upper and target sets multiplied with STATE's lower bound, and
      both keep their weight. Nothing else is bound. */
  lemma ExpandOverRelations<F>(b: Bounds<Relation, F>, u: seq<Atom>, mode: Encoding, states: int, unrolls: int, forceLoop: bool)
    requires ExpandOver(b, u, mode, states, unrolls, forceLoop).Ok?
    ensures TraceFor(mode, u, states, unrolls, forceLoop).Ok?
    ensures var out := ExpandOver(b, u, mode, states, unrolls, forceLoop).value.relations;
      var trace := TraceFor(mode, u, states, unrolls, forceLoop).value.relations;
      && Trace(State) in out
      && (forall k | k in trace :: k in out && out[k] == trace[k])
      && (forall k | k in out && k.Trace? :: k in trace)
      && (forall k | k in out && !k.Trace? :: exists x | x in b.relations :: Lifted(x) == k)
      && (forall x | x in b.relations && x.Plain? ::
            Declared(x.name) in out && out[Declared(x.name)] == b.relations[x])
      && (forall x | x in b.relations && x.Var? ::
            && ExpandedOf(x.name) in out
            && out[ExpandedOf(x.name)].lower == Product(b.relations[x].lower, out[Trace(State)].lower)
            && out[ExpandedOf(x.name)].upper == Product(b.relations[x].upper, out[Trace(State)].lower)
            && out[ExpandedOf(x.name)].target == MultiplyTarget(b.relations[x].target, out[Trace(State)].lower)
            && out[ExpandedOf(x.name)].weight == b.relations[x].weight)
  {
    ExpandOverIsUnion(b, u, mode, states, unrolls, forceLoop);
    var trace := TraceFor(mode, u, states, unrolls, forceLoop).value;
    UnionRelations(trace, LiftAll(b.relations, u, trace.stateFirst).value, b.relations, u,
      ExpandOver(b, u, mode, states, unrolls, forceLoop).value.relations);
  }

  lemma ExpandOverIsUnion<F>(b: Bounds<Relation, F>, u: seq<Atom>, mode: Encoding, states: int, unrolls: int, forceLoop: bool)
    requires ExpandOver(b, u, mode, states, unrolls, forceLoop).Ok?
    ensures TraceFor(mode, u, states, unrolls, forceLoop).Ok?
    ensures var trace := TraceFor(mode, u, states, unrolls, forceLoop).value;
      && LiftAll(b.relations, u, trace.stateFirst).Ok?
      && ExpandOver(b, u, mode, states, unrolls, forceLoop).value.relations
           == trace.relations + LiftAll(b.relations, u, trace.stateFirst).value
  {
  }

  /** The relations of the expanded bounds, given that they are the trace
      relations joined with the lifted input relations. */
  lemma UnionRelations(trace: TraceBounds, lifted: map<StaticRelation, Bound>, relations: map<Relation, Bound>,
                       u: seq<Atom>, out: map<StaticRelation, Bound>)
    requires TraceWellFormed(trace, u) && StateIsFirst(trace)
    requires LiftAll(relations, u, trace.stateFirst) == Ok(lifted)
    requires out == trace.relations + lifted
    ensures && Trace(State) in out && out[Trace(State)].lower == trace.stateFirst
      && (forall k | k in trace.relations :: k in out && out[k] == trace.relations[k])
      && (forall k | k in out && k.Trace? :: k in trace.relations)
      && (forall k | k in out && !k.Trace? :: exists x | x in relations :: Lifted(x) == k)
      && (forall x | x in relations && x.Plain? ::
            Declared(x.name) in out && out[Declared(x.name)] == relations[x])
      && (forall x | x in relations && x.Var? ::
            && ExpandedOf(x.name) in out
            && out[ExpandedOf(x.name)].lower == Product(relations[x].lower, out[Trace(State)].lower)
            && out[ExpandedOf(x.name)].upper == Product(relations[x].upper, out[Trace(State)].lower)
            && out[ExpandedOf(x.name)].target == MultiplyTarget(relations[x].target, out[Trace(State)].lower)
            && out[ExpandedOf(x.name)].weight == relations[x].weight)
  {
    forall k | k in trace.relations
      ensures k in out && out[k] == trace.relations[k]
    {
      assert k.Trace?;
      assert k !in lifted;
    }
    forall x | x in relations
      ensures Lifted(x) in out && out[Lifted(x)] == LiftBound(relations[x], x.Var?, u, trace.stateFirst).value
    {
      assert Lifted(x) in lifted;
    }
    forall x | x in relations && x.Plain?
      ensures Declared(x.name) in out && out[Declared(x.name)] == relations[x]
    {
      assert Lifted(x) == Declared(x.name);
    }
    forall x | x in relations && x.Var?
      ensures ExpandedOf(x.name) in out
    {
      assert Lifted(x) == ExpandedOf(x.name);
    }
  }

  /** Over the universe built for it, the expansion of well-formed bounds
      succeeds exactly when they and all their companions are resolved and
      the trace has a state and an unroll. An unresolved bound set is
      reported before bad trace sizes, which are reported before an
      unresolved companion. */
  lemma {:induction false} ExpandOverSucceeds<F>(b: Bounds<Relation, F>, mode: Encoding, states: int, unrolls: int, forceLoop: bool)
    requires WellFormed(b) && forall a | a in b.universe :: !IsTrace(a)
    ensures var r := ExpandOver(b, b.universe + TraceAtoms(mode, states, unrolls), mode, states, unrolls, forceLoop);
      && (r.Ok? <==> FullyResolved(b) && states >= 1 && unrolls >= 1)
      && (b.resolved && !(states >= 1 && unrolls >= 1) ==> r == Err(NoSuchAtom))
      && (states >= 1 && unrolls >= 1 && !FullyResolved(b) ==> r == Err(Unresolved))
    decreases b
  {
    var u := b.universe + TraceAtoms(mode, states, unrolls);
    if b.resolved {
      TraceForSucceeds(b.universe, mode, states, unrolls, forceLoop);
      if states >= 1 && unrolls >= 1 {
        var trace := TraceFor(mode, u, states, unrolls, forceLoop).value;
        LiftAllSucceeds(b.relations, b.universe, u, trace.stateFirst);
        if b.amalgamated.Some? {
          ExpandOverSucceeds(b.amalgamated.value, mode, states, unrolls, forceLoop);
        }
      }
    }
  }

  /** Multiplying with the state set loses nothing: projecting the bounds
      of a variable relation's `expanded` relation back onto the relation's
      own columns gives the original bounds. */
  lemma ExpandedProjectsBack<F>(b: Bounds<Relation, F>, mode: Encoding, states: int, unrolls: int, forceLoop: bool, x: Relation)
    requires WellFormed(b) && forall a | a in b.universe :: !IsTrace(a)
    requires ExpandOver(b, b.universe + TraceAtoms(mode, states, unrolls), mode, states, unrolls, forceLoop).Ok?
    requires x in b.relations && x.Var?
    ensures var out := ExpandOver(b, b.universe + TraceAtoms(mode, states, unrolls), mode, states, unrolls, forceLoop).value.relations;
      var arity := b.relations[x].upper.arity;
      && ExpandedOf(x.name) in out
      && Project(out[ExpandedOf(x.name)].lower, arity) == b.relations[x].lower
      && Project(out[ExpandedOf(x.name)].upper, arity) == b.relations[x].upper
      && (b.relations[x].target.Some? ==>
            && out[ExpandedOf(x.name)].target.Some?
            && Project(out[ExpandedOf(x.name)].target.value, arity) == b.relations[x].target.value)
  {
    var u := b.universe + TraceAtoms(mode, states, unrolls);
    ExpandOverRelations(b, u, mode, states, unrolls, forceLoop);
    StateSetHoldsFirst(b.universe, mode, states, unrolls, forceLoop);
    var trace := TraceFor(mode, u, states, unrolls, forceLoop).value;
    var out := ExpandOver(b, u, mode, states, unrolls, forceLoop).value.relations;
    assert out[Trace(State)].lower == trace.stateFirst;
    var s := trace.stateFirst;
    var bx := b.relations[x];
    assert s.tuples != {};
    ProjectProduct(bx.lower, s);
    ProjectProduct(bx.upper, s);
    if bx.target.Some? {
      ProjectProduct(bx.target.value, s);
    }
  }

  // ---------------------------------------------------------------------
  // The public expand

  /** The public `expand` on well-formed bounds: the caller's time atoms
      gain the trace atoms whatever happens; the expansion succeeds exactly
      when every bound set is resolved and the trace has a state and an
      unroll, and then yields well-formed bounds over the original atoms
      followed by the trace atoms. */
  lemma ExpandSucceeds<F>(b: Bounds<Relation, F>, mode: Encoding, states: int, unrolls: int, forceLoop: bool, timeAtoms: seq<Atom>)
    requires WellFormed(b) && forall a | a in b.universe :: !IsTrace(a)
    ensures var r := Expand(b, mode, states, unrolls, forceLoop, timeAtoms);
      && r.timeAtoms == timeAtoms + TraceAtoms(mode, states, unrolls)
      && (r.result.Ok? <==> FullyResolved(b) && states >= 1 && unrolls >= 1)
      && (!b.resolved ==> r.result == Err(Unresolved))
      && (b.resolved && !(states >= 1 && unrolls >= 1) ==> r.result == Err(NoSuchAtom))
      && (r.result.Ok? ==> && r.result.value.universe == b.universe + TraceAtoms(mode, states, unrolls)
                           && WellFormed(r.result.value))
  {
    var u := b.universe + TraceAtoms(mode, states, unrolls);
    ExpandUniverseSucceeds(b.universe, mode, states, unrolls, timeAtoms);
    TraceAtomsDistinct(mode, states, unrolls);
    DistinctAppend(b.universe, TraceAtoms(mode, states, unrolls));
    ExpandOverSucceeds(b, mode, states, unrolls, forceLoop);
  }
}
