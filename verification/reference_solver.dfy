/** An exhaustive 0/1 engine. It meets the engine contract the optimiser
    relies on, so that contract can be met by a real engine. */
module ReferenceSolver {
  import opened Outcome
  import opened LinearProgram

  /** `y` starts with `prefix`. */
  predicate Extends(prefix: seq<bool>, y: seq<bool>)
  {
    |prefix| <= |y| && y[..|prefix|] == prefix
  }

  /** Each longer extension of `prefix` extends it by `false` or by `true`. */
  lemma ExtendsStep(prefix: seq<bool>)
    ensures forall y :: Extends(prefix, y) && |y| > |prefix| ==>
              Extends(prefix + [false], y) || Extends(prefix + [true], y)
  {
    forall y | Extends(prefix, y) && |y| > |prefix|
      ensures Extends(prefix + [false], y) || Extends(prefix + [true], y)
    {
      var b := y[|prefix|];
      assert y[..|prefix| + 1] == y[..|prefix|] + [b];
      assert Extends(prefix + [b], y);
    }
  }

  /** The best feasible completion of `prefix` by `remaining` more decisions,
      or None when no completion is feasible. */
  function BestExtension(p: Program, prefix: seq<bool>, remaining: nat): (r: Option<seq<bool>>)
    ensures r.Some? ==>
              && |r.value| == |prefix| + remaining
              && Extends(prefix, r.value)
              && Satisfies(p.constraints, r.value)
    ensures r.Some? ==>
              forall y :: |y| == |prefix| + remaining && Extends(prefix, y) && Satisfies(p.constraints, y) ==>
                Value(p, y) <= Value(p, r.value)
    ensures r.None? ==>
              forall y :: |y| == |prefix| + remaining && Extends(prefix, y) ==> !Satisfies(p.constraints, y)
    decreases remaining
  {
    if remaining == 0 then
      assert forall y :: |y| == |prefix| && Extends(prefix, y) ==> y == prefix;
      if Satisfies(p.constraints, prefix) then Some(prefix) else None
    else
      ExtendsStep(prefix);
      assert forall b: bool :: Extends(prefix, prefix + [b]);
      var without := BestExtension(p, prefix + [false], remaining - 1);
      var with := BestExtension(p, prefix + [true], remaining - 1);
      if without.None? then with
      else if with.None? then without
      else if Value(p, without.value) <= Value(p, with.value) then with
      else without
  }

  /** A 0/1 point as engine values. */
  function Encode(x: seq<bool>): (values: seq<Option<real>>)
    ensures Binary(values) && Decisions(values) == x
  {
    seq(|x|, k requires 0 <= k < |x| => if x[k] then Some(1.0) else Some(0.0))
  }

  /** Try every 0/1 point; report the best feasible one, or infeasibility. */
  function Solve(p: Program): (r: Reply)
    ensures r.status == Optimal || r.status == Infeasible
    ensures SolverContract(p, r)
  {
    assert forall y :: Extends([], y);
    match BestExtension(p, [], |p.objective|)
    case Some(x) => Reply(Optimal, Encode(x))
    case None => Reply(Infeasible, Encode(seq(|p.objective|, _ => false)))
  }
}
