/** Linear constraints over 0/1 decision variables, and the contract of the
    integer-programming engine that solves them. */
module LinearProgram {
  import opened Outcome

  datatype Relation = Le | Eq

  /** `coeffs · x  rel  bound`, one coefficient per decision variable. */
  datatype Constraint = Constraint(coeffs: seq<real>, rel: Relation, bound: real)

  /** A maximisation problem: objective coefficients and constraint list. */
  datatype Program = Program(objective: seq<real>, constraints: seq<Constraint>)

  /** Every constraint speaks about exactly the program's variables. */
  predicate WellFormed(p: Program)
  {
    forall i :: 0 <= i < |p.constraints| ==> |p.constraints[i].coeffs| == |p.objective|
  }

  /** Value of the linear form `c` at the 0/1 point `x` (1 for true). */
  function Dot(c: seq<real>, x: seq<bool>): real
  {
    if c == [] || x == [] then 0.0
    else (if x[0] then c[0] else 0.0) + Dot(c[1..], x[1..])
  }

  predicate Holds(c: Constraint, x: seq<bool>)
  {
    match c.rel
    case Le => Dot(c.coeffs, x) <= c.bound
    case Eq => Dot(c.coeffs, x) == c.bound
  }

  predicate Satisfies(cs: seq<Constraint>, x: seq<bool>)
  {
    forall i :: 0 <= i < |cs| ==> Holds(cs[i], x)
  }

  /** `x` assigns every variable of `p` and meets every constraint. */
  predicate Feasible(p: Program, x: seq<bool>)
  {
    |x| == |p.objective| && Satisfies(p.constraints, x)
  }

  function Value(p: Program, x: seq<bool>): real
  {
    Dot(p.objective, x)
  }

  /** A list of constraints holds exactly when both halves hold. */
  lemma SatisfiesAppend(a: seq<Constraint>, b: seq<Constraint>, x: seq<bool>)
    ensures Satisfies(a + b, x) <==> Satisfies(a, x) && Satisfies(b, x)
  {
    if Satisfies(a, x) && Satisfies(b, x) {
      forall i | 0 <= i < |a + b|
        ensures Holds((a + b)[i], x)
      {
        if i >= |a| {
          assert (a + b)[i] == b[i - |a|];
        }
      }
    }
    if Satisfies(a + b, x) {
      forall i | 0 <= i < |a|
        ensures Holds(a[i], x)
      {
        assert (a + b)[i] == a[i];
      }
      forall i | 0 <= i < |b|
        ensures Holds(b[i], x)
      {
        assert (a + b)[|a| + i] == b[i];
      }
    }
  }

  /** A one-entry list holds exactly when its entry does. */
  lemma SatisfiesOne(c: Constraint, x: seq<bool>)
    ensures Satisfies([c], x) <==> Holds(c, x)
  {
    if Holds(c, x) {
      forall i | 0 <= i < 1
        ensures Holds([c][i], x)
      {
        assert [c][i] == c;
      }
    }
    if Satisfies([c], x) {
      assert Holds([c][0], x);
    }
  }

  /** Status codes of the engine, as PuLP names them. */
  datatype Status = NotSolved | Optimal | Infeasible | Unbounded | Undefined

  /** The engine's answer: a status and one value per variable (`varValue`,
      absent when the engine set none). */
  datatype Reply = Reply(status: Status, values: seq<Option<real>>)

  /** Reading a value back as a decision: selected exactly when it equals 1. */
  function Decisions(values: seq<Option<real>>): (x: seq<bool>)
    ensures |x| == |values|
    ensures forall k :: 0 <= k < |values| ==> (x[k] <==> values[k] == Some(1.0))
  {
    seq(|values|, k requires 0 <= k < |values| => values[k] == Some(1.0))
  }

  /** Every value is exactly 0 or 1. */
  predicate Binary(values: seq<Option<real>>)
  {
    forall k :: 0 <= k < |values| ==> values[k] == Some(0.0) || values[k] == Some(1.0)
  }

  /** `x` is feasible and no feasible point scores more. */
  ghost predicate Optimum(p: Program, x: seq<bool>)
  {
    Feasible(p, x) && forall y :: Feasible(p, y) ==> Value(p, y) <= Value(p, x)
  }

  /** What the model relies on from the engine: one value per variable; an
      optimal answer is a 0/1 optimum; an infeasible verdict is correct. */
  ghost predicate SolverContract(p: Program, r: Reply)
  {
    && |r.values| == |p.objective|
    && (r.status == Optimal ==> Binary(r.values) && Optimum(p, Decisions(r.values)))
    && (r.status == Infeasible ==> forall y :: !Feasible(p, y))
  }

  /** Two optimal answers to the same program have the same objective value,
      even when they choose different points. */
  lemma OptimaAgree(p: Program, r1: Reply, r2: Reply)
    requires SolverContract(p, r1) && r1.status == Optimal
    requires SolverContract(p, r2) && r2.status == Optimal
    ensures Value(p, Decisions(r1.values)) == Value(p, Decisions(r2.values))
  {
  }
}
