/** `optimize`: build the model, hand it to the engine, read the squad back. */
module Optimizer {
  import opened Outcome
  import opened Players
  import opened LinearProgram
  import opened Formulation
  import opened Encoding
  import ReferenceSolver

  /** The rows whose engine value is exactly 1, in table order, with the row
      positions they came from. */
  method ExtractSquad(rows: seq<Player>, values: seq<Option<real>>) returns (squad: seq<Player>, picked: seq<nat>)
    requires |values| == |rows|
    ensures |squad| == |picked|
    ensures forall j :: 0 <= j < |picked| ==>
              picked[j] < |rows| && squad[j] == rows[picked[j]] && values[picked[j]] == Some(1.0)
    ensures forall i, j :: 0 <= i < j < |picked| ==> picked[i] < picked[j]
    ensures forall k :: 0 <= k < |rows| && values[k] == Some(1.0) ==> k in picked
    ensures squad == Pick(rows, Decisions(values))
  {
    var x := Decisions(values);
    squad, picked := [], [];
    var k := 0;
    while k < |rows|
      invariant k <= |rows|
      invariant |squad| == |picked|
      invariant forall j :: 0 <= j < |picked| ==>
                  picked[j] < k && squad[j] == rows[picked[j]] && values[picked[j]] == Some(1.0)
      invariant forall i, j :: 0 <= i < j < |picked| ==> picked[i] < picked[j]
      invariant forall i :: 0 <= i < k && values[i] == Some(1.0) ==> i in picked
      invariant squad + Pick(rows[k..], x[k..]) == Pick(rows, x)
      decreases |rows| - k
    {
      PickStep(rows, x, k, squad);
      if values[k] == Some(1.0) {
        squad, picked := squad + [rows[k]], picked + [k];
      }
      k := k + 1;
    }
  }

  /** The whole of `optimize`, with the engine's answer to the model as a
      parameter. The squad is read back whatever status the engine reports;
      when the engine keeps its contract, an optimal answer is a valid squad
      of greatest points and an infeasible verdict means no valid squad exists. */
  method Optimize(t: Table, req: Request, reply: Reply) returns (r: Result<seq<Player>, Error>)
    requires Rectangular(t)
    requires |reply.values| == |t.rows|
    ensures r.Failure? <==> req.column !in t.columns
    ensures r.Failure? ==> r.error == UnknownColumn(req.column)
    ensures r.Success? ==> r.value == Pick(t.rows, Decisions(reply.values))
    ensures r.Success? && SolverContract(Model(t, req).value, reply) && reply.status == Optimal ==>
              && ValidSquad(t.rows, req, Decisions(reply.values))
              && Scored(r.value, req.column)
              && forall y :: |y| == |t.rows| && ValidSquad(t.rows, req, y) ==>
                   && Scored(Pick(t.rows, y), req.column)
                   && Points(Pick(t.rows, y), req.column) <= Points(r.value, req.column)
    ensures r.Success? && SolverContract(Model(t, req).value, reply) && reply.status == Infeasible ==>
              forall y :: |y| == |t.rows| ==> !ValidSquad(t.rows, req, y)
  {
    var model := Model(t, req);
    if model.Failure? {
      return Failure(model.error);
    }
    var squad, _ := ExtractSquad(t.rows, reply.values);
    r := Success(squad);
    if SolverContract(model.value, reply) && reply.status == Optimal {
      OptimalAnswerIsBestSquad(t, req, reply);
    }
    if SolverContract(model.value, reply) && reply.status == Infeasible {
      forall y | |y| == |t.rows|
        ensures !ValidSquad(t.rows, req, y)
      {
        InfeasibleAnswerMeansNoSquad(t, req, reply, y);
      }
    }
  }

  /** With the exhaustive engine the model is answered Optimal whenever some
      valid squad exists, so `Optimize` then returns a valid squad of
      greatest points. */
  lemma {:induction false} ExhaustiveEngineFindsSquad(t: Table, req: Request, y: seq<bool>)
    requires Rectangular(t) && req.column in t.columns
    requires |y| == |t.rows| && ValidSquad(t.rows, req, y)
    ensures ReferenceSolver.Solve(Model(t, req).value).status == Optimal
  {
    ModelMatchesRules(t, req, y);
  }
}
