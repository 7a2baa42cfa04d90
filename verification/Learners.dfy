/** The learners the federation theorems speak of exist: Gaussian elimination solves the local
    systems, and the mean and the coordinate median aggregate. */
module Learners {
  import opened LinearAlgebra
  import opened LocalSolve
  import opened Federation
  import opened Elimination
  import opened LinearPatch

  /** A learner with either aggregator, its uploads sent as computed. */
  function EntrywiseLearner(p: nat, s: nat, summary: seq<real> -> real): Learner {
    Learner(p, s, GaussianSolver(p, s), Aggregate(p, s, summary), AsUploaded)
  }

  lemma EntrywiseLearnerSummarises(p: nat, s: nat, summary: seq<real> -> real)
    ensures Summarises(EntrywiseLearner(p, s, summary), summary)
  {
    GaussianSolverIsSolver(p, s);
    AggregateIsAggregator(p, s, summary);
    hide IsSolver, IsAggregator;
    forall ups | IsMats(ups, p, s)
      ensures KeepsShapes(AsUploaded, p, s, ups)
    {
    }
  }

  lemma LearnersExist(p: nat, s: nat)
    ensures AveragesUploads(EntrywiseLearner(p, s, Average)) && EntrywiseLearner(p, s, Average).agg == FedAvg(p, s)
    ensures Summarises(EntrywiseLearner(p, s, Median), Median) && EntrywiseLearner(p, s, Median).agg == CoordinateMedian(p, s)
  {
    EntrywiseLearnerSummarises(p, s, Average);
    EntrywiseLearnerSummarises(p, s, Median);
  }
}
