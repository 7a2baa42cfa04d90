/** Federated training round by round (benchmarks/subject_erasure_suite.py:113-126): where a run starts,
    what every client sends, and by how much each round moves the model. */
module TrainingRounds {
  import opened Common
  import opened LinearAlgebra
  import opened SuffStats
  import opened LocalSolve
  import opened Federation
  import opened LinearPatch
  import opened OrderStatistics

  /** How a round moves one entry of the model, given what the clients sent for it. */
  type Movement = (seq<real>, real) -> bool

  /** The sum of the values is as many times the movement as there are values. */
  function ByTheirMean(): Movement {
    (sent: seq<real>, moved: real) => Sum(sent) == |sent| as real * moved
  }

  /** The movement is the middle one of the values, or halfway between the two middle ones. */
  ghost function ByTheirMiddle(): Movement {
    (sent: seq<real>, moved: real) => IsMiddle(sent, moved)
  }

  ghost predicate EntryMoves(w: Mat, w': Mat, ups: seq<Mat>, p: nat, s: nat, i: nat, c: nat, moves: Movement)
    requires IsMat(w, p, s) && IsMat(w', p, s) && IsMats(ups, p, s) && i < p && c < s
  {
    moves(Entries(ups, p, s, i, c), w'[i][c] - w[i][c])
  }

  /** Every client steps from w, and every entry of w moves by what was sent for it. */
  ghost predicate IsRound(l: Learner, stats: seq<Stat>, w: Mat, ups: seq<Mat>, w': Mat, moves: Movement)
    requires l.Valid() && IsStats(stats, l.p, l.s)
  {
    && IsMat(w, l.p, l.s) && IsMat(w', l.p, l.s) && IsMats(ups, l.p, l.s) && |ups| == |stats|
    && (forall k :: 0 <= k < |stats| ==> ProxUpdate(w, stats[k], l.solve, l.p, l.s) == Ok(ups[k]))
    && (forall i, c :: 0 <= i < l.p && 0 <= c < l.s ==> EntryMoves(w, w', ups, l.p, l.s, i, c, moves))
  }

  /** A run from the zero model through `models`, with what was sent in every round. */
  ghost predicate IsTraining(l: Learner, stats: seq<Stat>, models: seq<Mat>, trace: seq<seq<Mat>>, moves: Movement)
    requires l.Valid() && IsStats(stats, l.p, l.s)
  {
    && |models| == |trace| + 1 && IsMat(models[0], l.p, l.s)
    && (forall i, c :: 0 <= i < l.p && 0 <= c < l.s ==> models[0][i][c] == 0.0)
    && (forall r :: 0 <= r < |trace| ==> IsRound(l, stats, models[r], trace[r], models[r + 1], moves))
  }

  /** The movement an aggregator's summary makes is of the kind `moves`. */
  ghost predicate MakesMoves(summary: seq<real> -> real, moves: Movement) {
    forall sent :: sent != [] ==> moves(sent, summary(sent))
  }

  lemma MeanMoves()
    ensures MakesMoves(Average, ByTheirMean())
  {
    hide Sum;
  }

  lemma MiddleMoves()
    ensures MakesMoves(Median, ByTheirMiddle())
  {
    hide IsMiddle, Median;
    forall sent: seq<real> | sent != []
      ensures ByTheirMiddle()(sent, Median(sent))
    {
      MedianIsMiddle(sent);
    }
  }

  lemma SummaryMoves(w: Mat, ups: seq<Mat>, p: nat, s: nat, summary: seq<real> -> real, moves: Movement, i: nat, c: nat)
    requires IsMat(w, p, s) && IsMats(ups, p, s) && ups != [] && i < p && c < s && MakesMoves(summary, moves)
    ensures EntryMoves(w, MatAdd(w, Entrywise(ups, p, s, summary), p, s), ups, p, s, i, c, moves)
  {
    var sent := Entries(ups, p, s, i, c);
    assert Entrywise(ups, p, s, summary)[i][c] == summary(sent);
    assert moves(sent, summary(sent));
  }

  /** Training succeeds through these models, and its trace is what the clients sent from them. */
  lemma {:induction false} TrainingRunsThrough(l: Learner, summary: seq<real> -> real, moves: Movement,
                                               stats: seq<Stat>, rounds: nat) returns (models: seq<Mat>)
    requires Summarises(l, summary) && MakesMoves(summary, moves)
    requires IsStats(stats, l.p, l.s) && stats != [] && Trained(l, stats, rounds).Ok?
    ensures var run := Trained(l, stats, rounds).value;
            |run.trace| == rounds && IsTraining(l, stats, models, run.trace, moves) && models[rounds] == run.w
    decreases rounds
  {
    hide ProxUpdate, Uploads, Entrywise, MatAdd, MakesMoves, EntryMoves, IsSolver, IsAggregator, IsAdjustment, IsStat;
    var run := Trained(l, stats, rounds).value;
    if rounds == 0 {
      models := [run.w];
    } else {
      LastRound(l, summary, stats, rounds);
      var before := Trained(l, stats, rounds - 1).value;
      var earlier := TrainingRunsThrough(l, summary, moves, stats, rounds - 1);
      models := earlier + [run.w];
      var ups := run.trace[rounds - 1];
      forall k | 0 <= k < |stats|
        ensures ProxUpdate(before.w, stats[k], l.solve, l.p, l.s) == Ok(ups[k])
      {
        UploadIsLocal(l, before.w, stats, k);
      }
      forall i, c | 0 <= i < l.p && 0 <= c < l.s
        ensures EntryMoves(before.w, run.w, ups, l.p, l.s, i, c, moves)
      {
        SummaryMoves(before.w, ups, l.p, l.s, summary, moves, i, c);
      }
      assert IsRound(l, stats, before.w, ups, run.w, moves);
    }
  }

  /** Under the mean. */
  lemma MeanTraining(l: Learner, stats: seq<Stat>, rounds: nat) returns (models: seq<Mat>)
    requires Summarises(l, Average) && IsStats(stats, l.p, l.s) && stats != [] && Trained(l, stats, rounds).Ok?
    ensures var run := Trained(l, stats, rounds).value;
            |run.trace| == rounds && IsTraining(l, stats, models, run.trace, ByTheirMean()) && models[rounds] == run.w
  {
    MeanMoves();
    hide *;
    models := TrainingRunsThrough(l, Average, ByTheirMean(), stats, rounds);
  }

  /** Under the coordinate median. */
  lemma MedianTraining(l: Learner, stats: seq<Stat>, rounds: nat) returns (models: seq<Mat>)
    requires Summarises(l, Median) && IsStats(stats, l.p, l.s) && stats != [] && Trained(l, stats, rounds).Ok?
    ensures var run := Trained(l, stats, rounds).value;
            |run.trace| == rounds && IsTraining(l, stats, models, run.trace, ByTheirMiddle()) && models[rounds] == run.w
  {
    MiddleMoves();
    hide *;
    models := TrainingRunsThrough(l, Median, ByTheirMiddle(), stats, rounds);
  }
}
