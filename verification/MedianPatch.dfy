/** The linear shortcut under the coordinate median (benchmarks/subject_erasure_suite.py:227-236):
    when exactly it is the retrain, in terms of the other clients' middle values. */
module MedianPatch {
  import opened Common
  import opened LinearAlgebra
  import opened SuffStats
  import opened LocalSolve
  import opened Federation
  import opened Erasure
  import opened InterceptFederation
  import opened LinearPatch
  import opened OrderStatistics

  /** Confined to the middle of the others, the value moves by its share of its own move: a share of
      one client for an odd number of clients, of two for an even one. */
  predicate MovesByItsShare(o: seq<real>, x: real, y: real) {
    var n := |o| + 1;
    Confined(o, x) - Confined(o, y) == (if n % 2 == 1 then x - y else 2.0 * (x - y)) / (n as real)
  }

  /** One entry of the model. */
  lemma MedianRespondsExactly(es: seq<real>, k: nat, x: real)
    requires k < |es|
    ensures RespondsLinearly(Median, es, k, x) <==> MovesByItsShare(OthersSorted(es, k), x, es[k])
  {
    hide Median, OthersSorted, Confined;
    MedianMoves(es, k, x);
    var o := OthersSorted(es, k);
    ShareOfMove(|es|, x - es[k], Confined(o, x) - Confined(o, es[k]));
  }

  lemma ShareOfMove(n: nat, d: real, moved: real)
    requires n > 0
    ensures moved == Times(Share(n), d) <==> moved == d / (n as real)
    ensures moved / 2.0 == Times(Share(n), d) <==> moved == (2.0 * d) / (n as real)
  {
    var m := n as real;
    assert (1.0 / m) * d == d / m;
    assert (2.0 * d) / m == 2.0 * (d / m);
  }

  /** With three clients or more that takes a move into or out of the middle: neither a move inside
      it nor one that stays on its side of it will do. */
  lemma ShareNeedsACrossing(o: seq<real>, x: real, y: real)
    requires Ascending(o) && |o| >= 2 && MovesByItsShare(o, x, y) && x != y
    ensures !SameSide(o, x, y)
    ensures var lo, hi := o[|o| / 2 - 1], o[(|o| + 1) / 2]; !(lo <= x <= hi && lo <= y <= hi)
  {
    var m := (|o| + 1) as real;
    ProperShare(1.0, m, x - y);
    ProperShare(2.0, m, x - y);
    assert SameSide(o, x, y) ==> Confined(o, x) == Confined(o, y);
  }

  lemma ProperShare(a: real, m: real, d: real)
    requires 0.0 < a < m && d != 0.0
    ensures (a * d) / m != 0.0 && (a * d) / m != d
  {
    var share := (a * d) / m;
    assert share * m == a * d;
    assert d > 0.0 ==> 0.0 < a * d < m * d;
    assert d < 0.0 ==> m * d < a * d < 0.0;
  }

  /** Entry (i, c) of the model under the median, the target's upload replaced by `u`. */
  predicate FollowsTheShare(ups: seq<Mat>, target: nat, u: Mat, p: nat, s: nat, i: nat, c: nat)
    requires IsMats(ups, p, s) && target < |ups| && IsMat(u, p, s) && i < p && c < s
  {
    var es := Entries(ups, p, s, i, c);
    MovesByItsShare(OthersSorted(es, target), u[i][c], es[target])
  }

  /** The exact condition under the coordinate median at one round, for any number of clients: the
      patch is the retrain if and only if, in every entry of the model, the target's new upload,
      confined to the middle of the other clients' uploads, moved by its share of its own move. */
  lemma MedianPatchExactly(l: Learner, pop: seq<Row>, clients: seq<seq<nat>>, target: nat, subject: nat)
    requires Summarises(l, Median) && Patchable(l, pop, clients, target, subject)
    ensures var stats, kept := StatsOf(pop, clients, l.p, l.s), Kept(pop, clients, target, subject, l.p, l.s);
            var erased, zero := Downdate(stats[target], pop[subject], l.p, l.s), ZeroMat(l.p, l.s);
            && Trained(l, stats, 1).Ok? && Trained(l, kept, 1).Ok? && erased.Ok?
            && Uploads(l, zero, stats).Ok? && ProxUpdate(zero, erased.value, l.solve, l.p, l.s).Ok?
            && var ups, u := Uploads(l, zero, stats).value, ProxUpdate(zero, erased.value, l.solve, l.p, l.s).value;
            (Patch(l, Trained(l, stats, 1).value, erased.value, target, |clients|) == Ok(Trained(l, kept, 1).value.w)
             <==> forall i, c :: 0 <= i < l.p && 0 <= c < l.s ==> FollowsTheShare(ups, target, u, l.p, l.s, i, c))
  {
    EntrywisePatchExactly(l, Median, pop, clients, target, subject);
    hide Trained, Patch, Downdate, StatsOf, Kept, Summarises, Patchable, IsMat, IsStat, ProxUpdate, ZeroMat, RespondsLinearly,
         MovesByItsShare, OthersSorted, IsSolver, IsAggregator, IsAdjustment;
    var stats, zero := StatsOf(pop, clients, l.p, l.s), ZeroMat(l.p, l.s);
    var ups := Uploads(l, zero, stats).value;
    var u := ProxUpdate(zero, Downdate(stats[target], pop[subject], l.p, l.s).value, l.solve, l.p, l.s).value;
    forall i, c | 0 <= i < l.p && 0 <= c < l.s
      ensures RespondsLinearly(Median, Entries(ups, l.p, l.s, i, c), target, u[i][c])
              <==> FollowsTheShare(ups, target, u, l.p, l.s, i, c)
    {
      MedianRespondsExactly(Entries(ups, l.p, l.s, i, c), target, u[i][c]);
    }
  }

  /** The coordinate median breaks it at one round already: clients with gains {0}, {5} and {10, 40}
      in the first subband, the last subject erased. */
  lemma MedianBreaksThePatch(l: Learner, pop: seq<Row>, clients: seq<seq<nat>>)
    requires l.Valid() && l.agg == CoordinateMedian(l.p, l.s) && l.adjust == AsUploaded && IsShipped(l)
    requires pop == [FirstSubband(0.0), FirstSubband(5.0), FirstSubband(10.0), FirstSubband(40.0)]
    requires clients == [[0], [1], [2, 3]]
    ensures Patchable(l, pop, clients, 2, 3)
    ensures var stats, kept := StatsOf(pop, clients, l.p, l.s), Kept(pop, clients, 2, 3, l.p, l.s);
            var erased := Downdate(stats[2], pop[3], l.p, l.s);
            && Trained(l, stats, 1).Ok? && Trained(l, kept, 1).Ok? && erased.Ok?
            && Patch(l, Trained(l, stats, 1).value, erased.value, 2, 3) != Ok(Trained(l, kept, 1).value.w)
  {
    assert Summarises(l, Median);
    OneOfTwoErased(2, 3);
    hide Trained, Patch, Downdate, StatOf, ProxUpdate, Without, Multiplicity, Summarises, Patchable, StatsOf, Kept,
         IsSolver, IsAggregator, IsAdjustment, FollowsTheShare, IsMat, IsMats;
    MedianUploads(l, pop, clients);
    MedianPatchExactly(l, pop, clients, 2, 3);
    OutlierIgnored(l, pop, clients);
  }

  lemma OutlierIgnored(l: Learner, pop: seq<Row>, clients: seq<seq<nat>>)
    requires Summarises(l, Median) && IsShipped(l) && Patchable(l, pop, clients, 2, 3)
    requires var stats, zero := StatsOf(pop, clients, l.p, l.s), ZeroMat(l.p, l.s);
             var erased := Downdate(stats[2], pop[3], l.p, l.s);
             && erased.Ok? && Uploads(l, zero, stats).Ok? && ProxUpdate(zero, erased.value, l.solve, l.p, l.s).Ok?
             && Entries(Uploads(l, zero, stats).value, l.p, l.s, 5, 0) == [0.0, 1.0, 5.0]
             && ProxUpdate(zero, erased.value, l.solve, l.p, l.s).value[5][0] == 2.0
    ensures var stats, zero := StatsOf(pop, clients, l.p, l.s), ZeroMat(l.p, l.s);
            var u := ProxUpdate(zero, Downdate(stats[2], pop[3], l.p, l.s).value, l.solve, l.p, l.s).value;
            !FollowsTheShare(Uploads(l, zero, stats).value, 2, u, l.p, l.s, 5, 0)
  {
    hide Downdate, StatsOf, ProxUpdate, Uploads, ZeroMat, Entries, MovesByItsShare, OthersSorted, IsSolver, IsAggregator, IsAdjustment;
    OutlierStaysOutside();
  }

  /** The uploads for the first subband, and the target's new one. */
  lemma MedianUploads(l: Learner, pop: seq<Row>, clients: seq<seq<nat>>)
    requires l.Valid() && Summarises(l, Median) && IsShipped(l)
    requires pop == [FirstSubband(0.0), FirstSubband(5.0), FirstSubband(10.0), FirstSubband(40.0)]
    requires clients == [[0], [1], [2, 3]] && Without([2, 3], 3) == [2] && Multiplicity([2, 3], 3) == 1
    ensures Patchable(l, pop, clients, 2, 3)
    ensures var stats, zero := StatsOf(pop, clients, l.p, l.s), ZeroMat(l.p, l.s);
            var erased := Downdate(stats[2], pop[3], l.p, l.s);
            && erased.Ok? && Uploads(l, zero, stats).Ok? && ProxUpdate(zero, erased.value, l.solve, l.p, l.s).Ok?
            && Entries(Uploads(l, zero, stats).value, l.p, l.s, 5, 0) == [0.0, 1.0, 5.0]
            && ProxUpdate(zero, erased.value, l.solve, l.p, l.s).value[5][0] == 2.0
  {
    FirstUpload(l, 0.0, 0.0);
    FirstUpload(l, 5.0, 0.0);
    FirstUpload(l, 10.0, 40.0);
    assert RowsOf(pop, [0]) == [pop[0]] && RowsOf(pop, [1]) == [pop[1]];
    assert RowsOf(pop, [2, 3]) == [pop[2], pop[3]] && RowsOf(pop, [2]) == [pop[2]];
    hide Trained, Downdate, StatOf, ProxUpdate, Summarises, IsSolver, IsAggregator, IsAdjustment, Without, Multiplicity;
    var stats, zero := StatsOf(pop, clients, l.p, l.s), ZeroMat(l.p, l.s);
    ErasureSetup(l, Median, pop, clients, 2, 3, 1);
    assert KeptClients(clients, 2, 3)[2] == [2];
    assert Kept(pop, clients, 2, 3, l.p, l.s)[2] == StatOf([pop[2]], l.p, l.s);
    ThreeUploads(l, stats, zero);
  }

  lemma ThreeUploads(l: Learner, stats: seq<Stat>, zero: Mat)
    requires l.Valid() && IsShipped(l) && zero == ZeroMat(l.p, l.s) && IsStats(stats, l.p, l.s) && |stats| == 3
    requires forall k :: 0 <= k < 3 ==> ProxUpdate(zero, stats[k], l.solve, l.p, l.s).Ok?
    requires ProxUpdate(zero, stats[0], l.solve, l.p, l.s).value[5][0] == 0.0
    requires ProxUpdate(zero, stats[1], l.solve, l.p, l.s).value[5][0] == 1.0
    requires ProxUpdate(zero, stats[2], l.solve, l.p, l.s).value[5][0] == 5.0
    ensures Uploads(l, zero, stats).Ok?
    ensures Entries(Uploads(l, zero, stats).value, l.p, l.s, 5, 0) == [0.0, 1.0, 5.0]
  {
    hide ProxUpdate, IsSolver, IsAggregator, IsAdjustment, ZeroMat;
    UploadsSucceed(l, zero, stats);
    UploadIsLocal(l, zero, stats, 0);
    UploadIsLocal(l, zero, stats, 1);
    UploadIsLocal(l, zero, stats, 2);
  }

  /** The new upload stays above the middle of the other two. */
  lemma OutlierStaysOutside()
    ensures !MovesByItsShare(OthersSorted([0.0, 1.0, 5.0], 2), 2.0, 5.0)
  {
    assert RemoveAt([0.0, 1.0, 5.0], 2) == [0.0, 1.0];
    assert [0.0, 1.0][1..] == [1.0] && [1.0][1..] == [];
    assert Sorted([1.0]) == [1.0];
    assert Sorted([0.0, 1.0]) == [0.0, 1.0];
  }
}
