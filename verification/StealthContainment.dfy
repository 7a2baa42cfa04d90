/** When containment survives what is done to the uploads on the way (benchmarks/
    federated_unlearning_suite.py:91-122): for every rescaling, every entrywise aggregator and any
    number of rounds, and what that means for norm matching under the mean and under the median. */
module StealthContainment {
  import opened Common
  import opened LinearAlgebra
  import opened SuffStats
  import opened LocalSolve
  import opened Federation
  import opened Erasure
  import opened MeanOfSteps
  import opened LinearPatch
  import opened Unlearning
  import opened ReplayExactness
  import opened Containment
  import opened OrderStatistics

  // ----- Any adjustment, any entrywise aggregator, any number of rounds -----

  /** In every entry of subband c the uploads sent have the summary of the uploads computed. */
  ghost predicate KeepsSummary(summary: seq<real> -> real, ups: seq<Mat>, sent: seq<Mat>, p: nat, s: nat, c: nat)
    requires IsMats(ups, p, s) && IsMats(sent, p, s) && c < s
  {
    forall i :: 0 <= i < p ==> summary(Entries(sent, p, s, i, c)) == summary(Entries(ups, p, s, i, c))
  }

  /** An attacked and an honest run that never fail, on statistics that agree on subband c. */
  ghost predicate Compared(l: Learner, summary: seq<real> -> real, stats: seq<Stat>, stats': seq<Stat>, c: nat) {
    && Entrywisely(l, summary) && Plain(l).Valid() && c < l.s
    && IsStats(stats, l.p, l.s) && IsStats(stats', l.p, l.s) && |stats| == |stats'| > 0
    && AllAgree(stats, stats', l.p, l.s, c)
    && NeverFails(l, stats) && NeverFails(Plain(l), stats')
  }

  /** After r rounds subband c is what the honest federation learns. */
  ghost predicate Contained(l: Learner, summary: seq<real> -> real, stats: seq<Stat>, stats': seq<Stat>, c: nat, r: nat)
    requires Compared(l, summary, stats, stats', c)
  {
    && Trained(l, stats, r).Ok? && Trained(Plain(l), stats', r).Ok?
    && Agree(Trained(l, stats, r).value.w, Trained(Plain(l), stats', r).value.w, l.p, l.s, c)
  }

  /** The attacked run's next round sends what keeps the summaries of what its clients computed. */
  ghost predicate QuietRound(l: Learner, summary: seq<real> -> real, stats: seq<Stat>, stats': seq<Stat>, c: nat, r: nat)
    requires Compared(l, summary, stats, stats', c)
  {
    && Trained(l, stats, r).Ok? && Uploads(l, Trained(l, stats, r).value.w, stats).Ok?
    && var ups := Uploads(l, Trained(l, stats, r).value.w, stats).value;
    KeepsShapes(l.adjust, l.p, l.s, ups) && KeepsSummary(summary, ups, l.adjust(ups), l.p, l.s, c)
  }

  /** One round on agreeing models and uploads. */
  lemma RoundKeepsSubband(w: Mat, w': Mat, ups: seq<Mat>, ups': seq<Mat>, sent: seq<Mat>, p: nat, s: nat, c: nat, summary: seq<real> -> real)
    requires IsMat(w, p, s) && IsMat(w', p, s) && IsMats(ups, p, s) && IsMats(ups', p, s) && IsMats(sent, p, s) && c < s
    requires Agree(w, w', p, s, c) && UploadsAgree(ups, ups', p, s, c)
    ensures Agree(MatAdd(w, Entrywise(sent, p, s, summary), p, s), MatAdd(w', Entrywise(ups', p, s, summary), p, s), p, s, c)
            <==> KeepsSummary(summary, ups, sent, p, s, c)
  {
    var m, m' := MatAdd(w, Entrywise(sent, p, s, summary), p, s), MatAdd(w', Entrywise(ups', p, s, summary), p, s);
    AggregateBySubband(ups, ups', p, s, c, summary);
    hide Entries, UploadsAgree;
    forall i | 0 <= i < p
      ensures Column(m, p, s, c)[i] == Column(m', p, s, c)[i]
              <==> summary(Entries(sent, p, s, i, c)) == summary(Entries(ups, p, s, i, c))
    {
      AgreeEntry(w, w', p, s, c, i);
      AgreeEntry(Entrywise(ups, p, s, summary), Entrywise(ups', p, s, summary), p, s, c, i);
    }
  }

  lemma NextContained(l: Learner, summary: seq<real> -> real, stats: seq<Stat>, stats': seq<Stat>, c: nat, r: nat)
    requires Compared(l, summary, stats, stats', c) && Contained(l, summary, stats, stats', c, r)
    ensures Contained(l, summary, stats, stats', c, r + 1) <==> QuietRound(l, summary, stats, stats', c, r)
  {
    assert Trained(l, stats, r + 1).Ok? && Trained(Plain(l), stats', r + 1).Ok?;
    var w, w' := Trained(l, stats, r).value.w, Trained(Plain(l), stats', r).value.w;
    SentRound(l, summary, stats, r);
    LastRound(Plain(l), summary, stats', r + 1);
    SameUploads(l, Plain(l), w', stats');
    hide NeverFails, Trained, Uploads, Agree, AllAgree, UploadsAgree, KeepsSummary, Entrywise, MatAdd, IsMat, IsStat, IsStats,
         IsSolver, IsAggregator, IsAdjustment;
    UploadsBySubband(l, w, w', stats, stats', c);
    var ups := Uploads(l, w, stats).value;
    RoundKeepsSubband(w, w', ups, Uploads(l, w', stats').value, l.adjust(ups), l.p, l.s, c, summary);
  }

  /** The model of one more round, whatever is done to the uploads. */
  lemma SentRound(l: Learner, summary: seq<real> -> real, stats: seq<Stat>, r: nat)
    requires Entrywisely(l, summary) && IsStats(stats, l.p, l.s) && stats != []
    requires Trained(l, stats, r).Ok? && Trained(l, stats, r + 1).Ok?
    ensures Uploads(l, Trained(l, stats, r).value.w, stats).Ok?
    ensures var w := Trained(l, stats, r).value.w;
            var ups := Uploads(l, w, stats).value;
            && KeepsShapes(l.adjust, l.p, l.s, ups)
            && Trained(l, stats, r + 1).value.w == MatAdd(w, Entrywise(l.adjust(ups), l.p, l.s, summary), l.p, l.s)
  {
    var run := Trained(l, stats, r).value;
    hide Uploads, Round, Entrywise, MatAdd, IsMat, IsStat, IsSolver, IsAggregator;
    RoundOfNothing(l, stats, run);
    RoundOf(l, stats, run);
    assert KeepsShapes(l.adjust, l.p, l.s, Uploads(l, run.w, stats).value);
  }

  lemma ContainedAtFirst(l: Learner, summary: seq<real> -> real, stats: seq<Stat>, stats': seq<Stat>, c: nat)
    requires Compared(l, summary, stats, stats', c)
    ensures Contained(l, summary, stats, stats', c, 0)
  {
  }

  /** Round after round: the subband is contained as long as every round is quiet on it. */
  lemma {:induction false} RoundsContained(l: Learner, summary: seq<real> -> real, stats: seq<Stat>, stats': seq<Stat>, c: nat, rounds: nat)
    requires Compared(l, summary, stats, stats', c)
    ensures (forall r :: 0 <= r <= rounds ==> Contained(l, summary, stats, stats', c, r))
            <==> (forall r :: 0 <= r < rounds ==> QuietRound(l, summary, stats, stats', c, r))
    decreases rounds
  {
    hide Compared, Contained, QuietRound;
    if rounds == 0 {
      ContainedAtFirst(l, summary, stats, stats', c);
    } else {
      RoundsContained(l, summary, stats, stats', c, rounds - 1);
      if Contained(l, summary, stats, stats', c, rounds - 1) {
        NextContained(l, summary, stats, stats', c, rounds - 1);
      }
    }
  }

  // ----- The suite's federation -----

  /** A falsified federation whose clients all hold data, its uploads treated in any way. */
  ghost predicate Attacked(l: Learner, summary: seq<real> -> real, pop: seq<Row>, clients: seq<seq<nat>>, attack: Attack, c: nat) {
    && Entrywisely(l, summary) && IsRows(pop, l.p, l.s) && IsFederation(clients, |pop|) && EveryoneHoldsData(clients)
    && clients != [] && attack.scale != 0.0 && c < l.s && c != TARGET_SUBBAND
  }

  lemma AttackedIsCompared(l: Learner, summary: seq<real> -> real, pop: seq<Row>, clients: seq<seq<nat>>, attack: Attack, c: nat)
    requires Attacked(l, summary, pop, clients, attack, c)
    ensures Compared(l, summary, ReportedStats(pop, clients, attack, l.p, l.s), StatsOf(pop, clients, l.p, l.s), c)
  {
    PlainIsValid(l);
    hide Trained, ReportedStats, StatsOf, AllAgree, IsRows, IsSolver, IsAggregator, IsAdjustment;
    ReportsAgree(pop, clients, attack, l.p, l.s, c);
    forall r: nat
      ensures Trained(l, ReportedStats(pop, clients, attack, l.p, l.s), r).Ok?
      ensures Trained(Plain(l), StatsOf(pop, clients, l.p, l.s), r).Ok?
    {
      BothTrain(l, summary, pop, clients, attack, r);
      BothTrain(Plain(l), summary, pop, clients, attack, r);
    }
  }

  /** The exact condition, for any number of liars and rounds, any entrywise aggregator and any treatment
      of the uploads: subband c is what the honest federation learns after every round if and only if
      in every round, in every entry of c, the uploads sent have the summary of the uploads computed. */
  lemma ContainedExactly(l: Learner, summary: seq<real> -> real, pop: seq<Row>, clients: seq<seq<nat>>, attack: Attack, c: nat, rounds: nat)
    requires Attacked(l, summary, pop, clients, attack, c)
    ensures var stats, stats' := ReportedStats(pop, clients, attack, l.p, l.s), StatsOf(pop, clients, l.p, l.s);
            && Compared(l, summary, stats, stats', c)
            && ((forall r :: 0 <= r <= rounds ==> Contained(l, summary, stats, stats', c, r))
                <==> (forall r :: 0 <= r < rounds ==> QuietRound(l, summary, stats, stats', c, r)))
  {
    AttackedIsCompared(l, summary, pop, clients, attack, c);
    RoundsContained(l, summary, ReportedStats(pop, clients, attack, l.p, l.s), StatsOf(pop, clients, l.p, l.s), c, rounds);
  }

  // ----- Norm matching under the mean -----

  /** By how much the rescaling changes entry (i, c) of upload k. */
  function Change(norm: Norm, honest: real, ups: seq<Mat>, malicious: set<nat>, p: nat, s: nat, i: nat, c: nat, k: nat): real
    requires IsMats(ups, p, s) && i < p && c < s && k < |ups|
  {
    if k in malicious && norm(ups[k]) > 0.0 then Times(honest / norm(ups[k]) - 1.0, ups[k][i][c]) else 0.0
  }

  function Changes(norm: Norm, ups: seq<Mat>, malicious: set<nat>, p: nat, s: nat, i: nat, c: nat): (ds: seq<real>)
    requires IsMats(ups, p, s) && i < p && c < s
    ensures |ds| == |ups|
  {
    seq(|ups|, k requires 0 <= k < |ups| => Change(norm, HonestNorm(norm, ups, malicious), ups, malicious, p, s, i, c, k))
  }

  lemma EntryChanges(norm: Norm, ups: seq<Mat>, malicious: set<nat>, p: nat, s: nat, i: nat, c: nat, k: nat)
    requires IsMats(ups, p, s) && i < p && c < s && k < |ups|
    ensures var sent := NormMatched(norm, malicious, p, s)(ups);
            |sent| == |ups| && IsMats(sent, p, s)
            && sent[k][i][c] == ups[k][i][c] + Changes(norm, ups, malicious, p, s, i, c)[k]
  {
    hide HonestNorm;
    if k in malicious && norm(ups[k]) > 0.0 {
      OneLess(HonestNorm(norm, ups, malicious) / norm(ups[k]), ups[k][i][c]);
    }
  }

  lemma OneLess(q: real, x: real)
    ensures Times(q, x) == x + Times(q - 1.0, x)
  {
  }

  lemma {:induction false} SumOfChanged(es: seq<real>, ds: seq<real>, fs: seq<real>)
    requires |es| == |ds| == |fs| && forall k :: 0 <= k < |es| ==> fs[k] == es[k] + ds[k]
    ensures Sum(fs) == Sum(es) + Sum(ds)
  {
    if es != [] {
      var n := |es| - 1;
      SumOfChanged(es[..n], ds[..n], fs[..n]);
    }
  }

  /** In every entry of c the rescalings' changes add up to zero. */
  ghost predicate RescalingsCancel(norm: Norm, ups: seq<Mat>, malicious: set<nat>, p: nat, s: nat, c: nat)
    requires IsMats(ups, p, s) && c < s
  {
    forall i :: 0 <= i < p ==> Sum(Changes(norm, ups, malicious, p, s, i, c)) == 0.0
  }

  /** Under the mean a round is quiet exactly when the rescalings' changes of every entry of c cancel. */
  lemma QuietMeanExactly(norm: Norm, ups: seq<Mat>, malicious: set<nat>, p: nat, s: nat, c: nat)
    requires IsMats(ups, p, s) && ups != [] && c < s
    ensures IsMats(NormMatched(norm, malicious, p, s)(ups), p, s)
    ensures KeepsSummary(Average, ups, NormMatched(norm, malicious, p, s)(ups), p, s, c)
            <==> RescalingsCancel(norm, ups, malicious, p, s, c)
  {
    var sent := NormMatched(norm, malicious, p, s)(ups);
    assert |sent| == |ups| && IsMats(sent, p, s);
    hide NormMatched, Sum, Average, Changes;
    forall i | 0 <= i < p
      ensures Average(Entries(sent, p, s, i, c)) == Average(Entries(ups, p, s, i, c))
              <==> Sum(Changes(norm, ups, malicious, p, s, i, c)) == 0.0
    {
      MeanChanges(norm, ups, malicious, p, s, i, c);
    }
  }

  lemma MeanChanges(norm: Norm, ups: seq<Mat>, malicious: set<nat>, p: nat, s: nat, i: nat, c: nat)
    requires IsMats(ups, p, s) && ups != [] && i < p && c < s
    ensures var sent := NormMatched(norm, malicious, p, s)(ups);
            |sent| == |ups| && IsMats(sent, p, s)
            && (Average(Entries(sent, p, s, i, c)) == Average(Entries(ups, p, s, i, c))
                <==> Sum(Changes(norm, ups, malicious, p, s, i, c)) == 0.0)
  {
    hide NormMatched, Sum, Changes, Entries;
    SumsChange(norm, ups, malicious, p, s, i, c);
    SameMean(Sum(Entries(ups, p, s, i, c)), Sum(Changes(norm, ups, malicious, p, s, i, c)), |ups|);
  }

  lemma SumsChange(norm: Norm, ups: seq<Mat>, malicious: set<nat>, p: nat, s: nat, i: nat, c: nat)
    requires IsMats(ups, p, s) && i < p && c < s
    ensures var sent := NormMatched(norm, malicious, p, s)(ups);
            |sent| == |ups| && IsMats(sent, p, s)
            && Sum(Entries(sent, p, s, i, c)) == Sum(Entries(ups, p, s, i, c)) + Sum(Changes(norm, ups, malicious, p, s, i, c))
  {
    var sent := NormMatched(norm, malicious, p, s)(ups);
    assert |sent| == |ups| && IsMats(sent, p, s);
    var es, ds, fs := Entries(ups, p, s, i, c), Changes(norm, ups, malicious, p, s, i, c), Entries(sent, p, s, i, c);
    hide NormMatched, Sum, Changes;
    forall k | 0 <= k < |ups|
      ensures fs[k] == es[k] + ds[k]
    {
      EntryChanges(norm, ups, malicious, p, s, i, c, k);
    }
    SumOfChanged(es, ds, fs);
  }

  lemma SameMean(a: real, d: real, n: nat)
    requires n > 0
    ensures (a + d) / (n as real) == a / (n as real) <==> d == 0.0
  {
    var m := n as real;
    assert (a + d) / m == a / m + d / m;
    assert d == (d / m) * m;
  }

  // ----- One liar -----

  /** A rescaled entry is unchanged exactly when the scale is one or the entry is zero. */
  lemma ScaledEntry(honest: real, n: real, x: real)
    requires n > 0.0
    ensures Times(honest / n, x) == x <==> honest == n || x == 0.0
  {
    var q := honest / n;
    assert q * n == honest;
    assert q * x - x == (q - 1.0) * x;
    if q * x == x && x != 0.0 {
      assert q == (q * x) / x == 1.0;
    }
  }

  lemma MatchedColumn(norm: Norm, honest: real, u: Mat, p: nat, s: nat, c: nat)
    requires IsMat(u, p, s) && c < s
    ensures (forall i :: 0 <= i < p ==> Matched(norm, honest, u, p, s)[i][c] == u[i][c])
            <==> norm(u) <= 0.0 || honest == norm(u) || Column(u, p, s, c) == Zeros(p)
  {
    if norm(u) > 0.0 {
      hide Times;
      forall i | 0 <= i < p
        ensures Matched(norm, honest, u, p, s)[i][c] == u[i][c] <==> honest == norm(u) || Column(u, p, s, c)[i] == 0.0
      {
        ScaledEntry(honest, norm(u), u[i][c]);
      }
      if Column(u, p, s, c) == Zeros(p) {
        assert forall i :: 0 <= i < p ==> Column(u, p, s, c)[i] == Zeros(p)[i] == 0.0;
      }
    }
  }

  lemma OneMatched(norm: Norm, ups: seq<Mat>, k: nat, p: nat, s: nat)
    requires IsMats(ups, p, s) && k < |ups|
    ensures NormMatched(norm, {k}, p, s)(ups) == ups[k := Matched(norm, HonestNorm(norm, ups, {k}), ups[k], p, s)]
  {
    hide Matched, HonestNorm;
  }

  /** With one liar, one value of every entry is replaced. */
  lemma OneEntryReplaced(norm: Norm, ups: seq<Mat>, k: nat, p: nat, s: nat, i: nat, c: nat)
    requires IsMats(ups, p, s) && k < |ups| && i < p && c < s
    ensures var sent := NormMatched(norm, {k}, p, s)(ups);
            && |sent| == |ups| && IsMats(sent, p, s)
            && Entries(sent, p, s, i, c) == Entries(ups, p, s, i, c)[k := sent[k][i][c]]
  {
    OneMatched(norm, ups, k, p, s);
    hide NormMatched, Matched, HonestNorm;
  }

  /** The lying upload is zero, has the honest median norm already, or is zero in subband c. */
  ghost predicate RescalingIsVoid(norm: Norm, ups: seq<Mat>, k: nat, p: nat, s: nat, c: nat)
    requires IsMats(ups, p, s) && k < |ups| && c < s
  {
    norm(ups[k]) <= 0.0 || HonestNorm(norm, ups, {k}) == norm(ups[k]) || Column(ups[k], p, s, c) == Zeros(p)
  }

  /** Under the mean one liar's round is quiet exactly when the rescaling is void or the liar has
      nothing to say about c. */
  lemma QuietMeanOfOneLiar(norm: Norm, ups: seq<Mat>, k: nat, p: nat, s: nat, c: nat)
    requires IsMats(ups, p, s) && k < |ups| && c < s
    ensures IsMats(NormMatched(norm, {k}, p, s)(ups), p, s)
    ensures KeepsSummary(Average, ups, NormMatched(norm, {k}, p, s)(ups), p, s, c)
            <==> RescalingIsVoid(norm, ups, k, p, s, c)
  {
    var sent := NormMatched(norm, {k}, p, s)(ups);
    assert |sent| == |ups| && IsMats(sent, p, s);
    OneMatched(norm, ups, k, p, s);
    MatchedColumn(norm, HonestNorm(norm, ups, {k}), ups[k], p, s, c);
    hide NormMatched, Matched, HonestNorm, Average, Entries, Column;
    forall i | 0 <= i < p
      ensures Average(Entries(sent, p, s, i, c)) == Average(Entries(ups, p, s, i, c)) <==> sent[k][i][c] == ups[k][i][c]
    {
      OneEntryMean(norm, ups, k, p, s, i, c);
    }
  }

  lemma OneEntryMean(norm: Norm, ups: seq<Mat>, k: nat, p: nat, s: nat, i: nat, c: nat)
    requires IsMats(ups, p, s) && k < |ups| && i < p && c < s
    ensures var sent := NormMatched(norm, {k}, p, s)(ups);
            && |sent| == |ups| && IsMats(sent, p, s)
            && (Average(Entries(sent, p, s, i, c)) == Average(Entries(ups, p, s, i, c)) <==> sent[k][i][c] == ups[k][i][c])
  {
    OneEntryReplaced(norm, ups, k, p, s, i, c);
    hide NormMatched, Average, Times, Share;
    var es, x := Entries(ups, p, s, i, c), NormMatched(norm, {k}, p, s)(ups)[k][i][c];
    AverageOfReplaced(es, k, x);
    NoShareOfNothing(|ups|, x - es[k]);
    TimesLaws(Share(|ups|), 0.0, 0.0);
  }

  /** In every entry of c the rescaled upload stays on its side of the middle of the others. */
  ghost predicate StaysOnItsSide(norm: Norm, ups: seq<Mat>, k: nat, p: nat, s: nat, c: nat)
    requires IsMats(ups, p, s) && k < |ups| && c < s
  {
    var sent := Matched(norm, HonestNorm(norm, ups, {k}), ups[k], p, s);
    forall i :: 0 <= i < p ==> SameSide(OthersSorted(Entries(ups, p, s, i, c), k), sent[i][c], ups[k][i][c])
  }

  /** Under the median it is quiet exactly when, in every entry of c, the rescaled upload stays on
      its side of the middle of the other clients' uploads. */
  lemma QuietMedianOfOneLiar(norm: Norm, ups: seq<Mat>, k: nat, p: nat, s: nat, c: nat)
    requires IsMats(ups, p, s) && k < |ups| && c < s
    ensures IsMats(NormMatched(norm, {k}, p, s)(ups), p, s)
    ensures KeepsSummary(Median, ups, NormMatched(norm, {k}, p, s)(ups), p, s, c) <==> StaysOnItsSide(norm, ups, k, p, s, c)
  {
    var sent := NormMatched(norm, {k}, p, s)(ups);
    assert |sent| == |ups| && IsMats(sent, p, s);
    OneMatched(norm, ups, k, p, s);
    hide NormMatched, Matched, HonestNorm, Median, SameSide, OthersSorted;
    forall i | 0 <= i < p
      ensures Median(Entries(sent, p, s, i, c)) == Median(Entries(ups, p, s, i, c))
              <==> SameSide(OthersSorted(Entries(ups, p, s, i, c), k), sent[k][i][c], ups[k][i][c])
    {
      OneEntryReplaced(norm, ups, k, p, s, i, c);
      MedianUnmovedExactly(Entries(ups, p, s, i, c), k, sent[k][i][c]);
    }
  }

  // ----- The stealthy attack over whole runs -----

  /** What the clients of the attacked run compute in the round after `r` rounds. */
  ghost function Computed(l: Learner, summary: seq<real> -> real, stats: seq<Stat>, stats': seq<Stat>, c: nat, r: nat): (ups: seq<Mat>)
    requires Compared(l, summary, stats, stats', c)
    ensures |ups| == |stats| && IsMats(ups, l.p, l.s)
    ensures IsAdjustment(l.adjust, l.p, l.s) && KeepsShapes(l.adjust, l.p, l.s, ups)
    ensures QuietRound(l, summary, stats, stats', c, r) <==> KeepsSummary(summary, ups, l.adjust(ups), l.p, l.s, c)
  {
    assert Trained(l, stats, r).Ok? && Trained(l, stats, r + 1).Ok?;
    SentRound(l, summary, stats, r);
    Uploads(l, Trained(l, stats, r).value.w, stats).value
  }

  /** The stealthy runs that neither raise nor turn NaN: there is a liar, a client for every one of
      them, and somebody honest. */
  predicate HasNormToMatch(malicious: set<nat>, clients: nat) {
    malicious != {} && InRange(malicious, clients) && !NobodyHonest(malicious, clients)
  }

  /** Any number of liars and rounds, under the mean: a subband nobody lied about is contained after
      every round if and only if in every round the rescalings' changes of it cancel. */
  lemma StealthUnderTheMean(l: Learner, norm: Norm, pop: seq<Row>, clients: seq<seq<nat>>, attack: Attack, c: nat, rounds: nat)
    requires Attacked(l, Average, pop, clients, attack, c) && HasNormToMatch(attack.malicious, |clients|)
    ensures var sender := Sender(l, norm, attack.malicious, true);
            var stats, stats' := ReportedStats(pop, clients, attack, l.p, l.s), StatsOf(pop, clients, l.p, l.s);
            && Compared(sender, Average, stats, stats', c)
            && ((forall r :: 0 <= r <= rounds ==> Contained(sender, Average, stats, stats', c, r))
                <==> (forall r :: 0 <= r < rounds ==>
                        RescalingsCancel(norm, Computed(sender, Average, stats, stats', c, r), attack.malicious, l.p, l.s, c)))
  {
    var sender := Sender(l, norm, attack.malicious, true);
    var stats, stats' := ReportedStats(pop, clients, attack, l.p, l.s), StatsOf(pop, clients, l.p, l.s);
    ContainedExactly(sender, Average, pop, clients, attack, c, rounds);
    hide ReportedStats, StatsOf, Compared, Contained, QuietRound, KeepsSummary, RescalingsCancel, NormMatched, Attacked, IsMat;
    forall r | 0 <= r < rounds
      ensures QuietRound(sender, Average, stats, stats', c, r)
              <==> RescalingsCancel(norm, Computed(sender, Average, stats, stats', c, r), attack.malicious, l.p, l.s, c)
    {
      QuietMeanExactly(norm, Computed(sender, Average, stats, stats', c, r), attack.malicious, l.p, l.s, c);
    }
  }

  /** One liar, any number of rounds, under the mean: contained after every round if and only if in
      every round the rescaling is void on c. */
  lemma OneStealthyLiarUnderTheMean(l: Learner, norm: Norm, pop: seq<Row>, clients: seq<seq<nat>>, attack: Attack, k: nat, c: nat, rounds: nat)
    requires Attacked(l, Average, pop, clients, attack, c) && attack.malicious == {k} && k < |clients| && |clients| > 1
    ensures var sender := Sender(l, norm, {k}, true);
            var stats, stats' := ReportedStats(pop, clients, attack, l.p, l.s), StatsOf(pop, clients, l.p, l.s);
            && Compared(sender, Average, stats, stats', c)
            && ((forall r :: 0 <= r <= rounds ==> Contained(sender, Average, stats, stats', c, r))
                <==> (forall r :: 0 <= r < rounds ==>
                        RescalingIsVoid(norm, Computed(sender, Average, stats, stats', c, r), k, l.p, l.s, c)))
  {
    var sender := Sender(l, norm, {k}, true);
    assert sender.adjust == NormMatched(norm, {k}, l.p, l.s);
    hide ReportedStats, StatsOf, Compared, Contained, QuietRound, Sender, RescalingIsVoid;
    ContainedExactly(sender, Average, pop, clients, attack, c, rounds);
    OneLiarRoundsMean(sender, norm, ReportedStats(pop, clients, attack, l.p, l.s), StatsOf(pop, clients, l.p, l.s), k, c, rounds);
  }

  lemma OneLiarRoundsMean(l: Learner, norm: Norm, stats: seq<Stat>, stats': seq<Stat>, k: nat, c: nat, rounds: nat)
    requires Compared(l, Average, stats, stats', c) && l.adjust == NormMatched(norm, {k}, l.p, l.s) && k < |stats|
    ensures forall r :: 0 <= r < rounds ==>
              (QuietRound(l, Average, stats, stats', c, r)
               <==> RescalingIsVoid(norm, Computed(l, Average, stats, stats', c, r), k, l.p, l.s, c))
  {
    forall r | 0 <= r < rounds
      ensures QuietRound(l, Average, stats, stats', c, r)
              <==> RescalingIsVoid(norm, Computed(l, Average, stats, stats', c, r), k, l.p, l.s, c)
    {
      hide QuietRound, KeepsSummary, RescalingIsVoid, NormMatched, IsMat, Average, Trained, Uploads, IsSolver, IsAggregator;
      QuietMeanOfOneLiar(norm, Computed(l, Average, stats, stats', c, r), k, l.p, l.s, c);
    }
  }

  /** The suite's own setting, one liar under the coordinate median, for any number of clients and
      rounds: contained after every round if and only if in every round the rescaled upload stays, in
      every entry of c, on its side of the middle of the honest ones. */
  lemma OneStealthyLiarUnderTheMedian(l: Learner, norm: Norm, pop: seq<Row>, clients: seq<seq<nat>>, attack: Attack, k: nat, c: nat, rounds: nat)
    requires Attacked(l, Median, pop, clients, attack, c) && attack.malicious == {k} && k < |clients| && |clients| > 1
    ensures var sender := Sender(l, norm, {k}, true);
            var stats, stats' := ReportedStats(pop, clients, attack, l.p, l.s), StatsOf(pop, clients, l.p, l.s);
            && Compared(sender, Median, stats, stats', c)
            && ((forall r :: 0 <= r <= rounds ==> Contained(sender, Median, stats, stats', c, r))
                <==> (forall r :: 0 <= r < rounds ==>
                        StaysOnItsSide(norm, Computed(sender, Median, stats, stats', c, r), k, l.p, l.s, c)))
  {
    var sender := Sender(l, norm, {k}, true);
    assert sender.adjust == NormMatched(norm, {k}, l.p, l.s);
    hide ReportedStats, StatsOf, Compared, Contained, QuietRound, Sender, StaysOnItsSide;
    ContainedExactly(sender, Median, pop, clients, attack, c, rounds);
    OneLiarRoundsMedian(sender, norm, ReportedStats(pop, clients, attack, l.p, l.s), StatsOf(pop, clients, l.p, l.s), k, c, rounds);
  }

  lemma OneLiarRoundsMedian(l: Learner, norm: Norm, stats: seq<Stat>, stats': seq<Stat>, k: nat, c: nat, rounds: nat)
    requires Compared(l, Median, stats, stats', c) && l.adjust == NormMatched(norm, {k}, l.p, l.s) && k < |stats|
    ensures forall r :: 0 <= r < rounds ==>
              (QuietRound(l, Median, stats, stats', c, r)
               <==> StaysOnItsSide(norm, Computed(l, Median, stats, stats', c, r), k, l.p, l.s, c))
  {
    forall r | 0 <= r < rounds
      ensures QuietRound(l, Median, stats, stats', c, r)
              <==> StaysOnItsSide(norm, Computed(l, Median, stats, stats', c, r), k, l.p, l.s, c)
    {
      hide QuietRound, KeepsSummary, StaysOnItsSide, NormMatched, IsMat, Median, Trained, Uploads, IsSolver, IsAggregator;
      QuietMedianOfOneLiar(norm, Computed(l, Median, stats, stats', c, r), k, l.p, l.s, c);
    }
  }
}
