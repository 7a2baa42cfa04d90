/** The beam-handover tracker and its mobility metrics
    (benchmarks/mobility_handover_loop.py).

    `gains[k][b]` is the gain in dB of beam `b` at sample `k` of the drive. */
module Handover {
  import opened Common

  const PP_WINDOW_SAMPLES: int := 5
  const OUTAGE_MARGIN_DB: real := 3.0

  /** A T x N gain timeline: at least one sample, at least one beam. */
  ghost predicate IsTimeline(gains: seq<seq<real>>) {
    |gains| > 0 && |gains[0]| > 0 && forall k :: 0 <= k < |gains| ==> |gains[k]| == |gains[0]|
  }

  ghost predicate IsTrace(gains: seq<seq<real>>, served: seq<nat>) {
    && IsTimeline(gains)
    && |served| == |gains|
    && forall k :: 0 <= k < |served| ==> served[k] < |gains[0]|
  }

  /** Beam `b` is the best beam of the sample and clears `serving` by more than `hyst`. */
  predicate Beats(row: seq<real>, b: nat, serving: nat, hyst: real)
    requires |row| > 0 && serving < |row|
  {
    b == ArgMax(row) && b != serving && row[b] > row[serving] + hyst
  }

  /** The time-to-trigger the loop really applies: any `ttt` below 1 acts like 1. */
  function Dwell(ttt: int): (d: nat)
    ensures d >= 1
  {
    Max(ttt, 1)
  }

  /** At sample `j` the beam served so far was `x`, and `b` beat it. */
  ghost predicate Contends(gains: seq<seq<real>>, hyst: real, served: seq<nat>, j: int, b: int, x: nat) {
    && 1 <= j < |gains| && j <= |served| && |gains[j]| > 0 && x < |gains[j]| && b >= 0
    && served[j - 1] == x && Beats(gains[j], b, x, hyst)
  }

  ghost predicate ContendsThroughout(gains: seq<seq<real>>, hyst: real, served: seq<nat>,
                                     lo: int, hi: int, b: int, x: nat) {
    forall j :: lo <= j < hi ==> Contends(gains, hyst, served, j, b, x)
  }

  /** One unbroken run: on each of the last `m` samples of the trace so far, `b`
      beat the serving beam, which did not change meanwhile. */
  ghost predicate Run(gains: seq<seq<real>>, hyst: real, served: seq<nat>, m: nat, b: int)
    requires IsTimeline(gains) && 1 <= |served| <= |gains|
    requires forall j :: 0 <= j < |served| ==> served[j] < |gains[0]|
  {
    var k := |served|;
    m < k && ContendsThroughout(gains, hyst, served, k - m, k, b, served[k - 1])
  }

  /** The window condition, with no counter in it: on the last Dwell(ttt) samples
      up to and including `k` one beam was the best beam and cleared the serving
      beam by more than `hyst`, and the serving beam did not change meanwhile. */
  ghost predicate Confirmed(gains: seq<seq<real>>, hyst: real, ttt: int, served: seq<nat>, k: nat)
    requires IsTimeline(gains) && 1 <= k < |gains| && k <= |served|
    requires forall j :: 0 <= j < |served| ==> served[j] < |gains[0]|
  {
    && Dwell(ttt) <= k
    && ContendsThroughout(gains, hyst, served, k - Dwell(ttt) + 1, k + 1, ArgMax(gains[k]), served[k - 1])
  }

  /** Sample `k` serves the best beam if the window confirms it, and the previous beam otherwise. */
  ghost predicate FollowsWindow(gains: seq<seq<real>>, hyst: real, ttt: int, served: seq<nat>, k: nat)
    requires IsTimeline(gains) && 1 <= k < |served| <= |gains|
    requires forall j :: 0 <= j < |served| ==> served[j] < |gains[0]|
  {
    served[k] == if Confirmed(gains, hyst, ttt, served[..k], k) then ArgMax(gains[k]) else served[k - 1]
  }

  /** The window specification of a served trace, or of a prefix of one. */
  ghost predicate A3Prefix(gains: seq<seq<real>>, hyst: real, ttt: int, served: seq<nat>)
    requires IsTimeline(gains)
  {
    && |served| <= |gains|
    && (forall j :: 0 <= j < |served| ==> served[j] < |gains[0]|)
    && (|served| > 0 ==> served[0] == ArgMax(gains[0]))
    && forall k :: 1 <= k < |served| ==> FollowsWindow(gains, hyst, ttt, served, k)
  }

  ghost predicate A3Trace(gains: seq<seq<real>>, hyst: real, ttt: int, served: seq<nat>) {
    IsTrace(gains, served) && A3Prefix(gains, hyst, ttt, served)
  }

  /** The streaming state (serving, candidate, count) agrees with the trace so
      far: `count` is the length of the longest run of `candidate`, and no other
      beam has a run. */
  ghost predicate Tracks(gains: seq<seq<real>>, hyst: real, served: seq<nat>, candidate: int, count: nat)
    requires IsTimeline(gains) && 1 <= |served| <= |gains|
    requires forall j :: 0 <= j < |served| ==> served[j] < |gains[0]|
  {
    && (count > 0 ==> Run(gains, hyst, served, count, candidate))
    && forall m: nat, b: int :: m > 0 && Run(gains, hyst, served, m, b) ==> m <= count && b == candidate
  }

  /** The tracker loop, proved against the counter-free window specification. */
  method ServeA3(gains: seq<seq<real>>, hyst: real, ttt: int) returns (out: array<nat>)
    requires IsTimeline(gains)
    ensures fresh(out) && A3Trace(gains, hyst, ttt, out[..])
  {
    hide Run, Confirmed, Contends, ContendsThroughout, FollowsWindow, Tracks;
    var n := |gains|;
    var serving := ArgMax(gains[0]);
    var candidate: int, count: nat := -1, 0;
    out := new nat[n](_ => 0);
    var k := 0;
    while k < n
      invariant 0 <= k <= n && out.Length == n
      invariant serving < |gains[0]| && count < Dwell(ttt)
      invariant A3Prefix(gains, hyst, ttt, out[..k])
      invariant k == 0 ==> serving == ArgMax(gains[0]) && candidate == -1 && count == 0
      invariant k > 0 ==> serving == out[k - 1] && Tracks(gains, hyst, out[..k], candidate, count)
    {
      ghost var before, candidate0, count0 := out[..k], candidate, count;
      var best := ArgMax(gains[k]);
      if best != serving && gains[k][best] > gains[k][serving] + hyst {
        count := if best == candidate then count + 1 else 1;
        candidate := best;
        if count >= ttt {
          serving, candidate, count := best, -1, 0;
        }
      } else {
        candidate, count := -1, 0;
      }
      out[k] := serving;
      assert out[..k + 1] == before + [serving];
      if k > 0 {
        SpecStep(gains, hyst, ttt, before, candidate0, count0, serving);
        CounterStep(gains, hyst, before, candidate0, count0, serving, candidate, count);
      } else {
        TracksStart(gains, hyst, serving);
        assert out[..k + 1] == [serving];
      }
      k := k + 1;
    }
    assert out[..] == out[..n];
  }

  lemma TracksStart(gains: seq<seq<real>>, hyst: real, serving: nat)
    requires IsTimeline(gains) && serving < |gains[0]|
    ensures Tracks(gains, hyst, [serving], -1, 0)
  {
  }

  /** A run grows by one exactly when the new sample keeps the serving beam and is beaten by the same beam. */
  lemma RunGrows(gains: seq<seq<real>>, hyst: real, s: seq<nat>, x: nat, m: nat, b: int)
    requires IsTimeline(gains) && 1 <= |s| < |gains| && x < |gains[0]|
    requires forall j :: 0 <= j < |s| ==> s[j] < |gains[0]|
    ensures Run(gains, hyst, s + [x], m + 1, b) <==>
            x == s[|s| - 1] && Run(gains, hyst, s, m, b) && Contends(gains, hyst, s, |s|, b, x)
  {
    var k, s' := |s|, s + [x];
    assert forall j :: 1 <= j <= k ==> (Contends(gains, hyst, s', j, b, x) <==> Contends(gains, hyst, s, j, b, x));
    if Run(gains, hyst, s', m + 1, b) {
      assert Contends(gains, hyst, s', k, b, x);
      assert forall j :: k - m <= j < k ==> Contends(gains, hyst, s', j, b, x);
    }
  }

  /** Confirmation at sample `|s|` is a run of Dwell(ttt) - 1 samples plus one more. */
  lemma ConfirmedIsARun(gains: seq<seq<real>>, hyst: real, ttt: int, s: seq<nat>)
    requires IsTimeline(gains) && 1 <= |s| < |gains|
    requires forall j :: 0 <= j < |s| ==> s[j] < |gains[0]|
    ensures var best := ArgMax(gains[|s|]);
            Confirmed(gains, hyst, ttt, s, |s|) <==>
            Run(gains, hyst, s, Dwell(ttt) - 1, best) && Beats(gains[|s|], best, s[|s| - 1], hyst)
  {
    var k, best := |s|, ArgMax(gains[|s|]);
    if Confirmed(gains, hyst, ttt, s, k) {
      assert Contends(gains, hyst, s, k, best, s[k - 1]);
    }
  }

  /** The branch the loop takes is the one the window specification asks for. */
  lemma SpecStep(gains: seq<seq<real>>, hyst: real, ttt: int, s: seq<nat>, candidate: int, count: nat, serving: nat)
    requires IsTimeline(gains) && 1 <= |s| < |gains| && A3Prefix(gains, hyst, ttt, s)
    requires count < Dwell(ttt) && Tracks(gains, hyst, s, candidate, count)
    requires var best := ArgMax(gains[|s|]);
             var c := if best == candidate then count + 1 else 1;
             serving == if Beats(gains[|s|], best, s[|s| - 1], hyst) && c >= ttt then best else s[|s| - 1]
    ensures A3Prefix(gains, hyst, ttt, s + [serving])
  {
    var s' := s + [serving];
    ConfirmedIsARun(gains, hyst, ttt, s);
    var best := ArgMax(gains[|s|]);
    if Beats(gains[|s|], best, s[|s| - 1], hyst) && best == candidate && count > 0 {
      assert Run(gains, hyst, s, count, best);
    }
    forall k | 1 <= k < |s'|
      ensures FollowsWindow(gains, hyst, ttt, s', k)
    {
      if k < |s| {
        assert s'[..k] == s[..k];
        assert FollowsWindow(gains, hyst, ttt, s, k);
      } else {
        assert s'[..k] == s;
      }
    }
  }

  /** The counter keeps its meaning: it is reset by a switch and by a sample without a contender. */
  lemma CounterStep(gains: seq<seq<real>>, hyst: real, s: seq<nat>, candidate: int, count: nat,
                    serving: nat, candidate': int, count': nat)
    requires IsTimeline(gains) && 1 <= |s| < |gains| && serving < |gains[0]|
    requires forall j :: 0 <= j < |s| ==> s[j] < |gains[0]|
    requires Tracks(gains, hyst, s, candidate, count)
    requires var best, last := ArgMax(gains[|s|]), s[|s| - 1];
             if serving != last || !Beats(gains[|s|], best, last, hyst) then candidate' == -1 && count' == 0
             else candidate' == best && count' == if best == candidate then count + 1 else 1
    ensures Tracks(gains, hyst, s + [serving], candidate', count')
  {
    if count' > 0 {
      RunGrows(gains, hyst, s, serving, count' - 1, candidate');
    }
    forall m: nat, b: int | m > 0 && Run(gains, hyst, s + [serving], m, b)
      ensures m <= count' && b == candidate'
    {
      RunGrows(gains, hyst, s, serving, m - 1, b);
      if m > 1 {
        assert Run(gains, hyst, s, m - 1, b);
      }
    }
  }

  /** Two traces that meet the window specification are the same trace, so the
      specification determines what the loop returns. */
  lemma {:induction false} A3TraceUnique(gains: seq<seq<real>>, hyst: real, ttt: int, s: seq<nat>, t: seq<nat>, n: nat)
    requires A3Trace(gains, hyst, ttt, s) && A3Trace(gains, hyst, ttt, t)
    requires n <= |s|
    ensures s[..n] == t[..n]
  {
    if n > 0 {
      A3TraceUnique(gains, hyst, ttt, s, t, n - 1);
      assert s[..n] == s[..n - 1] + [s[n - 1]] && t[..n] == t[..n - 1] + [t[n - 1]];
      if n > 1 {
        assert s[n - 2] == s[..n - 1][n - 2] && t[n - 2] == t[..n - 1][n - 2];
        assert FollowsWindow(gains, hyst, ttt, s, n - 1) && FollowsWindow(gains, hyst, ttt, t, n - 1);
      }
    }
  }

  /** A switch at `k` goes to the best beam, and the window that confirmed it is
      free of earlier switches and starts no earlier than sample 0. */
  lemma SwitchWindow(gains: seq<seq<real>>, hyst: real, ttt: int, s: seq<nat>, k: nat)
    requires A3Trace(gains, hyst, ttt, s) && 1 <= k < |s| && s[k] != s[k - 1]
    ensures Dwell(ttt) <= k && s[k] == ArgMax(gains[k])
    ensures forall j :: k - Dwell(ttt) <= j < k ==> s[j] == s[k - 1]
    ensures forall j :: k - Dwell(ttt) < j <= k ==> gains[j][s[k]] > gains[j][s[k - 1]] + hyst
  {
    assert FollowsWindow(gains, hyst, ttt, s, k);
    forall j | k - Dwell(ttt) < j <= k
      ensures s[j - 1] == s[k - 1] && gains[j][s[k]] > gains[j][s[k - 1]] + hyst
    {
      assert Contends(gains, hyst, s[..k], j, ArgMax(gains[k]), s[k - 1]);
    }
    forall j | k - Dwell(ttt) <= j < k
      ensures s[j] == s[k - 1]
    {
      assert Contends(gains, hyst, s[..k], j + 1, ArgMax(gains[k]), s[k - 1]);
    }
  }

  // ----- The tracker without its counter -----

  /** Over the last ttt samples up to k, at least one, the beam served before k was served throughout,
      and b was the best beam, the first of the best ones, and above it by more than hyst. */
  ghost predicate Wins(gains: seq<seq<real>>, hyst: real, ttt: int, s: seq<nat>, k: nat, b: nat)
    requires IsTrace(gains, s) && 1 <= k < |s|
  {
    var d := if ttt < 1 then 1 else ttt;
    d <= k && WinsSince(gains, hyst, s, k, b, k - d)
  }

  ghost predicate WinsSince(gains: seq<seq<real>>, hyst: real, s: seq<nat>, k: nat, b: nat, lo: nat)
    requires IsTrace(gains, s) && 1 <= k < |s|
  {
    forall j :: lo < j <= k ==> WinsAt(gains, hyst, s, k, b, j)
  }

  ghost predicate WinsAt(gains: seq<seq<real>>, hyst: real, s: seq<nat>, k: nat, b: nat, j: nat)
    requires IsTrace(gains, s) && 1 <= j <= k < |s|
  {
    var x := s[k - 1];
    s[j - 1] == x && b != x && IsBest(gains[j], b) && gains[j][b] > gains[j][x] + hyst
  }

  predicate IsBest(row: seq<real>, b: nat) {
    b < |row| && forall c :: 0 <= c < |row| ==> row[c] <= row[b] && (c < b ==> row[c] < row[b])
  }

  lemma BestIsArgMax(row: seq<real>, b: nat)
    requires |row| > 0
    ensures IsBest(row, b) <==> b == ArgMax(row)
  {
    if IsBest(row, b) {
      var m := ArgMax(row);
      assert row[m] <= row[b] && row[b] <= row[m];
    }
  }

  /** The first sample serves the best beam; every later one hands over to a beam exactly when it has
      won for ttt samples in a row, at least one. */
  lemma A3Exactly(gains: seq<seq<real>>, hyst: real, ttt: int, s: seq<nat>, k: nat)
    requires A3Trace(gains, hyst, ttt, s) && k < |s|
    ensures k == 0 ==> IsBest(gains[0], s[0])
    ensures k > 0 ==>
              && (forall b: nat :: Wins(gains, hyst, ttt, s, k, b) ==> s[k] == b)
              && ((forall b: nat :: !Wins(gains, hyst, ttt, s, k, b)) ==> s[k] == s[k - 1])
  {
    if k == 0 {
      BestIsArgMax(gains[0], s[0]);
    } else {
      assert FollowsWindow(gains, hyst, ttt, s, k);
      ConfirmedExactly(gains, hyst, ttt, s, k);
      hide IsBest, Confirmed, FollowsWindow;
      forall b: nat | Wins(gains, hyst, ttt, s, k, b)
        ensures b == ArgMax(gains[k])
      {
        assert WinsAt(gains, hyst, s, k, b, k);
        BestIsArgMax(gains[k], b);
      }
    }
  }

  lemma ConfirmedExactly(gains: seq<seq<real>>, hyst: real, ttt: int, s: seq<nat>, k: nat)
    requires IsTrace(gains, s) && 1 <= k < |s|
    ensures Confirmed(gains, hyst, ttt, s[..k], k) <==> Wins(gains, hyst, ttt, s, k, ArgMax(gains[k]))
    ensures FollowsWindow(gains, hyst, ttt, s, k) ==>
              s[k] == if Confirmed(gains, hyst, ttt, s[..k], k) then ArgMax(gains[k]) else s[k - 1]
  {
    var b, x, before := ArgMax(gains[k]), s[k - 1], s[..k];
    forall j | 1 <= j <= k
      ensures Contends(gains, hyst, before, j, b, x) <==> WinsAt(gains, hyst, s, k, b, j)
    {
      BestIsArgMax(gains[j], b);
    }
    assert before[k - 1] == x;
    hide IsBest, Contends, WinsAt;
  }

  // ----- The event list and the metrics -----

  /** One beam change: `from` is served at `at - 1`, `to` at `at`. */
  datatype Handover = Handover(at: nat, from: nat, to: nat)

  function Events(served: seq<nat>): seq<Handover> {
    var n := |served|;
    if n <= 1 then []
    else
      var earlier := Events(served[..n - 1]);
      if served[n - 1] != served[n - 2] then earlier + [Handover(n - 1, served[n - 2], served[n - 1])] else earlier
  }

  predicate IsPingPong(first: Handover, second: Handover) {
    second.to == first.from && second.at - first.at <= PP_WINDOW_SAMPLES
  }

  function PingPongs(events: seq<Handover>): nat {
    var n := |events|;
    if n <= 1 then 0
    else PingPongs(events[..n - 1]) + if IsPingPong(events[n - 2], events[n - 1]) then 1 else 0
  }

  /** Serving more than OUTAGE_MARGIN_DB below the best beam of the sample. */
  predicate OutageAt(row: seq<real>, beam: nat)
    requires beam < |row|
  {
    row[beam] < row[ArgMax(row)] - OUTAGE_MARGIN_DB
  }

  function Greedy(gains: seq<seq<real>>): (served: seq<nat>)
    requires IsTimeline(gains)
    ensures IsTrace(gains, served)
  {
    seq(|gains|, k requires 0 <= k < |gains| => ArgMax(gains[k]))
  }

  ghost predicate EventAt(events: seq<Handover>, k: nat) {
    exists i :: 0 <= i < |events| && events[i].at == k
  }

  ghost predicate IsChange(served: seq<nat>, e: Handover) {
    1 <= e.at < |served| && e.from != e.to && e.from == served[e.at - 1] && e.to == served[e.at]
  }

  lemma {:induction false} EventsSound(served: seq<nat>, i: nat)
    requires i < |Events(served)|
    ensures IsChange(served, Events(served)[i])
    ensures i > 0 ==> Events(served)[i - 1].at < Events(served)[i].at
  {
    var n := |served|;
    var earlier := Events(served[..n - 1]);
    if i < |earlier| {
      EventsSound(served[..n - 1], i);
    } else if i > 0 {
      EventsSound(served[..n - 1], i - 1);
    }
  }

  lemma {:induction false} EventsOrdered(served: seq<nat>, i: nat, j: nat)
    requires i < j < |Events(served)|
    ensures Events(served)[i].at < Events(served)[j].at
  {
    EventsSound(served, j);
    if i < j - 1 {
      EventsOrdered(served, i, j - 1);
    }
  }

  lemma {:induction false} EventsComplete(served: seq<nat>, k: nat)
    requires 1 <= k < |served| && served[k] != served[k - 1]
    ensures EventAt(Events(served), k)
  {
    var n := |served|;
    var earlier, ev := Events(served[..n - 1]), Events(served);
    if k < n - 1 {
      EventsComplete(served[..n - 1], k);
      var i :| 0 <= i < |earlier| && earlier[i].at == k;
      assert ev[i].at == k;
    } else {
      assert ev[|ev| - 1].at == k;
    }
  }

  /** The event list is exact: in order, every listed change is one, none is missed. */
  lemma EventsExact(served: seq<nat>)
    ensures var ev := Events(served);
            && (forall i :: 0 <= i < |ev| ==> IsChange(served, ev[i]))
            && (forall i, j :: 0 <= i < j < |ev| ==> ev[i].at < ev[j].at)
            && (forall k :: 1 <= k < |served| && served[k] != served[k - 1] ==> EventAt(ev, k))
  {
    var ev := Events(served);
    forall i | 0 <= i < |ev|
      ensures IsChange(served, ev[i])
    {
      EventsSound(served, i);
    }
    forall i, j | 0 <= i < j < |ev|
      ensures ev[i].at < ev[j].at
    {
      EventsOrdered(served, i, j);
    }
    forall k | 1 <= k < |served| && served[k] != served[k - 1]
      ensures EventAt(ev, k)
    {
      EventsComplete(served, k);
    }
  }

  /** Between consecutive events the serving beam does not change. */
  lemma {:induction false} ConstantBetween(served: seq<nat>, i: nat, m: nat)
    requires i + 1 < |Events(served)|
    requires Events(served)[i].at <= m < Events(served)[i + 1].at
    ensures m < |served| && served[m] == Events(served)[i].to
  {
    EventsExact(served);
    var ev := Events(served);
    if m > ev[i].at {
      ConstantBetween(served, i, m - 1);
      assert forall j :: 0 <= j <= i ==> ev[j].at < m;
      assert forall j :: i < j < |ev| ==> ev[j].at > m;
      assert !EventAt(ev, m);
    }
  }

  lemma EventsChain(served: seq<nat>, i: nat)
    requires i + 1 < |Events(served)|
    ensures Events(served)[i + 1].from == Events(served)[i].to && Events(served)[i].at < Events(served)[i + 1].at
    ensures 1 <= Events(served)[i].at && Events(served)[i + 1].at < |served|
  {
    EventsExact(served);
    ConstantBetween(served, i, Events(served)[i + 1].at - 1);
  }

  /** Dwell time: the first handover comes no earlier than sample Dwell(ttt), and
      consecutive ones are at least Dwell(ttt) samples apart. */
  lemma DwellTime(gains: seq<seq<real>>, hyst: real, ttt: int, s: seq<nat>, i: nat)
    requires A3Trace(gains, hyst, ttt, s) && i < |Events(s)|
    ensures var ev := Events(s);
            if i == 0 then ev[0].at >= Dwell(ttt) else ev[i].at - ev[i - 1].at >= Dwell(ttt)
  {
    EventsExact(s);
    var ev := Events(s);
    SwitchWindow(gains, hyst, ttt, s, ev[i].at);
    if i > 0 {
      var j, k := ev[i - 1].at, ev[i].at;
      assert s[j] != s[j - 1];
    }
  }

  /** Hence handovers * Dwell(ttt) <= T - 1 on every trace of T samples. */
  lemma {:induction false} HandoverCountBound(gains: seq<seq<real>>, hyst: real, ttt: int, s: seq<nat>)
    requires A3Trace(gains, hyst, ttt, s)
    ensures |Events(s)| * Dwell(ttt) <= |s| - 1
  {
    var ev, i := Events(s), 0;
    while i < |ev|
      invariant 0 <= i <= |ev|
      invariant i > 0 ==> i * Dwell(ttt) <= ev[i - 1].at
    {
      DwellTime(gains, hyst, ttt, s, i);
      assert (i + 1) * Dwell(ttt) == i * Dwell(ttt) + Dwell(ttt);
      i := i + 1;
    }
    EventsExact(s);
  }

  lemma {:induction false} NoPingPongs(events: seq<Handover>)
    requires forall i :: 0 < i < |events| ==> !IsPingPong(events[i - 1], events[i])
    ensures PingPongs(events) == 0
  {
    var n := |events|;
    if n > 1 {
      NoPingPongs(events[..n - 1]);
    }
  }

  function Gap(row: seq<real>, a: nat, b: nat): real
    requires a < |row| && b < |row|
  {
    row[a] - row[b]
  }

  /** The gain difference of any two beams moves by at most `swing` dB per sample. */
  ghost predicate SlowFading(gains: seq<seq<real>>, swing: real)
    requires IsTimeline(gains)
  {
    forall k: nat, a: nat, b: nat :: 1 <= k < |gains| && a < |gains[0]| && b < |gains[0]| ==>
      SlowAt(gains, swing, k, a, b)
  }

  ghost predicate SlowAt(gains: seq<seq<real>>, swing: real, k: nat, a: nat, b: nat)
    requires IsTimeline(gains) && 1 <= k < |gains| && a < |gains[0]| && b < |gains[0]|
  {
    -swing <= Gap(gains[k], a, b) - Gap(gains[k - 1], a, b) <= swing
  }

  lemma {:induction false} SwingBetween(gains: seq<seq<real>>, swing: real, a: nat, b: nat, j: nat, k: nat)
    requires IsTimeline(gains) && SlowFading(gains, swing)
    requires a < |gains[0]| && b < |gains[0]| && j <= k < |gains|
    ensures Gap(gains[j], a, b) - Gap(gains[k], a, b) <= ((k - j) as real) * swing
  {
    if j < k {
      SwingBetween(gains, swing, a, b, j, k - 1);
      assert SlowAt(gains, swing, k, a, b);
      Stretch(k - 1 - j, swing);
      assert (k - 1 - j) + 1 == k - j;
    }
  }

  lemma Stretch(n: int, swing: real)
    ensures ((n + 1) as real) * swing == (n as real) * swing + swing
  {
    assert (n + 1) as real == (n as real) + 1.0;
  }

  /** A gap that turns from more than `hyst` one way to more than `hyst` the other way took the swing. */
  lemma TurnedGap(gains: seq<seq<real>>, hyst: real, swing: real, a: nat, b: nat, j: nat, k: nat)
    requires IsTimeline(gains) && SlowFading(gains, swing)
    requires a < |gains[0]| && b < |gains[0]| && j <= k < |gains|
    requires Gap(gains[j], b, a) > hyst && Gap(gains[k], a, b) > hyst
    ensures ((k - j) as real) * swing > 2.0 * hyst
  {
    SwingBetween(gains, swing, b, a, j, k);
  }

  lemma SwitchGap(gains: seq<seq<real>>, hyst: real, ttt: int, s: seq<nat>, k: nat)
    requires A3Trace(gains, hyst, ttt, s) && 1 <= k < |s| && s[k] != s[k - 1]
    ensures Dwell(ttt) <= k
    ensures Gap(gains[k], s[k], s[k - 1]) > hyst && Gap(gains[k - Dwell(ttt) + 1], s[k], s[k - 1]) > hyst
  {
    SwitchWindow(gains, hyst, ttt, s, k);
    assert gains[k - Dwell(ttt) + 1][s[k]] > gains[k - Dwell(ttt) + 1][s[k - 1]] + hyst;
  }

  /** Where a handover's gap exceeds the hysteresis, and what is served up to it. */
  lemma HandoverGaps(gains: seq<seq<real>>, hyst: real, ttt: int, s: seq<nat>, i: nat)
    requires A3Trace(gains, hyst, ttt, s) && i < |Events(s)|
    ensures var e := Events(s)[i]; var d := Dwell(ttt);
            && d <= e.at < |gains| && e.from < |gains[0]| && e.to < |gains[0]|
            && Gap(gains[e.at], e.to, e.from) > hyst && Gap(gains[e.at - d + 1], e.to, e.from) > hyst
  {
    EventsExact(s);
    SwitchGap(gains, hyst, ttt, s, Events(s)[i].at);
  }

  /** A ping-pong needs real swing: between A->B at k1 and the return B->A at k2
      the gain difference has to travel more than twice the hysteresis, within
      k2 - k1 - Dwell(ttt) + 1 samples. */
  lemma PingPongSwing(gains: seq<seq<real>>, hyst: real, ttt: int, s: seq<nat>, swing: real, i: nat)
    requires A3Trace(gains, hyst, ttt, s) && SlowFading(gains, swing)
    requires i + 1 < |Events(s)| && Events(s)[i + 1].to == Events(s)[i].from
    ensures var k1, k2 := Events(s)[i].at, Events(s)[i + 1].at;
            ((k2 - k1 - Dwell(ttt) + 1) as real) * swing > 2.0 * hyst
  {
    var e1, e2 := Events(s)[i], Events(s)[i + 1];
    HandoverGaps(gains, hyst, ttt, s, i);
    HandoverGaps(gains, hyst, ttt, s, i + 1);
    DwellTime(gains, hyst, ttt, s, i + 1);
    EventsChain(s, i);
    TurnedGap(gains, hyst, swing, e1.from, e1.to, e1.at, e2.at - Dwell(ttt) + 1);
    assert e2.at - Dwell(ttt) + 1 - e1.at == e2.at - e1.at - Dwell(ttt) + 1;
  }

  /** No trace has a ping-pong once the time-to-trigger outlasts the ping-pong
      window, or the fading is too slow to swing by twice the hysteresis in it. */
  lemma PingPongFree(gains: seq<seq<real>>, hyst: real, ttt: int, s: seq<nat>, swing: real)
    requires A3Trace(gains, hyst, ttt, s)
    requires || ttt > PP_WINDOW_SAMPLES
             || (SlowFading(gains, swing) && ((PP_WINDOW_SAMPLES - Dwell(ttt) + 1) as real) * swing <= 2.0 * hyst)
    ensures PingPongs(Events(s)) == 0
  {
    var ev := Events(s);
    forall i | 0 < i < |ev|
      ensures !IsPingPong(ev[i - 1], ev[i])
    {
      NotAPingPong(gains, hyst, ttt, s, swing, i);
    }
    NoPingPongs(ev);
  }

  lemma NotAPingPong(gains: seq<seq<real>>, hyst: real, ttt: int, s: seq<nat>, swing: real, i: nat)
    requires A3Trace(gains, hyst, ttt, s) && 0 < i < |Events(s)|
    requires || ttt > PP_WINDOW_SAMPLES
             || (SlowFading(gains, swing) && ((PP_WINDOW_SAMPLES - Dwell(ttt) + 1) as real) * swing <= 2.0 * hyst)
    ensures !IsPingPong(Events(s)[i - 1], Events(s)[i])
  {
    DwellTime(gains, hyst, ttt, s, i);
    if ttt <= PP_WINDOW_SAMPLES && Events(s)[i].to == Events(s)[i - 1].from {
      PingPongSwing(gains, hyst, ttt, s, swing, i - 1);
      EventsChain(s, i - 1);
      assert SlowAt(gains, swing, 1, 0, 0);
      LongerLagsSwingMore(Events(s)[i].at - Events(s)[i - 1].at - Dwell(ttt) + 1,
                          PP_WINDOW_SAMPLES - Dwell(ttt) + 1, swing, 2.0 * hyst);
    }
  }

  lemma LongerLagsSwingMore(lag: int, most: int, swing: real, bound: real)
    requires swing >= 0.0 && (most as real) * swing <= bound < (lag as real) * swing
    ensures most < lag
  {
    assert (most as real) * swing - (lag as real) * swing == ((most - lag) as real) * swing;
  }

  /** A sample is in outage only while the old serving beam is kept against a
      contender, provided the hysteresis is no wider than the outage margin. */
  lemma OutageMeansContention(gains: seq<seq<real>>, hyst: real, ttt: int, s: seq<nat>, k: nat)
    requires A3Trace(gains, hyst, ttt, s) && hyst <= OUTAGE_MARGIN_DB && k < |s| && OutageAt(gains[k], s[k])
    ensures k >= 1 && s[k] == s[k - 1] && Contends(gains, hyst, s, k, ArgMax(gains[k]), s[k])
  {
    assert k > 0 ==> FollowsWindow(gains, hyst, ttt, s, k);
  }

  /** After Dwell(ttt) - 1 samples of outage under one best beam, the next sample is not in outage. */
  lemma OutageEnds(gains: seq<seq<real>>, hyst: real, ttt: int, s: seq<nat>, j: nat)
    requires A3Trace(gains, hyst, ttt, s) && hyst <= OUTAGE_MARGIN_DB
    requires j + Dwell(ttt) <= |s|
    requires forall k :: j <= k < j + Dwell(ttt) ==> ArgMax(gains[k]) == ArgMax(gains[j])
    requires forall k :: j <= k < j + Dwell(ttt) - 1 ==> OutageAt(gains[k], s[k])
    ensures !OutageAt(gains[j + Dwell(ttt) - 1], s[j + Dwell(ttt) - 1])
  {
    var best, last := ArgMax(gains[j]), j + Dwell(ttt) - 1;
    OutageNeedsABetterBeam(gains[last], hyst);
    hide Beats, OutageAt;
    if last > 0 {
      assert FollowsWindow(gains, hyst, ttt, s, last);
      var x, before := s[last - 1], s[..last];
      if Beats(gains[last], best, x, hyst) {
        OutageRun(gains, hyst, ttt, s, j, last, best);
      } else {
        assert !Contends(gains, hyst, before, last, best, x);
        assert !Confirmed(gains, hyst, ttt, before, last);
      }
    }
  }

  /** Samples j..last-1 of outage under one best beam are one run of contention. */
  lemma {:induction false} OutageRun(gains: seq<seq<real>>, hyst: real, ttt: int, s: seq<nat>, j: nat, last: nat, best: nat)
    requires A3Trace(gains, hyst, ttt, s) && hyst <= OUTAGE_MARGIN_DB && j <= last < |s| && last > 0
    requires forall k :: j <= k < last ==> ArgMax(gains[k]) == best && OutageAt(gains[k], s[k])
    requires Contends(gains, hyst, s[..last], last, best, s[last - 1])
    ensures j > 0
    ensures ContendsThroughout(gains, hyst, s[..last], j, last + 1, best, s[last - 1])
  {
    hide Beats, OutageAt;
    var x, before := s[last - 1], s[..last];
    var k := last;
    while k > j
      invariant j <= k <= last && k > 0 && s[k - 1] == x
      invariant ContendsThroughout(gains, hyst, before, k, last + 1, best, x)
    {
      k := k - 1;
      OutageMeansContention(gains, hyst, ttt, s, k);
      assert Contends(gains, hyst, before, k, best, x);
    }
  }

  lemma OutageNeedsABetterBeam(row: seq<real>, hyst: real)
    requires |row| > 0 && hyst <= OUTAGE_MARGIN_DB
    ensures !OutageAt(row, ArgMax(row))
    ensures forall x: nat :: x < |row| && !Beats(row, ArgMax(row), x, hyst) ==> !OutageAt(row, x)
  {
  }

  /** Bounded outage: with hysteresis no wider than the outage margin, no stretch
      of Dwell(ttt) samples with one and the same best beam is spent in outage throughout. */
  lemma BoundedOutage(gains: seq<seq<real>>, hyst: real, ttt: int, s: seq<nat>, j: nat)
    requires A3Trace(gains, hyst, ttt, s) && hyst <= OUTAGE_MARGIN_DB
    requires j + Dwell(ttt) <= |s|
    requires forall k :: j <= k < j + Dwell(ttt) ==> ArgMax(gains[k]) == ArgMax(gains[j])
    ensures exists k :: j <= k < j + Dwell(ttt) && !OutageAt(gains[k], s[k])
  {
    if forall k :: j <= k < j + Dwell(ttt) - 1 ==> OutageAt(gains[k], s[k]) {
      OutageEnds(gains, hyst, ttt, s, j);
    }
  }

  /** Without time-to-trigger the serving gain is never more than `hyst` below the
      best beam; with `hyst == 0` it is the greedy tracker's gain at every sample. */
  lemma {:induction false} ImmediateTriggerGain(gains: seq<seq<real>>, hyst: real, ttt: int, s: seq<nat>, k: nat)
    requires A3Trace(gains, hyst, ttt, s) && hyst >= 0.0 && ttt <= 1 && k < |s|
    ensures var best := gains[k][Greedy(gains)[k]];
            best - hyst <= gains[k][s[k]] <= best
  {
    assert k > 0 ==> FollowsWindow(gains, hyst, ttt, s, k);
  }

  lemma KeepsOrFollows(gains: seq<seq<real>>, hyst: real, ttt: int, s: seq<nat>, k: nat)
    requires A3Trace(gains, hyst, ttt, s) && 1 <= k < |s|
    ensures s[k] == s[k - 1] || s[k] == Greedy(gains)[k]
  {
    assert FollowsWindow(gains, hyst, ttt, s, k);
  }

  lemma EventsGrow(served: seq<nat>, n: nat)
    requires 2 <= n <= |served|
    ensures |Events(served[..n])| == |Events(served[..n - 1])| + if served[n - 1] != served[n - 2] then 1 else 0
  {
    assert served[..n][..n - 1] == served[..n - 1];
  }

  /** Hysteresis never costs handovers: whatever `hyst` and `ttt`, the A3 tracker
      hands over at most as often as the greedy one on the same timeline. */
  lemma {:induction false} NoMoreHandoversThanGreedy(gains: seq<seq<real>>, hyst: real, ttt: int, s: seq<nat>, n: nat)
    requires A3Trace(gains, hyst, ttt, s) && 1 <= n <= |s|
    ensures var g := Greedy(gains);
            |Events(s[..n])| + (if s[n - 1] == g[n - 1] then 0 else 1) <= |Events(g[..n])|
  {
    hide Confirmed, FollowsWindow;
    var g := Greedy(gains);
    if n > 1 {
      NoMoreHandoversThanGreedy(gains, hyst, ttt, s, n - 1);
      KeepsOrFollows(gains, hyst, ttt, s, n - 1);
      EventsGrow(s, n);
      EventsGrow(g, n);
    }
  }

  /** No change of best beam is a tie with the previous best beam. */
  ghost predicate NoTiedChange(gains: seq<seq<real>>)
    requires IsTimeline(gains)
  {
    var g := Greedy(gains);
    forall k :: 1 <= k < |gains| && g[k] != g[k - 1] ==> gains[k][g[k]] > gains[k][g[k - 1]]
  }

  lemma {:induction false} GreedyWithoutTies(gains: seq<seq<real>>, s: seq<nat>, k: nat)
    requires A3Trace(gains, 0.0, 1, s) && NoTiedChange(gains) && k < |s|
    ensures s[k] == Greedy(gains)[k]
  {
    if k > 0 {
      GreedyWithoutTies(gains, s, k - 1);
      assert FollowsWindow(gains, 0.0, 1, s, k);
      if Greedy(gains)[k] != Greedy(gains)[k - 1] {
        assert Contends(gains, 0.0, s[..k], k, ArgMax(gains[k]), s[k - 1]);
      }
    }
  }

  /** The greedy tracker is documented as the 0 dB, TTT = 1 case. That holds
      exactly on the timelines without a tied change. */
  lemma GreedyIsZeroHysteresisUpToTies(gains: seq<seq<real>>, s: seq<nat>)
    requires A3Trace(gains, 0.0, 1, s)
    ensures s == Greedy(gains) <==> NoTiedChange(gains)
  {
    var g := Greedy(gains);
    if s == g {
      forall k | 1 <= k < |gains| && g[k] != g[k - 1]
        ensures gains[k][g[k]] > gains[k][g[k - 1]]
      {
        SwitchWindow(gains, 0.0, 1, s, k);
      }
    }
    if NoTiedChange(gains) {
      forall k | 0 <= k < |s|
        ensures s[k] == g[k]
      {
        GreedyWithoutTies(gains, s, k);
      }
    }
  }

  /** A two-sample timeline on which the two trackers part: beam 1 is best, then ties with beam 0. */
  lemma GreedyDiffersOnATie()
    ensures var gains := [[0.0, 1.0], [1.0, 1.0]];
            IsTimeline(gains) && Greedy(gains) == [1, 0] && A3Trace(gains, 0.0, 1, [1, 1])
  {
    var gains := [[0.0, 1.0], [1.0, 1.0]];
    assert ArgMax(gains[0]) == 1 && ArgMax(gains[1]) == 0;
    assert !Contends(gains, 0.0, [1], 1, 0, 1);
    assert [1, 1][..1] == [1];
  }

  /** The reported metrics; the outage count stands for the mean the report rounds. */
  datatype Metrics = Metrics(handovers: nat, pingPongs: nat, outageSamples: nat, beamsVisited: set<nat>)

  function OutageSamples(gains: seq<seq<real>>, served: seq<nat>, n: nat): nat
    requires IsTrace(gains, served) && n <= |served|
  {
    if n == 0 then 0
    else OutageSamples(gains, served, n - 1) + if OutageAt(gains[n - 1], served[n - 1]) then 1 else 0
  }

  function MobilityMetrics(served: seq<nat>, gains: seq<seq<real>>): Metrics
    requires IsTrace(gains, served)
  {
    var events := Events(served);
    Metrics(|events|, PingPongs(events), OutageSamples(gains, served, |served|), set b | b in served)
  }

  /** Some beam of the sample is more than 3 dB above the served one. */
  predicate FarBelow(row: seq<real>, beam: nat) {
    beam < |row| && exists b :: 0 <= b < |row| && row[b] - 3.0 > row[beam]
  }

  lemma OutageIsFarBelow(row: seq<real>, beam: nat)
    requires beam < |row|
    ensures OutageAt(row, beam) <==> FarBelow(row, beam)
  {
    var m := ArgMax(row);
  }

  predicate ChangesAt(served: seq<nat>, k: nat) {
    1 <= k < |served| && served[k] != served[k - 1]
  }

  lemma {:induction false} HandoversAreChanges(served: seq<nat>, n: nat)
    requires n <= |served|
    ensures |Events(served[..n])| == |set k: nat | k < n && ChangesAt(served, k)|
  {
    var changes := set k: nat | k < n && ChangesAt(served, k);
    if n == 0 {
      assert changes == {};
    } else {
      HandoversAreChanges(served, n - 1);
      var before := set k: nat | k < n - 1 && ChangesAt(served, k);
      assert changes == if ChangesAt(served, n - 1) then before + {n - 1} else before;
      EventsOfPrefix(served, n);
    }
  }

  lemma EventsOfPrefix(served: seq<nat>, n: nat)
    requires 1 <= n <= |served|
    ensures |Events(served[..n])| == |Events(served[..n - 1])| + if ChangesAt(served, n - 1) then 1 else 0
  {
    assert served[..n][..n - 1] == served[..n - 1];
  }

  /** Event i goes back where event i - 1 came from, within five samples. */
  predicate GoesBack(ev: seq<Handover>, i: nat) {
    1 <= i < |ev| && ev[i].to == ev[i - 1].from && ev[i].at - ev[i - 1].at <= 5
  }

  lemma {:induction false} PingPongsAreReturns(ev: seq<Handover>, n: nat)
    requires n <= |ev|
    ensures PingPongs(ev[..n]) == |set i: nat | i < n && GoesBack(ev, i)|
  {
    var back := set i: nat | i < n && GoesBack(ev, i);
    if n == 0 {
      assert back == {};
    } else {
      PingPongsAreReturns(ev, n - 1);
      var before := set i: nat | i < n - 1 && GoesBack(ev, i);
      assert back == if GoesBack(ev, n - 1) then before + {n - 1} else before;
      PingPongsOfPrefix(ev, n);
    }
  }

  lemma PingPongsOfPrefix(ev: seq<Handover>, n: nat)
    requires 1 <= n <= |ev|
    ensures PingPongs(ev[..n]) == PingPongs(ev[..n - 1]) + if GoesBack(ev, n - 1) then 1 else 0
  {
    assert ev[..n][..n - 1] == ev[..n - 1];
  }

  lemma {:induction false} OutagesAreSamples(gains: seq<seq<real>>, served: seq<nat>, n: nat)
    requires IsTrace(gains, served) && n <= |served|
    ensures OutageSamples(gains, served, n) == |set k: nat | k < n && FarBelow(gains[k], served[k])|
  {
    var samples := set k: nat | k < n && FarBelow(gains[k], served[k]);
    hide FarBelow, OutageAt;
    if n == 0 {
      assert samples == {};
    } else {
      OutagesAreSamples(gains, served, n - 1);
      OutageIsFarBelow(gains[n - 1], served[n - 1]);
      var before := set k: nat | k < n - 1 && FarBelow(gains[k], served[k]);
      assert samples == if FarBelow(gains[n - 1], served[n - 1]) then before + {n - 1} else before;
    }
  }

  /** What each reported number counts. */
  lemma MetricsExactly(served: seq<nat>, gains: seq<seq<real>>)
    requires IsTrace(gains, served)
    ensures var r, ev := MobilityMetrics(served, gains), Events(served);
            && r.handovers == |set k: nat | k < |served| && ChangesAt(served, k)|
            && r.pingPongs == |set i: nat | i < |ev| && GoesBack(ev, i)|
            && r.outageSamples == |set k: nat | k < |served| && FarBelow(gains[k], served[k])|
            && forall b: nat :: b in r.beamsVisited <==> exists k :: 0 <= k < |served| && served[k] == b
  {
    hide FarBelow, GoesBack, Events, PingPongs, OutageSamples;
    var ev := Events(served);
    assert served[..|served|] == served && ev[..|ev|] == ev;
    HandoversAreChanges(served, |served|);
    PingPongsAreReturns(ev, |ev|);
    OutagesAreSamples(gains, served, |served|);
  }

  lemma {:induction false} NoOutage(gains: seq<seq<real>>, served: seq<nat>, n: nat)
    requires IsTrace(gains, served) && n <= |served|
    requires forall k :: 0 <= k < n ==> !OutageAt(gains[k], served[k])
    ensures OutageSamples(gains, served, n) == 0
  {
    if n > 0 {
      NoOutage(gains, served, n - 1);
    }
  }

  lemma GreedyHasNoOutage(gains: seq<seq<real>>)
    requires IsTimeline(gains)
    ensures OutageSamples(gains, Greedy(gains), |gains|) == 0
  {
    NoOutage(gains, Greedy(gains), |gains|);
  }

  /** What the two policies' reports have in common on every timeline: the A3
      policy never reports more handovers than the greedy one, the greedy one
      never reports an outage, and neither does A3 without time-to-trigger as
      long as its hysteresis stays within the outage margin. */
  lemma ReportsCompared(gains: seq<seq<real>>, hyst: real, ttt: int, s: seq<nat>)
    requires A3Trace(gains, hyst, ttt, s)
    ensures var a3, greedy := MobilityMetrics(s, gains), MobilityMetrics(Greedy(gains), gains);
            && a3.handovers <= greedy.handovers
            && a3.handovers * Dwell(ttt) <= |s| - 1
            && greedy.outageSamples == 0
            && (ttt <= 1 && hyst <= OUTAGE_MARGIN_DB ==> a3.outageSamples == 0)
  {
    hide OutageAt;
    var g, n := Greedy(gains), |s|;
    NoMoreHandoversThanGreedy(gains, hyst, ttt, s, n);
    assert s[..n] == s && g[..n] == g;
    HandoverCountBound(gains, hyst, ttt, s);
    GreedyHasNoOutage(gains);
    if ttt <= 1 && hyst <= OUTAGE_MARGIN_DB {
      ImmediateTriggerHasNoOutage(gains, hyst, ttt, s);
    }
  }

  lemma ImmediateTriggerHasNoOutage(gains: seq<seq<real>>, hyst: real, ttt: int, s: seq<nat>)
    requires A3Trace(gains, hyst, ttt, s) && ttt <= 1 && hyst <= OUTAGE_MARGIN_DB
    ensures MobilityMetrics(s, gains).outageSamples == 0
  {
    hide OutageAt, Events, PingPongs;
    forall k | 0 <= k < |s|
      ensures !OutageAt(gains[k], s[k])
    {
      OutageEnds(gains, hyst, ttt, s, k);
    }
    NoOutage(gains, s, |s|);
  }
}
