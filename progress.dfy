/** The progress throttle of the parallel download loop: as downloads
    complete, in whatever order the pool finishes them, the bar is moved and
    a status line written only when the integer percent rises. */
module Progress {
  import opened Text
  import opened Events
  import opened Planner

  /** The integer percent after `done` of `total` completions. */
  function Percent(done: nat, total: nat): nat
    requires total > 0
  {
    done * 100 / total
  }

  lemma {:induction false} MultiplyMonotone(a: nat, b: nat, m: nat)
    requires a <= b
    ensures a * m <= b * m
  {
  }

  /** Integer division by a positive number is monotone. */
  lemma {:induction false} DivMonotone(x: nat, y: nat, t: nat)
    requires t > 0 && x <= y
    ensures x / t <= y / t
  {
    var qx, qy := x / t, y / t;
    assert x == qx * t + x % t;
    assert y == qy * t + y % t;
    if qx > qy {
      MultiplyMonotone(qy + 1, qx, t);
      assert false;
    }
  }

  /** Dividing `q * t + r`, with `r < t`, by `t` gives `q`. */
  lemma {:induction false} DivExact(q: nat, r: nat, t: nat)
    requires r < t
    ensures (q * t + r) / t == q
  {
    var x := q * t + r;
    var p := x / t;
    assert x == p * t + x % t;
    if p > q {
      MultiplyMonotone(q + 1, p, t);
      assert false;
    } else if p < q {
      MultiplyMonotone(p + 1, q, t);
      assert false;
    }
  }

  /** More completions never lower the percent. */
  lemma {:induction false} PercentMonotone(a: nat, b: nat, total: nat)
    requires total > 0 && a <= b
    ensures Percent(a, total) <= Percent(b, total)
  {
    MultiplyMonotone(a, b, 100);
    DivMonotone(a * 100, b * 100, total);
  }

  /** All completions make 100 percent, and one fewer does not. */
  lemma {:induction false} PercentAtEnd(total: nat)
    requires total > 0
    ensures Percent(total, total) == 100
    ensures Percent(total - 1, total) < 100
  {
    assert total * 100 == 100 * total + 0;
    DivExact(100, 0, total);
    DivMonotone((total - 1) * 100, 100 * total - 1, total);
    assert 100 * total - 1 == 99 * total + (total - 1);
    DivExact(99, total - 1, total);
  }

  /** Completion number `k` (counting from 1) is reported: the first one
      always, a later one when its percent beats the previous one's. */
  predicate Reports(k: nat, total: nat)
    requires 1 <= k && total > 0
  {
    k == 1 || Percent(k, total) > Percent(k - 1, total)
  }

  /** The events of the first `k` completions. */
  function ThrottleEvents(k: nat, total: nat): seq<UiEvent>
    requires total > 0
  {
    if k == 0 then []
    else ThrottleEvents(k - 1, total) +
         (if Reports(k, total) then [SetValue(k), Status(PercentStatusText(Percent(k, total)))] else [])
  }

  /** The counting loop over the order in which the pool completes its
      tasks. A failed download still counts as completed. */
  method TrackProgress(completions: seq<DownloadTask>) returns (events: seq<UiEvent>)
    ensures completions == [] ==> events == []
    ensures completions != [] ==>
      events == [StartDeterminate(|completions|)] + ThrottleEvents(|completions|, |completions|)
  {
    var total := |completions|;
    events := [];
    if total == 0 {
      return;
    }
    events := events + [StartDeterminate(total)];
    var completedCount := 0;
    var lastReportedPercent := -1;
    while completedCount < total
      invariant 0 <= completedCount <= total
      invariant lastReportedPercent == if completedCount == 0 then -1 else Percent(completedCount, total)
      invariant events == [StartDeterminate(total)] + ThrottleEvents(completedCount, total)
    {
      completedCount := completedCount + 1;
      var currentPercent := completedCount * 100 / total;
      PercentMonotone(completedCount - 1, completedCount, total);
      if currentPercent > lastReportedPercent {
        events := events + [SetValue(completedCount), Status(PercentStatusText(currentPercent))];
        lastReportedPercent := currentPercent;
      } else {
        assert events == [StartDeterminate(total)] + ThrottleEvents(completedCount, total);
      }
    }
  }

  /** Reports never outnumber the distinct percents reached: after `k`
      completions there are at most `Percent(k) + 1` reports (two events
      each), so a whole run reports at most 101 times. */
  lemma {:induction false} ThrottleBound(k: nat, total: nat)
    requires total > 0
    ensures |ThrottleEvents(k, total)| <= 2 * (Percent(k, total) + 1)
    decreases k
  {
    if k > 0 {
      ThrottleBound(k - 1, total);
      PercentMonotone(k - 1, k, total);
    }
  }

  /** The last completion is always reported, at 100 percent. */
  lemma {:induction false} FinalReport(total: nat)
    requires total > 0
    ensures var ev := ThrottleEvents(total, total);
      |ev| >= 2 && ev[|ev| - 2] == SetValue(total) && ev[|ev| - 1] == Status(PercentStatusText(100))
  {
    PercentAtEnd(total);
  }

  /** The completion counts the loop reports. */
  function Reported(k: nat, total: nat): seq<nat>
    requires total > 0
  {
    if k == 0 then [] else Reported(k - 1, total) + (if Reports(k, total) then [k] else [])
  }

  /** Reported counts rise strictly, and so do their percents. */
  lemma {:induction false} ReportedPercentsIncrease(k: nat, total: nat)
    requires total > 0
    ensures forall i :: 0 <= i < |Reported(k, total)| ==> 1 <= Reported(k, total)[i] <= k
    ensures forall i, j :: 0 <= i < j < |Reported(k, total)| ==>
      Reported(k, total)[i] < Reported(k, total)[j] &&
      Percent(Reported(k, total)[i], total) < Percent(Reported(k, total)[j], total)
    decreases k
  {
    if k > 0 {
      ReportedPercentsIncrease(k - 1, total);
      var r := Reported(k - 1, total);
      if Reports(k, total) && |r| > 0 {
        forall i | 0 <= i < |r|
          ensures Percent(r[i], total) < Percent(k, total)
        {
          PercentMonotone(r[i], k - 1, total);
        }
      }
    }
  }
}
