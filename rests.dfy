/** Rest periods and the statistics derived from them: the `Rest` record,
    the hours conversion, the per-period loss and average loss, and the
    totals over a list of periods. */
module Rests {
  import opened Wrappers

  /** Milliseconds in one hour, the divisor of the hours conversion. */
  const HourMillis: int := 3_600_000

  /** A rest lasting this long or less is dropped as noise (60 minutes). */
  const MinRestPeriod: int := 60 * 60 * 1000

  /** Duration in milliseconds as a number of hours. */
  function Hours(millis: int): (h: real)
    ensures h * HourMillis as real == millis as real
    ensures millis > MinRestPeriod ==> h > 1.0
    ensures millis == 0 <==> h == 0.0
  {
    millis as real / HourMillis as real
  }

  /** A stretch of time during which the car stood still and did not charge,
      with the estimated range at its two ends. */
  datatype Rest = Rest(startTime: int, endTime: int, startRange: real, endRange: real) {

    /** Milliseconds from the start to the end of the rest. */
    function Duration(): int {
      endTime - startTime
    }

    /** Range given up during the rest. */
    function Loss(): (l: real)
      ensures l >= 0.0 <==> endRange <= startRange
      ensures endRange + l == startRange
    {
      startRange - endRange
    }

    /** Average range lost per hour of rest. A rest of zero duration has no
        average: the source divides by zero there. */
    function AvgLoss(): (a: real)
      requires Duration() != 0
      ensures a * Hours(Duration()) == Loss()
      ensures Duration() > 0 ==> (a >= 0.0 <==> Loss() >= 0.0)
    {
      Loss() / Hours(Duration())
    }
  }

  /** Sum of the durations of `ps`, accumulated from the front. */
  function TotalRestTime(ps: seq<Rest>): int
  {
    if ps == [] then 0 else TotalRestTime(ps[..|ps| - 1]) + ps[|ps| - 1].Duration()
  }

  /** Sum of the losses of `ps`, accumulated from the front. */
  function TotalLoss(ps: seq<Rest>): real
  {
    if ps == [] then 0.0 else TotalLoss(ps[..|ps| - 1]) + ps[|ps| - 1].Loss()
  }

  /** Both totals distribute over concatenation. */
  lemma {:induction false} TotalsAppend(a: seq<Rest>, b: seq<Rest>)
    ensures TotalRestTime(a + b) == TotalRestTime(a) + TotalRestTime(b)
    ensures TotalLoss(a + b) == TotalLoss(a) + TotalLoss(b)
    decreases |b|
  {
    if b == [] {
      assert a + b == a;
    } else {
      var b' := b[..|b| - 1];
      assert (a + b)[..|a + b| - 1] == a + b';
      TotalsAppend(a, b');
    }
  }

  /** The total of one period followed by more is that period's share plus
      the rest. */
  lemma TotalsCons(r: Rest, ps: seq<Rest>)
    ensures TotalRestTime([r] + ps) == r.Duration() + TotalRestTime(ps)
    ensures TotalLoss([r] + ps) == r.Loss() + TotalLoss(ps)
  {
    TotalsAppend([r], ps);
    assert [r][..0] == [];
  }

  /** Each rest of `rs` ends before the next one starts. */
  predicate Chronological(rs: seq<Rest>) {
    forall i :: 0 <= i < |rs| - 1 ==> rs[i].endTime < rs[i + 1].startTime
  }

  /** A rest appended after the end of a chronological list keeps it
      chronological. */
  lemma ChronologicalSnoc(rs: seq<Rest>, r: Rest)
    requires Chronological(rs)
    requires |rs| > 0 ==> rs[|rs| - 1].endTime < r.startTime
    ensures Chronological(rs + [r])
  {
    var xs := rs + [r];
    forall i | 0 <= i < |xs| - 1
      ensures xs[i].endTime < xs[i + 1].startTime
    {
      if i < |rs| - 1 {
        assert xs[i] == rs[i] && xs[i + 1] == rs[i + 1];
      }
    }
  }

  /** Two chronological lists, the first ending before the second starts,
      make one chronological list. */
  lemma ChronologicalConcat(a: seq<Rest>, b: seq<Rest>)
    requires Chronological(a) && Chronological(b)
    requires |a| > 0 && |b| > 0 ==> a[|a| - 1].endTime < b[0].startTime
    ensures Chronological(a + b)
  {
    var xs := a + b;
    forall i | 0 <= i < |xs| - 1
      ensures xs[i].endTime < xs[i + 1].startTime
    {
      if i < |a| - 1 {
        assert xs[i] == a[i] && xs[i + 1] == a[i + 1];
      } else if i >= |a| {
        assert xs[i] == b[i - |a|] && xs[i + 1] == b[i - |a| + 1];
      }
    }
  }

  /** The totals loop of the report: sums rest time and loss over the
      periods, one period at a time. */
  method Totals(periods: seq<Rest>) returns (totalRestTime: int, totalLoss: real)
    ensures totalRestTime == TotalRestTime(periods)
    ensures totalLoss == TotalLoss(periods)
  {
    totalRestTime, totalLoss := 0, 0.0;
    for i := 0 to |periods|
      invariant totalRestTime == TotalRestTime(periods[..i])
      invariant totalLoss == TotalLoss(periods[..i])
    {
      var r := periods[i];
      assert periods[..i + 1][..i] == periods[..i];
      totalRestTime := totalRestTime + (r.endTime - r.startTime);
      totalLoss := totalLoss + (r.startRange - r.endRange);
    }
    assert periods[..|periods|] == periods;
  }

  /** Average loss per hour over all periods, or `None` ("no data") when
      the periods add up to no rest time at all. */
  function OverallAvgLoss(totalLoss: real, totalRestTime: int): (avg: Option<real>)
    ensures avg.None? <==> totalRestTime == 0
    ensures avg.Some? ==> avg.value * Hours(totalRestTime) == totalLoss
  {
    if totalRestTime == 0 then None else Some(totalLoss / Hours(totalRestTime))
  }
}
