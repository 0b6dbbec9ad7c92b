/** The single-pass scan that finds rest periods in a time series of
    samples. One accumulator holds the rest in progress: a stationary,
    non-charging sample with a range reading opens or extends it, and any
    moving or charging sample closes it. A closed rest is kept only if it
    lasted strictly longer than `MinRestPeriod`. This module states the
    scan on values; the class in module VampireLoss runs it in place. */
module RestScanner {
  import opened Wrappers
  import opened Rests

  /** One row of the statistics store: its timestamp and the speed,
      estimated range and charger voltage recorded with it, each of which
      may be missing. */
  datatype Sample = Sample(timestamp: int, speed: Option<real>, estRange: Option<real>, voltage: Option<real>)

  /** The car stands still and is not charging; a missing voltage counts
      as zero. */
  predicate Resting(s: Sample)
    requires s.speed.Some?
  {
    s.speed.value == 0.0 && s.voltage.GetOr(0.0) == 0.0
  }

  /** Where the scan stands: the rest in progress, if any, and the rests
      closed and kept so far, before any splitting at day boundaries. */
  datatype ScanState = ScanState(inProgress: Option<Rest>, closed: seq<Rest>)

  /** The rests kept when the rest in progress `acc` is closed: it is kept
      only if it lasted strictly longer than `MinRestPeriod`. */
  function Kept(acc: Option<Rest>): (k: seq<Rest>)
    ensures |k| <= 1
    ensures forall r <- k :: acc == Some(r) && r.Duration() > MinRestPeriod
    ensures acc.Some? && acc.value.Duration() > MinRestPeriod ==> k == [acc.value]
  {
    if acc.Some? && acc.value.Duration() > MinRestPeriod then [acc.value] else []
  }

  /** The effect of one sample on the scan. Closed rests are never
      changed: at most one is appended, and only by a moving or charging
      sample, which leaves no rest open. An open rest keeps its start time
      and start range for as long as it stays open; a newly opened one
      starts at the sample. */
  function Step(st: ScanState, s: Sample): (next: ScanState)
    ensures st.closed <= next.closed && |next.closed| <= |st.closed| + 1
    ensures s.speed.Some? && !Resting(s) ==> next.inProgress.None?
    ensures |next.closed| > |st.closed| ==> s.speed.Some? && !Resting(s)
    ensures next.inProgress.Some? && st.inProgress.Some? ==>
      && next.inProgress.value.startTime == st.inProgress.value.startTime
      && next.inProgress.value.startRange == st.inProgress.value.startRange
    ensures next.inProgress.Some? && st.inProgress.None? ==>
      next.inProgress.value.startTime == next.inProgress.value.endTime == s.timestamp
  {
    if s.speed.None? then st
    else if Resting(s) then
      match (st.inProgress, s.estRange)
      case (_, None) => st
      case (None, Some(range)) =>
        ScanState(Some(Rest(s.timestamp, s.timestamp, range, range)), st.closed)
      case (Some(r), Some(range)) =>
        ScanState(Some(r.(endTime := s.timestamp, endRange := range)), st.closed)
    else
      ScanState(None, st.closed + Kept(st.inProgress))
  }

  /** The scan state after the samples `samples`, in order, from `st`:
      each sample closes at most one rest. */
  function Scan(st: ScanState, samples: seq<Sample>): (last: ScanState)
    ensures |last.closed| <= |st.closed| + |samples|
    decreases |samples|
  {
    if samples == [] then st else Scan(Step(st, samples[0]), samples[1..])
  }

  /** The rows the scan loop hands on: rows before `lo` are skipped, and
      the loop stops at the first row after `hi`. */
  function Window(rows: seq<Sample>, lo: int, hi: int): (w: seq<Sample>)
    ensures forall s <- w :: s in rows && lo <= s.timestamp <= hi
  {
    if rows == [] then []
    else if rows[0].timestamp < lo then Window(rows[1..], lo, hi)
    else if rows[0].timestamp > hi then []
    else [rows[0]] + Window(rows[1..], lo, hi)
  }

  /** The rests found in `samples`: those closed during the scan, then the
      one still open at the end, under the same minimum-duration rule. */
  function Found(samples: seq<Sample>): (rs: seq<Rest>)
    ensures forall r <- rs :: r.Duration() > MinRestPeriod
  {
    var st := Scan(ScanState(None, []), samples);
    ScanKeepsOnlyLongRests(ScanState(None, []), samples);
    st.closed + Kept(st.inProgress)
  }

  /** The rests found in the rows between `lo` and `hi`. */
  function RawRests(rows: seq<Sample>, lo: int, hi: int): seq<Rest>
  {
    Found(Window(rows, lo, hi))
  }

  /** Timestamps strictly increase along `s`, as the keys of the sorted
      statistics store do. */
  predicate Increasing(s: seq<Sample>) {
    forall i, j :: 0 <= i < j < |s| ==> s[i].timestamp < s[j].timestamp
  }

  /** Every rest the scan keeps lasted strictly longer than
      `MinRestPeriod`: shorter ones, and those of exactly sixty minutes,
      are dropped. */
  lemma {:induction false} ScanKeepsOnlyLongRests(st: ScanState, samples: seq<Sample>)
    requires forall r <- st.closed :: r.Duration() > MinRestPeriod
    ensures forall r <- Scan(st, samples).closed :: r.Duration() > MinRestPeriod
    decreases |samples|
  {
    if samples != [] {
      ScanKeepsOnlyLongRests(Step(st, samples[0]), samples[1..]);
    }
  }

  /** What the scan keeps true when every sample so far came no later than
      `last`: the closed rests are in time order and end by `last`, and the
      rest in progress runs forwards, ends by `last` and starts after the
      last closed rest. */
  predicate Ordered(st: ScanState, last: int) {
    && Chronological(st.closed)
    && (|st.closed| > 0 ==> st.closed[|st.closed| - 1].endTime <= last)
    && (st.inProgress.Some? ==>
          && st.inProgress.value.startTime <= st.inProgress.value.endTime <= last
          && (|st.closed| > 0 ==> st.closed[|st.closed| - 1].endTime < st.inProgress.value.startTime))
  }

  /** A sample later than every earlier one keeps the scan ordered. */
  lemma StepOrdered(st: ScanState, s: Sample, last: int)
    requires Ordered(st, last) && last < s.timestamp
    ensures Ordered(Step(st, s), s.timestamp)
  {
    if s.speed.Some? && !Resting(s) && st.inProgress.Some? {
      ChronologicalSnoc(st.closed, st.inProgress.value);
    }
  }

  /** On rows in strictly increasing time order, the rests found are in
      time order: each ends before the next one starts. */
  lemma {:induction false} ScanChronological(st: ScanState, samples: seq<Sample>, last: int)
    requires Ordered(st, last) && Increasing(samples)
    requires forall s <- samples :: last < s.timestamp
    ensures Chronological(Scan(st, samples).closed + Kept(Scan(st, samples).inProgress))
    decreases |samples|
  {
    if samples == [] {
      if st.inProgress.Some? {
        ChronologicalSnoc(st.closed, st.inProgress.value);
      }
    } else {
      var s := samples[0];
      StepOrdered(st, s, last);
      forall t <- samples[1..]
        ensures s.timestamp < t.timestamp
      {
        var j :| 1 <= j < |samples| && samples[j] == t;
      }
      ScanChronological(Step(st, s), samples[1..], s.timestamp);
    }
  }

  /** On rows in strictly increasing time order, the scan sees exactly the
      rows whose timestamps lie in [lo, hi], in the same order. */
  lemma {:induction false} WindowSelects(rows: seq<Sample>, lo: int, hi: int)
    requires Increasing(rows)
    ensures Increasing(Window(rows, lo, hi))
    ensures forall s :: s in Window(rows, lo, hi) <==> s in rows && lo <= s.timestamp <= hi
    decreases |rows|
  {
    if rows != [] {
      var tail := rows[1..];
      IncreasingTail(rows);
      WindowSelects(tail, lo, hi);
      assert rows == [rows[0]] + tail;
      if lo <= rows[0].timestamp <= hi {
        IncreasingCons(rows[0], Window(tail, lo, hi));
      }
    }
  }

  /** The rows after the first of an increasing sequence are increasing
      and all later than the first. */
  lemma IncreasingTail(rows: seq<Sample>)
    requires Increasing(rows) && rows != []
    ensures Increasing(rows[1..])
    ensures forall t <- rows[1..] :: rows[0].timestamp < t.timestamp
  {
    var tail := rows[1..];
    forall i, j | 0 <= i < j < |tail|
      ensures tail[i].timestamp < tail[j].timestamp
    {
      assert tail[i] == rows[i + 1] && tail[j] == rows[j + 1];
    }
    forall t <- tail
      ensures rows[0].timestamp < t.timestamp
    {
      var j :| 0 <= j < |tail| && tail[j] == t;
      assert rows[j + 1] == t;
    }
  }

  /** A sample earlier than every sample of an increasing sequence can be
      put in front of it. */
  lemma IncreasingCons(x: Sample, w: seq<Sample>)
    requires Increasing(w)
    requires forall t <- w :: x.timestamp < t.timestamp
    ensures Increasing([x] + w)
  {
    var xw := [x] + w;
    forall i, j | 0 <= i < j < |xw|
      ensures xw[i].timestamp < xw[j].timestamp
    {
      assert xw[j] == w[j - 1];
      if i > 0 {
        assert xw[i] == w[i - 1];
      }
    }
  }

  /** Scanning two stretches of rows one after the other. */
  lemma {:induction false} ScanAppend(st: ScanState, a: seq<Sample>, b: seq<Sample>)
    ensures Scan(st, a + b) == Scan(Scan(st, a), b)
    decreases |a|
  {
    if a == [] {
      assert a + b == b;
    } else {
      assert (a + b)[1..] == a[1..] + b;
      ScanAppend(Step(st, a[0]), a[1..], b);
    }
  }

  /** The rests already closed play no part in the rest of the scan: it
      only appends to them. */
  lemma {:induction false} ScanAppendsToClosed(acc: Option<Rest>, closed: seq<Rest>, samples: seq<Sample>)
    ensures Scan(ScanState(acc, closed), samples)
      == ScanState(Scan(ScanState(acc, []), samples).inProgress,
                   closed + Scan(ScanState(acc, []), samples).closed)
    decreases |samples|
  {
    if samples == [] {
      assert closed + [] == closed;
    } else {
      var s := samples[0];
      var next0 := Step(ScanState(acc, []), s);
      StepAppendsToClosed(acc, closed, s);
      ScanAppendsToClosed(next0.inProgress, closed + next0.closed, samples[1..]);
      ScanAppendsToClosed(next0.inProgress, next0.closed, samples[1..]);
      var later := Scan(ScanState(next0.inProgress, []), samples[1..]).closed;
      assert closed + next0.closed + later == closed + (next0.closed + later);
    }
  }

  /** One step of the scan only appends to the rests already closed. */
  lemma StepAppendsToClosed(acc: Option<Rest>, closed: seq<Rest>, s: Sample)
    ensures Scan(ScanState(acc, closed), [s]) == Step(ScanState(acc, closed), s)
    ensures Step(ScanState(acc, closed), s)
      == ScanState(Step(ScanState(acc, []), s).inProgress, closed + Step(ScanState(acc, []), s).closed)
  {
    assert closed + [] == closed;
  }

  /** A moving or charging sample separates rests: the rests found in `a`,
      then that sample, then `b` are those found in `a` followed by those
      found in `b`. Two stops with a drive between them are never merged. */
  lemma DriveSeparatesRests(a: seq<Sample>, d: Sample, b: seq<Sample>)
    requires d.speed.Some? && !Resting(d)
    ensures Found(a + [d] + b) == Found(a) + Found(b)
  {
    var s0 := ScanState(None, []);
    ScanAppend(s0, a + [d], b);
    ScanAppend(s0, a, [d]);
    var sa := Scan(s0, a);
    assert Scan(sa, [d]) == Step(sa, d);
    assert Step(sa, d) == ScanState(None, Found(a));
    ScanAppendsToClosed(None, Found(a), b);
  }
}
