/** Worked examples of the scan and the splitter on concrete rows. */
module Scenarios {
  import opened Wrappers
  import opened Clock
  import opened Rests
  import opened DaySplitter
  import opened RestScanner

  const Minute: int := 60_000

  /** A stationary, non-charging sample with a range reading. */
  function Parked(t: int, range: real): Sample {
    Sample(t, Some(0.0), Some(range), None)
  }

  /** A moving sample. */
  function Driving(t: int): Sample {
    Sample(t, Some(50.0), None, None)
  }

  /** When every row lies in [lo, hi], the scan sees all of them. */
  lemma {:induction false} WindowKeepsAll(rows: seq<Sample>, lo: int, hi: int)
    requires forall s <- rows :: lo <= s.timestamp <= hi
    ensures Window(rows, lo, hi) == rows
    decreases |rows|
  {
    if rows != [] {
      WindowKeepsAll(rows[1..], lo, hi);
      assert rows == [rows[0]] + rows[1..];
    }
  }

  /** Scanning one sample and then the rest. */
  lemma ScanFirst(st: ScanState, s: Sample, rest: seq<Sample>)
    ensures Scan(st, [s] + rest) == Scan(Step(st, s), rest)
  {
    assert ([s] + rest)[1..] == rest;
  }

  /** Parked twice, then driving, all within the window: the one rest
      from the first to the second parked sample is found exactly when it
      lasted longer than `MinRestPeriod`. */
  lemma ParkThenDrive(t0: int, t1: int, t2: int, g0: real, g1: real, lo: int, hi: int)
    requires lo <= t0 <= hi && lo <= t1 <= hi && lo <= t2 <= hi
    ensures RawRests([Parked(t0, g0), Parked(t1, g1), Driving(t2)], lo, hi)
      == Kept(Some(Rest(t0, t1, g0, g1)))
  {
    var rows := [Parked(t0, g0), Parked(t1, g1), Driving(t2)];
    WindowKeepsAll(rows, lo, hi);
    var s0 := ScanState(None, []);
    var s1 := ScanState(Some(Rest(t0, t0, g0, g0)), []);
    var s2 := ScanState(Some(Rest(t0, t1, g0, g1)), []);
    ScanFirst(s0, rows[0], rows[1..]);
    ScanFirst(s1, rows[1], rows[2..]);
    ScanFirst(s2, rows[2], []);
  }

  /** Parked for 90 minutes, losing 10 of range, then driving: one rest of
      90 minutes is found. */
  lemma NinetyMinuteRest()
    ensures RawRests([Parked(0, 200.0), Parked(90 * Minute, 190.0), Driving(91 * Minute)], 0, 100 * Minute)
      == [Rest(0, 90 * Minute, 200.0, 190.0)]
  {
    ParkThenDrive(0, 90 * Minute, 91 * Minute, 200.0, 190.0, 0, 100 * Minute);
  }

  /** Ten of range lost over 90 minutes is 20/3 per hour. */
  lemma NinetyMinuteAverage()
    ensures Rest(0, 90 * Minute, 200.0, 190.0).AvgLoss() == 20.0 / 3.0
  {
    assert Hours(90 * Minute) == 1.5;
  }

  /** A rest of exactly sixty minutes is dropped; one of sixty-one is kept. */
  lemma StrictMinimum()
    ensures RawRests([Parked(0, 200.0), Parked(60 * Minute, 199.0), Driving(61 * Minute)], 0, 100 * Minute) == []
    ensures RawRests([Parked(0, 200.0), Parked(61 * Minute, 199.0), Driving(62 * Minute)], 0, 100 * Minute)
      == [Rest(0, 61 * Minute, 200.0, 199.0)]
  {
    ParkThenDrive(0, 60 * Minute, 61 * Minute, 200.0, 199.0, 0, 100 * Minute);
    ParkThenDrive(0, 61 * Minute, 62 * Minute, 200.0, 199.0, 0, 100 * Minute);
  }

  /** Rows that end while the car is still parked: the open rest is closed
      at the end of the rows and kept if it lasted long enough. */
  lemma OpenRestKeptAtEnd(t0: int, t1: int, g0: real, g1: real)
    requires t1 - t0 > MinRestPeriod
    ensures Found([Parked(t0, g0), Parked(t1, g1)]) == [Rest(t0, t1, g0, g1)]
  {
    var s0, s1 := ScanState(None, []), ScanState(Some(Rest(t0, t0, g0, g0)), []);
    ScanFirst(s0, Parked(t0, g0), [Parked(t1, g1)]);
    ScanFirst(s1, Parked(t1, g1), []);
  }

  /** A rest ending in the first second of the next day, at a smaller
      millisecond than it started with: the second piece starts one second
      after 23:59:59 plus the start's milliseconds, which is after the
      rest's own end. */
  lemma PieceMayStartAfterItsEnd()
    ensures var ps := Split(Rest(36_000_500, 86_400_200, 100.0, 90.0), 0);
      |ps| == 2 && ps[1].startTime == 86_400_500 && ps[1].endTime == 86_400_200
  {
    var r := Rest(36_000_500, 86_400_200, 100.0, 90.0);
    assert EndOfDay(r.startTime, 0) == 86_399_500;
  }
}
