/** The vampire-loss statistics engine: the rest-period scan run in place
    over the rows of the statistics store, the splitting of every kept
    rest at local day boundaries, and the totals of the report. */
module VampireLoss {
  import opened Wrappers
  import opened Clock
  import opened Rests
  import opened DaySplitter
  import opened RestScanner

  /** The rest periods reported for the rows between `lo` and `hi`: the
      rests the scan keeps, each split at local day boundaries, so that
      every reported period lies within one local day. */
  function RestPeriods(rows: seq<Sample>, lo: int, hi: int, tz: int): (ps: seq<Rest>)
    ensures |ps| >= |RawRests(rows, lo, hi)|
    ensures forall p <- ps :: WithinOneDay(p, tz)
  {
    SplitAllWithinOneDay(RawRests(rows, lo, hi), tz);
    SplitAll(RawRests(rows, lo, hi), tz)
  }

  class VampireStats {
    /** Offset of the local time zone from UTC, in milliseconds. */
    const tz: int
    /** The rest in progress, if one is open. */
    var restInProgress: Option<Rest>
    /** The rest periods reported so far, already split at day boundaries. */
    var restPeriods: seq<Rest>

    constructor (tz: int)
      ensures this.tz == tz && restInProgress == None && restPeriods == []
    {
      this.tz := tz;
      restInProgress := None;
      restPeriods := [];
    }

    /** Appends the pieces of `r`, cut at local day boundaries, to the
        reported periods. */
    method AddPeriod(r: Rest)
      requires Day(r.startTime, tz) <= Day(r.endTime, tz)
      modifies this`restPeriods
      ensures restPeriods == old(restPeriods) + Split(r, tz)
      decreases Day(r.endTime, tz) - Day(r.startTime, tz)
    {
      var startDay := Day(r.startTime, tz);
      var endDay := Day(r.endTime, tz);
      if startDay != endDay {
        var boundary := EndOfDay(r.startTime, tz);
        var ratio := (boundary - r.startTime) as real / (r.endTime - r.startTime) as real;
        var newEndRange := r.startRange - (r.startRange - r.endRange) * ratio;
        var firstPeriod := Rest(r.startTime, boundary, r.startRange, newEndRange);
        restPeriods := restPeriods + [firstPeriod];
        var remainder := Rest(boundary + SecondMillis, r.endTime, newEndRange, r.endRange);
        assert firstPeriod == FirstDay(r, tz) && remainder == Remainder(r, tz);
        AddPeriod(remainder);
      } else {
        restPeriods := restPeriods + [r];
      }
    }

    /** Feeds one sample to the scan. */
    method HandleStat(s: Sample)
      modifies this`restInProgress, this`restPeriods
      // no speed: nothing changes
      ensures s.speed.None? ==>
        restInProgress == old(restInProgress) && restPeriods == old(restPeriods)
      // resting without a range reading: nothing changes either
      ensures s.speed.Some? && Resting(s) && s.estRange.None? ==>
        restInProgress == old(restInProgress) && restPeriods == old(restPeriods)
      // resting with a range reading: opens a rest, or moves the end of the open one
      ensures s.speed.Some? && Resting(s) && s.estRange.Some? ==>
        && restPeriods == old(restPeriods)
        && restInProgress == Some(
             match old(restInProgress)
             case None => Rest(s.timestamp, s.timestamp, s.estRange.value, s.estRange.value)
             case Some(r) => Rest(r.startTime, s.timestamp, r.startRange, s.estRange.value))
      // moving or charging: closes the open rest, reporting it only if it lasted long enough
      ensures s.speed.Some? && !Resting(s) ==>
        && restInProgress == None
        && restPeriods == old(restPeriods) + SplitAll(Kept(old(restInProgress)), tz)
      // in every case: one step of the scan, with the rests it closes split and reported
      ensures restInProgress == Step(ScanState(old(restInProgress), []), s).inProgress
      ensures forall r <- Step(ScanState(old(restInProgress), []), s).closed :: r.startTime <= r.endTime
      ensures restPeriods == old(restPeriods) + SplitAll(Step(ScanState(old(restInProgress), []), s).closed, tz)
    {
      if s.speed.None? {
        return;
      }
      var voltage := s.voltage.GetOr(0.0);
      if s.speed.value == 0.0 && voltage == 0.0 {
        if s.estRange.Some? {
          if restInProgress.None? {
            restInProgress := Some(Rest(s.timestamp, s.timestamp, s.estRange.value, s.estRange.value));
          } else {
            restInProgress := Some(restInProgress.value.(endTime := s.timestamp, endRange := s.estRange.value));
          }
        }
      } else {
        if restInProgress.Some? {
          var r := restInProgress.value;
          if r.endTime - r.startTime > MinRestPeriod {
            DayMonotone(r.startTime, r.endTime, tz);
            AddPeriod(r);
          }
          restInProgress := None;
        }
      }
    }

    /** Closes the rest still open at the end of the rows, reporting it
        only if it lasted long enough. */
    method FlushRest()
      modifies this`restInProgress, this`restPeriods
      ensures restInProgress == None
      ensures restPeriods == old(restPeriods) + SplitAll(Kept(old(restInProgress)), tz)
    {
      if restInProgress.Some? && restInProgress.value.endTime - restInProgress.value.startTime > MinRestPeriod {
        DayMonotone(restInProgress.value.startTime, restInProgress.value.endTime, tz);
        AddPeriod(restInProgress.value);
      }
      restInProgress := None;
    }

    /** Scans the rows between `startTime` and `endTime`, closes the rest
        still open at the end, and totals the reported periods. The overall
        average is `None` when there is no rest time to average over. */
    method ShowStats(rows: seq<Sample>, startTime: int, endTime: int)
      returns (totalRestTime: int, totalLoss: real, overallAvg: Option<real>)
      requires restInProgress == None
      modifies this`restInProgress, this`restPeriods
      ensures restInProgress == None
      ensures restPeriods == RestPeriods(rows, startTime, endTime, tz)
      ensures totalRestTime == TotalRestTime(restPeriods) && totalLoss == TotalLoss(restPeriods)
      ensures overallAvg == OverallAvgLoss(totalLoss, totalRestTime)
    {
      restPeriods := [];
      ghost var closed: seq<Rest> := [];
      ghost var whole := Scan(ScanState(None, []), Window(rows, startTime, endTime));
      var i := 0;
      while i < |rows|
        invariant 0 <= i <= |rows|
        invariant forall r <- closed :: r.Duration() > MinRestPeriod
        invariant restPeriods == SplitAll(closed, tz)
        invariant Scan(ScanState(restInProgress, closed), Window(rows[i..], startTime, endTime)) == whole
      {
        var row := rows[i];
        assert rows[i..][1..] == rows[i + 1..];
        if row.timestamp < startTime {
          i := i + 1;
          continue;
        }
        if row.timestamp > endTime {
          break;
        }
        assert Window(rows[i..], startTime, endTime) == [row] + Window(rows[i + 1..], startTime, endTime);
        ghost var st := ScanState(restInProgress, closed);
        ghost var step := Step(ScanState(restInProgress, []), row);
        StepAppendsToClosed(restInProgress, closed, row);
        ScanKeepsOnlyLongRests(st, [row]);
        HandleStat(row);
        SplitAllAppend(closed, step.closed, tz);
        closed := closed + step.closed;
        i := i + 1;
      }
      assert Window(rows[i..], startTime, endTime) == [];
      ghost var kept := Kept(restInProgress);
      FlushRest();
      SplitAllAppend(closed, kept, tz);
      totalRestTime, totalLoss := Totals(restPeriods);
      overallAvg := OverallAvgLoss(totalLoss, totalRestTime);
    }
  }

  /** On rows in strictly increasing time order, each reported period ends
      before the next one starts. Their start times need not increase: a
      piece can start up to a second after its own end, so the next rest
      can open before the previous piece's start. */
  lemma RestPeriodsChronological(rows: seq<Sample>, lo: int, hi: int, tz: int)
    requires Increasing(rows)
    ensures Chronological(RestPeriods(rows, lo, hi, tz))
  {
    var w := Window(rows, lo, hi);
    WindowSelects(rows, lo, hi);
    var last := if w == [] then 0 else w[0].timestamp - 1;
    forall s <- w
      ensures last < s.timestamp
    {
      var j :| 0 <= j < |w| && w[j] == s;
      assert j > 0 ==> w[0].timestamp < w[j].timestamp;
    }
    ScanChronological(ScanState(None, []), w, last);
    var raw := RawRests(rows, lo, hi);
    SplitAllChronological(raw, tz);
  }

  /** The totals over the reported periods: splitting loses no range, so
      the total loss is that of the rests the scan kept, and it loses one
      second of rest time per day boundary crossed. */
  lemma RestPeriodsTotals(rows: seq<Sample>, lo: int, hi: int, tz: int)
    ensures TotalLoss(RestPeriods(rows, lo, hi, tz)) == TotalLoss(RawRests(rows, lo, hi))
    ensures TotalRestTime(RestPeriods(rows, lo, hi, tz))
      == TotalRestTime(RawRests(rows, lo, hi))
         - SecondMillis * (|RestPeriods(rows, lo, hi, tz)| - |RawRests(rows, lo, hi)|)
  {
    SplitAllConserves(RawRests(rows, lo, hi), tz);
  }
}
