/** Splitting of a rest period at local day boundaries. A rest that starts
    and ends on the same day is kept whole; otherwise it is cut at 23:59:59
    of its first day, the range at the cut is interpolated linearly in
    time, and the remainder, which starts one second later, is split in
    turn. */
module DaySplitter {
  import opened Clock
  import opened Rests

  /** The pieces a rest period is split into. The source decides "same day"
      by comparing day-of-month fields; here days are compared by index. */
  function Split(r: Rest, tz: int): (ps: seq<Rest>)
    requires Day(r.startTime, tz) <= Day(r.endTime, tz)
    ensures |ps| == Day(r.endTime, tz) - Day(r.startTime, tz) + 1
    ensures ps[0].startTime == r.startTime && ps[0].startRange == r.startRange
    ensures ps[|ps| - 1].endTime == r.endTime && ps[|ps| - 1].endRange == r.endRange
    ensures Day(r.startTime, tz) == Day(r.endTime, tz) ==> ps == [r]
    ensures |ps| > 1 ==> ps[0].endTime == EndOfDay(r.startTime, tz)
    decreases Day(r.endTime, tz) - Day(r.startTime, tz)
  {
    if Day(r.startTime, tz) == Day(r.endTime, tz) then
      [r]
    else
      [FirstDay(r, tz)] + Split(Remainder(r, tz), tz)
  }

  /** The piece of `r` up to 23:59:59 of its first day. */
  function FirstDay(r: Rest, tz: int): (f: Rest)
    requires Day(r.startTime, tz) < Day(r.endTime, tz)
    ensures f.startTime == r.startTime && f.startRange == r.startRange
    ensures f.endTime == EndOfDay(r.startTime, tz)
    ensures f.startTime <= f.endTime < r.endTime
    ensures Day(f.startTime, tz) == Day(f.endTime, tz)
    ensures f.Loss() * r.Duration() as real == r.Loss() * f.Duration() as real
  {
    var boundary := EndOfDay(r.startTime, tz);
    EndOfDayBeforeLaterDay(r.startTime, r.endTime, tz);
    Rest(r.startTime, boundary, r.startRange, BoundaryRange(r, boundary))
  }

  /** What is left of `r` after its first day: it starts one second after
      the first piece ends, with the range the first piece ends with. */
  function Remainder(r: Rest, tz: int): (rem: Rest)
    requires Day(r.startTime, tz) < Day(r.endTime, tz)
    ensures Day(rem.startTime, tz) == Day(r.startTime, tz) + 1
    ensures rem.startTime == FirstDay(r, tz).endTime + SecondMillis
    ensures rem.startRange == FirstDay(r, tz).endRange
    ensures rem.endTime == r.endTime && rem.endRange == r.endRange
  {
    var first := FirstDay(r, tz);
    Rest(first.endTime + SecondMillis, r.endTime, first.endRange, r.endRange)
  }

  /** The range at instant `t`, interpolated linearly in time between the
      two ends of `r`: the range given up by `t` is the share of the whole
      loss that the time elapsed by `t` is of the whole duration. */
  function BoundaryRange(r: Rest, t: int): (b: real)
    requires r.startTime != r.endTime
    ensures (r.startRange - b) * (r.endTime - r.startTime) as real == r.Loss() * (t - r.startTime) as real
  {
    var ratio := (t - r.startTime) as real / (r.endTime - r.startTime) as real;
    ScaledFraction(r.startRange - r.endRange, (t - r.startTime) as real, (r.endTime - r.startTime) as real);
    r.startRange - (r.startRange - r.endRange) * ratio
  }

  /** Multiplying back by the divisor cancels the division. */
  lemma ScaledFraction(x: real, p: real, w: real)
    requires w != 0.0
    ensures (x * (p / w)) * w == x * p
  {
    assert (p / w) * w == p;
    assert (x * (p / w)) * w == x * ((p / w) * w);
  }

  /** The pieces of every period of `rs`, in order. Every period gives
      at least one piece. */
  function SplitAll(rs: seq<Rest>, tz: int): (ps: seq<Rest>)
    requires forall r <- rs :: r.startTime <= r.endTime
    ensures |ps| >= |rs|
  {
    if rs == [] then []
    else
      DayMonotone(rs[0].startTime, rs[0].endTime, tz);
      Split(rs[0], tz) + SplitAll(rs[1..], tz)
  }

  /** Piece `b` follows piece `a`: it starts one second after `a` ends,
      with the range `a` ends with, and `a` runs from its start to
      23:59:59 of that day. */
  predicate Follows(a: Rest, b: Rest, tz: int) {
    && b.startTime == a.endTime + SecondMillis
    && b.startRange == a.endRange
    && a.startTime <= a.endTime
    && a.endTime == EndOfDay(a.startTime, tz)
  }

  /** Each piece of `ps` is followed by the next. */
  predicate Chained(ps: seq<Rest>, tz: int) {
    forall i :: 0 <= i < |ps| - 1 ==> Follows(ps[i], ps[i + 1], tz)
  }

  /** Consecutive pieces form a chain: each starts one second after the
      previous one ends, with the range the previous one ended with, and
      every piece but the last ends at 23:59:59 of its own day. */
  lemma {:induction false} SplitChain(r: Rest, tz: int)
    requires Day(r.startTime, tz) <= Day(r.endTime, tz)
    ensures Chained(Split(r, tz), tz)
    decreases Day(r.endTime, tz) - Day(r.startTime, tz)
  {
    if Day(r.startTime, tz) != Day(r.endTime, tz) {
      var first, rest := FirstDay(r, tz), Remainder(r, tz);
      SplitChain(rest, tz);
      var ps, qs := Split(r, tz), Split(rest, tz);
      assert ps == [first] + qs;
      forall i | 0 <= i < |ps| - 1
        ensures Follows(ps[i], ps[i + 1], tz)
      {
        if i > 0 {
          assert ps[i] == qs[i - 1] && ps[i + 1] == qs[i];
        } else {
          assert ps[0] == first && ps[1] == qs[0];
        }
      }
    }
  }

  /** Piece `p` of the rest `r` gives up, of the range still to be lost
      from its start to the end of `r`, the share that its own duration is
      of the time from its start to the end of `r`. */
  predicate Proportional(p: Rest, r: Rest) {
    p.Loss() * (r.endTime - p.startTime) as real == (p.startRange - r.endRange) * p.Duration() as real
  }

  /** The range at every cut is interpolated linearly: each piece loses
      range in proportion to its share of the time left until the end of
      the rest. With `SplitChain` this fixes every piece's ranges. */
  lemma {:induction false} SplitInterpolates(r: Rest, tz: int)
    requires Day(r.startTime, tz) <= Day(r.endTime, tz)
    ensures forall p <- Split(r, tz) :: Proportional(p, r)
    decreases Day(r.endTime, tz) - Day(r.startTime, tz)
  {
    if Day(r.startTime, tz) == Day(r.endTime, tz) {
      assert Proportional(r, r);
    } else {
      var first, rest := FirstDay(r, tz), Remainder(r, tz);
      SplitInterpolates(rest, tz);
      assert Split(r, tz) == [first] + Split(rest, tz);
      FirstDayProportional(r, tz);
      forall p <- Split(rest, tz)
        ensures Proportional(p, r)
      {
        SameEndProportional(p, rest, r);
      }
    }
  }

  /** The first piece of a rest that crosses midnight is proportional. */
  lemma FirstDayProportional(r: Rest, tz: int)
    requires Day(r.startTime, tz) < Day(r.endTime, tz)
    ensures Proportional(FirstDay(r, tz), r)
  {
    var f := FirstDay(r, tz);
    assert r.endTime - f.startTime == r.Duration();
    assert f.startRange - r.endRange == r.Loss();
  }

  /** Proportionality depends only on where, and with which range, the
      whole rest ends. */
  lemma SameEndProportional(p: Rest, r: Rest, r': Rest)
    requires Proportional(p, r)
    requires r.endTime == r'.endTime && r.endRange == r'.endRange
    ensures Proportional(p, r')
  {
  }

  /** `p` starts and ends on the same local day. */
  predicate WithinOneDay(p: Rest, tz: int) {
    Day(p.startTime, tz) == Day(p.endTime, tz)
  }

  /** Every piece lies within one local day, so splitting a piece again
      gives back just that piece. */
  lemma {:induction false} SplitPiecesWithinOneDay(r: Rest, tz: int)
    requires Day(r.startTime, tz) <= Day(r.endTime, tz)
    ensures forall p <- Split(r, tz) :: WithinOneDay(p, tz) && Split(p, tz) == [p]
    decreases Day(r.endTime, tz) - Day(r.startTime, tz)
  {
    if Day(r.startTime, tz) != Day(r.endTime, tz) {
      var first, rest := FirstDay(r, tz), Remainder(r, tz);
      SplitPiecesWithinOneDay(rest, tz);
      assert Split(r, tz) == [first] + Split(rest, tz);
    }
  }

  /** Splitting loses no range: the losses of the pieces add up to the loss
      of the whole period. It loses one second of rest time per cut. */
  lemma {:induction false} SplitConserves(r: Rest, tz: int)
    requires Day(r.startTime, tz) <= Day(r.endTime, tz)
    ensures TotalLoss(Split(r, tz)) == r.Loss()
    ensures TotalRestTime(Split(r, tz)) == r.Duration() - SecondMillis * (|Split(r, tz)| - 1)
    decreases Day(r.endTime, tz) - Day(r.startTime, tz)
  {
    if Day(r.startTime, tz) == Day(r.endTime, tz) {
      TotalsCons(r, []);
    } else {
      var first, rest := FirstDay(r, tz), Remainder(r, tz);
      SplitConserves(rest, tz);
      TotalsCons(first, Split(rest, tz));
    }
  }

  /** The interpolated range at an instant inside the period lies between
      the ranges at its two ends. */
  lemma BoundaryRangeBetween(r: Rest, t: int)
    requires r.startTime <= t <= r.endTime && r.startTime != r.endTime
    ensures Between(BoundaryRange(r, t), r.startRange, r.endRange)
  {
    var ratio := (t - r.startTime) as real / (r.endTime - r.startTime) as real;
    RatioInUnit((t - r.startTime) as real, (r.endTime - r.startTime) as real);
    var d := r.startRange - r.endRange;
    ScaleBetween(d, ratio);
    assert BoundaryRange(r, t) == r.startRange - d * ratio;
  }

  /** A fraction of a positive whole no larger than it lies in [0, 1]. */
  lemma RatioInUnit(part: real, whole: real)
    requires 0.0 <= part <= whole && whole > 0.0
    ensures 0.0 <= part / whole <= 1.0
  {
  }

  /** Scaling by a factor in [0, 1] lands between zero and the scaled value. */
  lemma ScaleBetween(d: real, q: real)
    requires 0.0 <= q <= 1.0
    ensures Between(d * q, 0.0, d)
  {
    if d >= 0.0 {
      assert d * q <= d * 1.0;
    } else {
      assert d * 1.0 <= d * q;
    }
  }

  /** `x` lies in the closed interval spanned by `a` and `b`. */
  predicate Between(x: real, a: real, b: real) {
    (a <= x <= b) || (b <= x <= a)
  }

  /** Every range a piece starts or ends with lies between the ranges at the
      two ends of the whole period; in particular, when the period lost
      range, no piece gained any. */
  lemma {:induction false} SplitRangesBetween(r: Rest, tz: int)
    requires Day(r.startTime, tz) <= Day(r.endTime, tz)
    ensures forall p <- Split(r, tz) ::
      && Between(p.startRange, r.startRange, r.endRange)
      && Between(p.endRange, r.startRange, r.endRange)
      && (r.Loss() >= 0.0 ==> p.Loss() >= 0.0)
    decreases Day(r.endTime, tz) - Day(r.startTime, tz)
  {
    if Day(r.startTime, tz) != Day(r.endTime, tz) {
      var first, rest := FirstDay(r, tz), Remainder(r, tz);
      BoundaryRangeBetween(r, first.endTime);
      SplitRangesBetween(rest, tz);
      assert Split(r, tz) == [first] + Split(rest, tz);
    }
  }

  /** Splitting a list distributes over concatenation. */
  lemma {:induction false} SplitAllAppend(a: seq<Rest>, b: seq<Rest>, tz: int)
    requires forall r <- a :: r.startTime <= r.endTime
    requires forall r <- b :: r.startTime <= r.endTime
    ensures SplitAll(a + b, tz) == SplitAll(a, tz) + SplitAll(b, tz)
    decreases |a|
  {
    if a == [] {
      assert a + b == b;
    } else {
      assert (a + b)[1..] == a[1..] + b;
      SplitAllAppend(a[1..], b, tz);
    }
  }

  /** Splitting a list of rests loses no range, and one second of rest time
      for every piece beyond the first of each rest. */
  lemma {:induction false} SplitAllConserves(rs: seq<Rest>, tz: int)
    requires forall r <- rs :: r.startTime <= r.endTime
    ensures TotalLoss(SplitAll(rs, tz)) == TotalLoss(rs)
    ensures TotalRestTime(SplitAll(rs, tz)) == TotalRestTime(rs) - SecondMillis * (|SplitAll(rs, tz)| - |rs|)
    decreases |rs|
  {
    if rs != [] {
      DayMonotone(rs[0].startTime, rs[0].endTime, tz);
      SplitConserves(rs[0], tz);
      SplitAllConserves(rs[1..], tz);
      TotalsAppend(Split(rs[0], tz), SplitAll(rs[1..], tz));
      TotalsCons(rs[0], rs[1..]);
      assert rs == [rs[0]] + rs[1..];
    }
  }

  /** Every piece of every rest lies within one local day. */
  lemma {:induction false} SplitAllWithinOneDay(rs: seq<Rest>, tz: int)
    requires forall r <- rs :: r.startTime <= r.endTime
    ensures forall p <- SplitAll(rs, tz) :: WithinOneDay(p, tz)
    decreases |rs|
  {
    if rs != [] {
      DayMonotone(rs[0].startTime, rs[0].endTime, tz);
      SplitPiecesWithinOneDay(rs[0], tz);
      SplitAllWithinOneDay(rs[1..], tz);
    }
  }

  /** When each rest ends before the next starts, each piece ends before
      the next one starts. Start times alone need not increase, since a
      piece can start after its own end. */
  lemma {:induction false} SplitAllChronological(rs: seq<Rest>, tz: int)
    requires forall r <- rs :: r.startTime <= r.endTime
    requires Chronological(rs)
    ensures Chronological(SplitAll(rs, tz))
    ensures |rs| > 0 ==> |SplitAll(rs, tz)| > 0 && SplitAll(rs, tz)[0].startTime == rs[0].startTime
    decreases |rs|
  {
    if rs != [] {
      DayMonotone(rs[0].startTime, rs[0].endTime, tz);
      var ps := Split(rs[0], tz);
      var tail := rs[1..];
      assert Chronological(tail) by {
        forall i | 0 <= i < |tail| - 1
          ensures tail[i].endTime < tail[i + 1].startTime
        {
          assert tail[i] == rs[i + 1] && tail[i + 1] == rs[i + 2];
        }
      }
      SplitAllChronological(tail, tz);
      var qs := SplitAll(tail, tz);
      SplitChain(rs[0], tz);
      assert Chronological(ps) by {
        forall i | 0 <= i < |ps| - 1
          ensures ps[i].endTime < ps[i + 1].startTime
        {
          assert Follows(ps[i], ps[i + 1], tz);
        }
      }
      ChronologicalConcat(ps, qs);
    }
  }
}
