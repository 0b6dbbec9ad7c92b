/** The local calendar, reduced to what the rest-period engine asks of it:
    which day an instant falls on and the last second of that day.
    Instants are epoch milliseconds; the time zone is a fixed offset `tz`
    (milliseconds ahead of UTC). */
module Clock {

  /** Milliseconds in one calendar day. */
  const DayMillis: int := 86_400_000

  /** 23:59:59.000 as an offset from local midnight. */
  const LastSecondOfDay: int := 86_399_000

  /** Milliseconds in one second. */
  const SecondMillis: int := 1000

  /** Index of the local calendar day that contains instant `t`. */
  function Day(t: int, tz: int): int {
    (t + tz) / DayMillis
  }

  /** Milliseconds since local midnight at instant `t`. */
  function TimeOfDay(t: int, tz: int): (m: int)
    ensures 0 <= m < DayMillis
    ensures t + tz == Day(t, tz) * DayMillis + m
  {
    (t + tz) % DayMillis
  }

  /** The millisecond-of-second field of instant `t` in local time. */
  function MillisOfSecond(t: int, tz: int): (m: int)
    ensures 0 <= m < SecondMillis
  {
    (t + tz) % SecondMillis
  }

  /** 23:59:59 of the local day containing `t`, with the millisecond field
      of `t` left as it was: the hour, minute and second fields are set,
      the millisecond field is not. */
  function EndOfDay(t: int, tz: int): (b: int)
    ensures Day(b, tz) == Day(t, tz)
    ensures TimeOfDay(b, tz) == LastSecondOfDay + MillisOfSecond(t, tz)
    ensures MillisOfSecond(b, tz) == MillisOfSecond(t, tz)
    ensures t <= b
    ensures Day(b + SecondMillis, tz) == Day(t, tz) + 1
  {
    var d, tod, m := Day(t, tz), TimeOfDay(t, tz), MillisOfSecond(t, tz);
    var b := t - tod + LastSecondOfDay + m;
    DivModDay(b + tz, d, LastSecondOfDay + m);
    DivModDay(b + tz + SecondMillis, d + 1, m);
    DivModSecond(b + tz, d * 86_400 + 86_399, m);
    DivModSecond(t + tz, d * 86_400 + tod / SecondMillis, tod % SecondMillis);
    b
  }

  /** The day index never decreases as time goes on. */
  lemma DayMonotone(a: int, b: int, tz: int)
    requires a <= b
    ensures Day(a, tz) <= Day(b, tz)
  {
  }

  /** An instant on a later day than `t` comes after the end of `t`'s day. */
  lemma EndOfDayBeforeLaterDay(t: int, u: int, tz: int)
    requires Day(t, tz) < Day(u, tz)
    ensures EndOfDay(t, tz) < u
  {
    if u <= EndOfDay(t, tz) {
      DayMonotone(u, EndOfDay(t, tz), tz);
    }
  }

  /** Division by the length of a day, pinned down by a decomposition. */
  lemma DivModDay(x: int, q: int, r: int)
    requires 0 <= r < DayMillis && x == q * DayMillis + r
    ensures x / DayMillis == q && x % DayMillis == r
  {
  }

  /** Division by the length of a second, pinned down by a decomposition. */
  lemma DivModSecond(x: int, q: int, r: int)
    requires 0 <= r < SecondMillis && x == q * SecondMillis + r
    ensures x / SecondMillis == q && x % SecondMillis == r
  {
  }
}
