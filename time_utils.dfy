/** The lock schedule: when a note locked for some days falls due, and the
    mock clock the backtests set.  Times are Unix seconds (UTC); a day is
    86 400 seconds and day `d` starts at second `d * 86 400`. */
module TimeUtils {
  import opened Outcomes

  const DaySeconds: int := 86_400

  /** Python's `int(v)`: truncation toward zero. */
  function Trunc(v: real): (r: int)
    ensures 0.0 <= v ==> r as real <= v < r as real + 1.0
    ensures v < 0.0 ==> v <= r as real <= 0.0 && r as real < v + 1.0
  {
    if 0.0 <= v then v.Floor else -((-v).Floor)
  }

  /** `compute_due_time_and_duration` with the clock reading `curr` passed in:
      the day index `(curr + 86 399) // 86 400 + lockDays` and the seconds from
      `curr` to the start of that day, truncated to an integer.  The timestamp
      is a float, so `//` is the floor of a real quotient. */
  function DueTimeAndDuration(curr: real, lockDays: int): (int, int)
  {
    var dueDay := ((curr + 86_399.0) / 86_400.0).Floor + lockDays;
    (dueDay, Trunc(dueDay as real * 86_400.0 - curr))
  }

  /** `n` is the least day whose start is not before second `c`: the ceiling of `c / 86 400`. */
  ghost predicate IsCeilDay(n: int, c: int)
  {
    c <= n * DaySeconds && c > (n - 1) * DaySeconds
  }

  /** On a whole-second clock reading the rounding is a ceiling in integer
      arithmetic: `(c + 86 399) div 86 400`. */
  lemma {:induction false} CeilDayOfWholeSecond(c: int)
    ensures ((c as real + 86_399.0) / 86_400.0).Floor == (c + 86_399) / DaySeconds
    ensures IsCeilDay((c + 86_399) / DaySeconds, c)
  {
    var q, r := (c + 86_399) / DaySeconds, (c + 86_399) % DaySeconds;
    assert c + 86_399 == q * DaySeconds + r;
    var v := (c as real + 86_399.0) / 86_400.0;
    assert v == q as real + r as real / 86_400.0;
    assert q as real <= v < q as real + 1.0;
  }

  /** On a whole-second reading the due day is the next midnight at or after
      `c` plus the lock days, the duration is exactly the seconds until then,
      so `c + duration` is a midnight, and it lies between `lockDays` days and
      one second short of `lockDays + 1` days. */
  lemma {:induction false} DueOfWholeSecond(c: int, lockDays: int)
    ensures var (due, duration) := DueTimeAndDuration(c as real, lockDays);
      && IsCeilDay(due - lockDays, c)
      && duration == due * DaySeconds - c
      && (c + duration) % DaySeconds == 0
      && lockDays * DaySeconds <= duration <= lockDays * DaySeconds + 86_399
  {
    CeilDayOfWholeSecond(c);
    var (due, duration) := DueTimeAndDuration(c as real, lockDays);
    var n := due - lockDays;
    assert due as real * 86_400.0 - c as real == (due * DaySeconds - c) as real;
    assert duration == due * DaySeconds - c;
    assert c + duration == due * DaySeconds;
    assert duration == lockDays * DaySeconds + (n * DaySeconds - c);
  }

  /** A reading exactly at midnight of day `d` is due `lockDays` days later, after exactly that many days. */
  lemma {:induction false} DueAtMidnight(d: int, lockDays: int)
    ensures DueTimeAndDuration((d * DaySeconds) as real, lockDays) == (d + lockDays, lockDays * DaySeconds)
  {
    DueOfWholeSecond(d * DaySeconds, lockDays);
    var (due, duration) := DueTimeAndDuration((d * DaySeconds) as real, lockDays);
    var n := due - lockDays;
    assert d * DaySeconds <= n * DaySeconds && (n - 1) * DaySeconds < d * DaySeconds;
    assert d <= n < d + 1;
  }

  /** A later reading or a longer lock never gives an earlier due day. */
  lemma {:induction false} DueDayMonotone(curr1: real, curr2: real, lock1: int, lock2: int)
    requires curr1 <= curr2 && lock1 <= lock2
    ensures DueTimeAndDuration(curr1, lock1).0 <= DueTimeAndDuration(curr2, lock2).0
  {
    var v1, v2 := (curr1 + 86_399.0) / 86_400.0, (curr2 + 86_399.0) / 86_400.0;
    assert v1 <= v2;
    assert v1.Floor as real <= v2;
  }

  /** On a reading in the first second after a midnight, as written, the
      `+ 86 399` rounds down instead of up: at `0.5` with no lock days the due
      day is day 0, which began before the reading, and with one lock day the
      duration is one second short of a day. */
  lemma FractionalReadingRoundsDown()
    ensures DueTimeAndDuration(0.5, 0) == (0, 0)
    ensures 0.5 > (DueTimeAndDuration(0.5, 0).0 * DaySeconds) as real
    ensures DueTimeAndDuration(0.5, 1) == (1, 86_399)
  {
    assert ((0.5 + 86_399.0) / 86_400.0).Floor == 0;
    assert Trunc(-0.5) == 0;
    assert Trunc(86_399.5) == 86_399;
  }

  /** The intended schedule: the due day is the ceiling of the reading in
      days, for every reading, plus the lock days. */
  function DueTimeAndDurationCeil(curr: real, lockDays: int): (int, int)
  {
    var dueDay := -((-curr / 86_400.0).Floor) + lockDays;
    (dueDay, Trunc(dueDay as real * 86_400.0 - curr))
  }

  /** With the ceiling, the start of the due day is never before the reading
      and the duration lies between `lockDays` days and one second short of
      `lockDays + 1` days, fractional readings included, for any lock of
      whole days. */
  lemma {:induction false} CeilScheduleBounds(curr: real, lockDays: int)
    requires 0 <= lockDays
    ensures var (due, duration) := DueTimeAndDurationCeil(curr, lockDays);
      && curr <= ((due - lockDays) * DaySeconds) as real < curr + 86_400.0
      && lockDays * DaySeconds <= duration <= lockDays * DaySeconds + 86_399
  {
    var (due, duration) := DueTimeAndDurationCeil(curr, lockDays);
    var f := (-curr / 86_400.0).Floor;
    assert f as real <= -curr / 86_400.0 < f as real + 1.0;
    var n := due - lockDays;
    assert n == -f;
    assert curr / 86_400.0 <= n as real < curr / 86_400.0 + 1.0;
    assert curr <= n as real * 86_400.0 < curr + 86_400.0;
    var left := due as real * 86_400.0 - curr;
    assert left == (lockDays * DaySeconds) as real + (n as real * 86_400.0 - curr);
    assert (lockDays * DaySeconds) as real <= left < (lockDays * DaySeconds + DaySeconds) as real;
    assert duration as real <= left;
  }

  /** The process-wide clock.  When a mock reading is set, every timestamp is
      that reading; otherwise the wall clock, which the model receives as
      `now`. */
  class TimeManager {
    var mockTs: Option<real>

    /** The timestamp `getTimestamp` returns when the wall clock reads `now`. */
    function Timestamp(now: real): real
      reads this
    {
      if mockTs.Some? then mockTs.value else now
    }

    /** A fresh manager has no mock reading and follows the wall clock. */
    constructor()
      ensures mockTs == None
      ensures forall now :: Timestamp(now) == now
    {
      mockTs := None;
    }

    /** `setCurrentTime(ts)`: from now on every timestamp is `ts`, whatever the wall clock reads. */
    method SetCurrentTime(ts: real)
      modifies this
      ensures mockTs == Some(ts)
      ensures forall now :: Timestamp(now) == ts
    {
      mockTs := Some(ts);
    }

    /** `getTimestamp()`: the mock reading if one is set, else the wall clock. */
    method GetTimestamp(now: real) returns (t: real)
      ensures mockTs.Some? ==> t == mockTs.value
      ensures mockTs.None? ==> t == now
    {
      match mockTs
      case Some(ts) => t := ts;
      case None => t := now;
    }

    /** `resetMock()`: the wall clock is followed again. */
    method ResetMock()
      modifies this
      ensures mockTs == None
      ensures forall now :: Timestamp(now) == now
    {
      mockTs := None;
    }
  }
}
