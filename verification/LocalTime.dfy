/**
 * Local time as section 21.4.1 of ECMA-262 defines it: an offset that depends on
 * the instant, LocalTime(t), and UTC(t) with its rules for repeated and skipped
 * wall-clock times. `JsDate` is the mutable Date object the grid code uses.
 * All times are whole milliseconds.
 */
module LocalTime {
  import opened Common
  import opened Calendar

  const MINUTE := 60_000
  const HOUR := 3_600_000
  const DAY := 86_400_000

  /** A time zone: its offset at every instant, and a bound on the offsets. */
  datatype Zone = Zone(offset: int -> int, bound: int)

  ghost predicate ZoneOk(z: Zone) {
    0 <= z.bound && forall t :: -z.bound <= z.offset(t) <= z.bound
  }

  /** The wall clock at instant `t`. */
  function Local(z: Zone, t: int): int { t + z.offset(t) }

  /** The first instant in `[t, hi]` whose wall clock reads `wall`. */
  function FirstInstant(z: Zone, wall: int, t: int, hi: int): (r: Option<int>)
    ensures r.Some? ==> t <= r.value <= hi && Local(z, r.value) == wall
    ensures r.Some? ==> forall u :: t <= u < r.value ==> Local(z, u) != wall
    ensures r.None? ==> forall u :: t <= u <= hi ==> Local(z, u) != wall
    decreases hi - t
  {
    if t > hi then None
    else if Local(z, t) == wall then Some(t)
    else FirstInstant(z, wall, t + 1, hi)
  }

  /**
   * Among the instants in `[lo, t]` whose wall clock reads earlier than `wall`,
   * the last one that shows the latest such reading.
   */
  function LastBefore(z: Zone, wall: int, lo: int, t: int): (r: int)
    requires lo <= t && Local(z, lo) < wall
    ensures lo <= r <= t && Local(z, r) < wall
    ensures forall u :: lo <= u <= t && Local(z, u) < wall ==>
              Local(z, u) < Local(z, r) || (Local(z, u) == Local(z, r) && u <= r)
    decreases t - lo
  {
    if t == lo then lo
    else
      var r := LastBefore(z, wall, lo, t - 1);
      if Local(z, r) <= Local(z, t) < wall then t else r
  }

  /**
   * UTC(wall): the earlier instant of a repeated wall time; a skipped wall time
   * is read with the offset in force before the transition that skips it.
   */
  function UTC(z: Zone, wall: int): int
    requires ZoneOk(z)
  {
    match FirstInstant(z, wall, wall - z.bound, wall + z.bound)
    case Some(t) => t
    case None => wall - z.offset(LastBefore(z, wall, wall - 3 * z.bound - 1, wall + z.bound))
  }

  /** The wall time is shown by some clock: it is not skipped. */
  ghost predicate Exists(z: Zone, wall: int) {
    exists t :: Local(z, t) == wall
  }

  lemma UtcOfExisting(z: Zone, wall: int)
    requires ZoneOk(z) && Exists(z, wall)
    ensures Local(z, UTC(z, wall)) == wall
    ensures forall u :: Local(z, u) == wall ==> UTC(z, wall) <= u
  {
    forall u | Local(z, u) == wall ensures wall - z.bound <= u <= wall + z.bound {
      assert -z.bound <= z.offset(u) <= z.bound;
    }
  }

  // ---------------------------------------------------------------------
  // Fields of a wall time
  // ---------------------------------------------------------------------

  function DayOf(wall: int): int { wall / DAY }

  function TimeInDay(wall: int): int { wall % DAY }

  function HoursOf(wall: int): int { wall / HOUR % 24 }

  function MinutesOf(wall: int): int { wall / MINUTE % 60 }

  /** Minutes since the wall clock's midnight. */
  function MinuteOfDay(wall: int): int { HoursOf(wall) * 60 + MinutesOf(wall) }

  lemma WallFields(wall: int)
    ensures wall == DayOf(wall) * DAY + TimeInDay(wall)
    ensures 0 <= TimeInDay(wall) < DAY
    ensures MinuteOfDay(wall) == TimeInDay(wall) / MINUTE
    ensures wall == DayOf(wall) * DAY + HoursOf(wall) * HOUR + MinutesOf(wall) * MINUTE + wall % MINUTE
  {
    var q, r := wall / MINUTE, wall % MINUTE;
    assert wall / HOUR == q / 60;
    assert wall / DAY == q / 1440;
    assert TimeInDay(wall) == q % 1440 * MINUTE + r;
    assert q % 1440 == q / 60 % 24 * 60 + q % 60;
  }

  /** The wall time `time` milliseconds into day `d`. */
  lemma WallAt(d: int, time: int)
    requires 0 <= time < DAY
    ensures DayOf(d * DAY + time) == d && TimeInDay(d * DAY + time) == time
    ensures MinuteOfDay(d * DAY + time) == time / MINUTE
  {
    WallFields(d * DAY + time);
  }

  // ---------------------------------------------------------------------
  // Values of the setters
  // ---------------------------------------------------------------------

  /** Local midnight of day `d`, as parsing `yyyy-MM-ddT00:00:00` gives it. */
  function AtMidnight(z: Zone, d: int): int
    requires ZoneOk(z)
  {
    UTC(z, d * DAY)
  }

  function WithHours(z: Zone, t: int, h: int): int
    requires ZoneOk(z)
  {
    UTC(z, DayOf(Local(z, t)) * DAY + h * HOUR)
  }

  function PlusMinutes(z: Zone, t: int, k: int): int
    requires ZoneOk(z)
  {
    UTC(z, Local(z, t) + k * MINUTE)
  }

  function PlusDays(z: Zone, t: int, k: int): int
    requires ZoneOk(z)
  {
    UTC(z, Local(z, t) + k * DAY)
  }

  /** Where the wanted wall time is shown, a setter makes the clock show exactly it. */
  lemma SettersShowTheTime(z: Zone, t: int, h: int, k: int, n: int)
    requires ZoneOk(z)
    ensures Exists(z, DayOf(Local(z, t)) * DAY + h * HOUR) ==> Local(z, WithHours(z, t, h)) == DayOf(Local(z, t)) * DAY + h * HOUR
    ensures Exists(z, Local(z, t) + k * MINUTE) ==> Local(z, PlusMinutes(z, t, k)) == Local(z, t) + k * MINUTE
    ensures Exists(z, Local(z, t) + n * DAY) ==> Local(z, PlusDays(z, t, n)) == Local(z, t) + n * DAY
  {
    hide UTC, Local, Exists, DayOf;
    if Exists(z, DayOf(Local(z, t)) * DAY + h * HOUR) { UtcOfExisting(z, DayOf(Local(z, t)) * DAY + h * HOUR); }
    if Exists(z, Local(z, t) + k * MINUTE) { UtcOfExisting(z, Local(z, t) + k * MINUTE); }
    if Exists(z, Local(z, t) + n * DAY) { UtcOfExisting(z, Local(z, t) + n * DAY); }
  }

  /** A Date object: one instant, read and changed through the local zone. */
  class JsDate {
    var t: int
    const zone: Zone

    constructor Midnight(z: Zone, d: int)
      requires ZoneOk(z)
      ensures zone == z && t == AtMidnight(z, d)
    {
      zone := z;
      t := UTC(z, d * DAY);
    }

    constructor Copy(z: Zone, t: int)
      ensures zone == z && this.t == t
    {
      zone := z;
      this.t := t;
    }

    function GetHours(): int
      reads this
    {
      HoursOf(Local(zone, t))
    }

    function GetMinutes(): int
      reads this
    {
      MinutesOf(Local(zone, t))
    }

    function GetCivil(): Civil
      reads this
    {
      CivilOf(DayOf(Local(zone, t)))
    }

    /** `setHours(h, 0, 0, 0)`. */
    method SetHours(h: int)
      requires ZoneOk(zone)
      modifies this
      ensures t == WithHours(zone, old(t), h)
    {
      var wall := Local(zone, t);
      t := UTC(zone, DayOf(wall) * DAY + h * HOUR);
    }

    /** `setMinutes(m)`: the hour, the second and the millisecond stay. */
    method SetMinutes(m: int)
      requires ZoneOk(zone)
      modifies this
      ensures t == PlusMinutes(zone, old(t), m - old(GetMinutes()))
    {
      var wall := Local(zone, t);
      WallFields(wall);
      t := UTC(zone, DayOf(wall) * DAY + HoursOf(wall) * HOUR + m * MINUTE + wall % MINUTE);
    }

    /** `setDate(d)`: the day of the month may overflow. */
    method SetDate(d: int)
      requires ZoneOk(zone)
      modifies this
      ensures t == PlusDays(zone, old(t), d - old(GetCivil()).day)
    {
      var wall := Local(zone, t);
      var c := CivilOf(DayOf(wall));
      WallFields(wall);
      t := UTC(zone, MakeDay(c.year, c.month, d) * DAY + TimeInDay(wall));
      assert MakeDay(c.year, c.month, d) == DayOf(wall) + (d - c.day);
    }
  }

  // ---------------------------------------------------------------------
  // Stretches without a skipped wall time
  // ---------------------------------------------------------------------

  /** From `lo` to `hi` the wall clock never jumps forward. */
  ghost predicate NoGap(z: Zone, lo: int, hi: int) {
    forall t :: lo <= t < hi ==> Local(z, t + 1) <= Local(z, t) + 1
  }

  /** Without forward jumps the wall clock passes every reading between two of its readings. */
  lemma {:induction false} WallIsReached(z: Zone, lo: int, hi: int, wall: int) returns (t: int)
    requires NoGap(z, lo, hi) && lo <= hi && Local(z, lo) <= wall <= Local(z, hi)
    ensures lo <= t <= hi && Local(z, t) == wall
    decreases hi - lo
  {
    if Local(z, lo) == wall {
      t := lo;
    } else {
      assert lo < hi;
      assert Local(z, lo + 1) <= Local(z, lo) + 1;
      t := WallIsReached(z, lo + 1, hi, wall);
    }
  }

  lemma ExistsWithoutGap(z: Zone, lo: int, hi: int, wall: int)
    requires ZoneOk(z) && NoGap(z, lo, hi)
    requires lo <= wall - z.bound && wall + z.bound <= hi
    ensures Exists(z, wall)
  {
    assert -z.bound <= z.offset(wall - z.bound) <= z.bound;
    assert -z.bound <= z.offset(wall + z.bound) <= z.bound;
    var t := WallIsReached(z, wall - z.bound, wall + z.bound, wall);
  }

  /** Without gaps, later wall times are later instants, repeated hours included. */
  lemma UtcIsMonotone(z: Zone, lo: int, hi: int, w1: int, w2: int)
    requires ZoneOk(z) && NoGap(z, lo, hi)
    requires lo <= w1 - z.bound && w2 + z.bound <= hi && w1 < w2
    ensures UTC(z, w1) < UTC(z, w2)
  {
    ExistsWithoutGap(z, lo, hi, w1);
    ExistsWithoutGap(z, lo, hi, w2);
    UtcOfExisting(z, w1);
    UtcOfExisting(z, w2);
    var t2 := UTC(z, w2);
    assert -z.bound <= z.offset(t2) <= z.bound;
    assert -z.bound <= z.offset(w1 - z.bound) <= z.bound;
    var t1 := WallIsReached(z, w1 - z.bound, t2, w1);
  }
}
