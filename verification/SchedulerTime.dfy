/**
 * The planning board's grid: cells to instants and back, the column count of a
 * day, and shifting calendar dates through local Date objects.
 */
module SchedulerTime {
  import opened Common
  import opened Calendar
  import opened LocalTime

  /** `Math.max(1, Math.round(((end - start) * 60) / cellMinutes))`. */
  function ColumnsPerDay(dayStart: int, dayEnd: int, cellMinutes: int): (n: int)
    requires cellMinutes >= 1
    ensures n >= 1
    // The last column always starts before the end of the day (or is the only one).
    ensures n > 1 ==> dayStart * 60 + (n - 1) * cellMinutes < dayEnd * 60
  {
    var span := (dayEnd - dayStart) * 60;
    var rounded := (2 * span + cellMinutes) / (2 * cellMinutes);
    RoundedSpan(span, cellMinutes);
    if rounded < 1 then 1 else rounded
  }

  lemma RoundedSpan(span: int, m: int)
    requires m >= 1
    ensures ((2 * span + m) / (2 * m) - 1) * m < span
  {
    var q := (2 * span + m) / (2 * m);
    assert 2 * m * q <= 2 * span + m;
    assert (q - 1) * m == q * m - m;
    assert 2 * (q * m) == 2 * m * q;
  }

  /** The column count is the nearest one, halves up, but never less than one. */
  lemma ColumnsAreNearest(dayStart: int, dayEnd: int, cellMinutes: int)
    requires cellMinutes >= 1
    ensures var n, span := ColumnsPerDay(dayStart, dayEnd, cellMinutes), (dayEnd - dayStart) * 60;
            && (n > 1 ==> (2 * n - 1) * cellMinutes <= 2 * span)
            && 2 * span < (2 * n + 1) * cellMinutes
  {
    var span, m := (dayEnd - dayStart) * 60, cellMinutes;
    var q := (2 * span + m) / (2 * m);
    assert 2 * m * q <= 2 * span + m < 2 * m * q + 2 * m;
    assert 2 * m * q == (2 * q) * m;
    assert (2 * q - 1) * m == (2 * q) * m - m && (2 * q + 1) * m == (2 * q) * m + m;
    if q < 1 { assert 2 * span < m; }
  }

  /** The visible window. */
  datatype Grid = Grid(dates: seq<string>, columns: int, dayStart: int, cellMinutes: int)

  function Total(g: Grid): int { |g.dates| * g.columns }

  function Clamp(cell: int, total: int): int { if cell < 0 then 0 else if cell > total then total else cell }

  /** Index of the day a cell belongs to; -1 when there are no dates. */
  function DayIndex(g: Grid, cell: int): int
    requires g.columns >= 1
  {
    var byCell := Clamp(cell, Total(g)) / g.columns;
    if byCell < |g.dates| then byCell else |g.dates| - 1
  }

  /** Cells from the start of that day. */
  function Within(g: Grid, cell: int): int
    requires g.columns >= 1
  {
    Clamp(cell, Total(g)) - DayIndex(g, cell) * g.columns
  }

  /** `dayStartHour:00` of day `d`. */
  function DayStartInstant(z: Zone, d: int, hour: int): int
    requires ZoneOk(z)
  {
    WithHours(z, AtMidnight(z, d), hour)
  }

  /** The instant a cell maps to; `None` when the date text is no date. */
  function CellToInstant(z: Zone, g: Grid, cell: int): Option<int>
    requires ZoneOk(z) && g.columns >= 1
  {
    if g.dates == [] then None
    else
      BoundsOfDayIndex(g, cell);
      match ParseDate(g.dates[DayIndex(g, cell)])
      case None => None
      case Some(c) =>
        Some(PlusMinutes(z, DayStartInstant(z, DayNumber(c), g.dayStart), Within(g, cell) * g.cellMinutes))
  }

  lemma BoundsOfDayIndex(g: Grid, cell: int)
    requires g.columns >= 1 && g.dates != []
    ensures 0 <= DayIndex(g, cell) < |g.dates|
  {
    assert Total(g) >= 0;
  }

  /** `cellToIso`, on a Date object it builds and changes in place. */
  method CellToIso(z: Zone, g: Grid, cell: int) returns (r: Option<int>)
    requires ZoneOk(z) && g.columns >= 1
    ensures r == CellToInstant(z, g, cell)
  {
    hide ParseDate, DayNumber, Valid, UTC, Local, HoursOf, MinutesOf, PlusMinutes, WithHours, AtMidnight;
    var total := |g.dates| * g.columns;
    var safeCell := if cell < 0 then 0 else if cell > total then total else cell;
    var dayIdx := safeCell / g.columns;
    if dayIdx > |g.dates| - 1 { dayIdx := |g.dates| - 1; }
    var within := safeCell - dayIdx * g.columns;
    if g.dates == [] { return None; }
    BoundsOfDayIndex(g, cell);
    var parsed := ParseDate(g.dates[dayIdx]);
    if parsed.None? { return None; }
    var date := new JsDate.Midnight(z, DayNumber(parsed.value));
    date.SetHours(g.dayStart);
    var m := date.GetMinutes();
    date.SetMinutes(m + within * g.cellMinutes);
    return Some(date.t);
  }

  function IndexOf(dates: seq<string>, s: string): (i: int)
    ensures -1 <= i < |dates|
    ensures i >= 0 ==> dates[i] == s && forall j :: 0 <= j < i ==> dates[j] != s
    ensures i == -1 ==> s !in dates
  {
    if dates == [] then -1
    else if dates[0] == s then 0
    else
      var r := IndexOf(dates[1..], s);
      if r == -1 then -1 else r + 1
  }

  /** `isoToCell` answers a cell, `null`, or NaN when the date of the instant cannot be read back. */
  datatype CellAnswer = Null | NotANumber | Cell(cell: int)

  function LocalDateText(z: Zone, t: int): string {
    FormatDate(CivilOf(DayOf(Local(z, t))))
  }

  function InstantToCell(z: Zone, g: Grid, instant: Option<int>): CellAnswer
    requires ZoneOk(z) && g.columns >= 1 && g.cellMinutes >= 1
  {
    match instant
    case None => Null
    case Some(t) =>
      var text := LocalDateText(z, t);
      var idx := IndexOf(g.dates, text);
      if idx == -1 then Null
      else
        match ParseDate(text)
        case None => NotANumber
        case Some(c) =>
          var start := Local(z, DayStartInstant(z, DayNumber(c), g.dayStart));
          var minutes := MinuteOfDay(Local(z, t)) - MinuteOfDay(start);
          if minutes < 0 then Null
          else
            var within := minutes / g.cellMinutes;
            if within >= g.columns then Null else Cell(idx * g.columns + within)
  }

  /** `isoToCell`, on the Date objects it builds. */
  method IsoToCell(z: Zone, g: Grid, instant: Option<int>) returns (r: CellAnswer)
    requires ZoneOk(z) && g.columns >= 1 && g.cellMinutes >= 1
    ensures r == InstantToCell(z, g, instant)
  {
    hide ParseDate, DayNumber, Valid, CivilOf, FormatDate, UTC, Local, HoursOf, MinutesOf, WithHours, AtMidnight, IndexOf;
    if instant.None? { return Null; }
    var date := new JsDate.Copy(z, instant.value);
    var text := FormatDate(date.GetCivil());
    var idx := IndexOf(g.dates, text);
    if idx == -1 { return Null; }
    var parsed := ParseDate(text);
    if parsed.None? { return NotANumber; }
    var dayStart := new JsDate.Midnight(z, DayNumber(parsed.value));
    dayStart.SetHours(g.dayStart);
    var minutes :=
      date.GetHours() * 60 + date.GetMinutes() - (dayStart.GetHours() * 60 + dayStart.GetMinutes());
    if minutes < 0 { return Null; }
    var within := minutes / g.cellMinutes;
    if within >= g.columns { return Null; }
    return Cell(idx * g.columns + within);
  }

  // ---------------------------------------------------------------------
  // The round trip
  // ---------------------------------------------------------------------

  /** The dates are distinct, readable, and printed the way the code prints dates. */
  ghost predicate DatesOk(g: Grid) {
    && (forall i :: 0 <= i < |g.dates| ==>
          ParseDate(g.dates[i]).Some? && 1000 <= ParseDate(g.dates[i]).value.year
          && FormatDate(ParseDate(g.dates[i]).value) == g.dates[i])
    && (forall i, j :: 0 <= i < j < |g.dates| ==> g.dates[i] != g.dates[j])
  }

  /** Day number of the i-th column group. */
  function DayAt(g: Grid, i: int): int
    requires 0 <= i < |g.dates|
  {
    match ParseDate(g.dates[i]) case Some(c) => DayNumber(c) case None => 0
  }

  /** The wall time that the zone makes of midnight of day `d` still belongs to day `d`. */
  ghost predicate MidnightSettles(z: Zone, d: int)
    requires ZoneOk(z)
  {
    DayOf(Local(z, AtMidnight(z, d))) == d
  }

  /** The wall clock at the resolved start of day `d`. */
  function StartWall(z: Zone, d: int, hour: int): int
    requires ZoneOk(z)
  {
    Local(z, DayStartInstant(z, d, hour))
  }

  /** The wall clock the zone really shows at the instant of a cell. */
  function CellWall(z: Zone, g: Grid, i: int, within: int): int
    requires ZoneOk(z) && 0 <= i < |g.dates|
  {
    Local(z, UTC(z, StartWall(z, DayAt(g, i), g.dayStart) + within * g.cellMinutes * MINUTE))
  }

  lemma CellParts(g: Grid, cell: int)
    requires g.columns >= 1 && 0 <= cell < Total(g)
    ensures 0 <= DayIndex(g, cell) < |g.dates| && 0 <= Within(g, cell) < g.columns
    ensures cell == DayIndex(g, cell) * g.columns + Within(g, cell)
    ensures DayIndex(g, cell) == cell / g.columns && Within(g, cell) == cell % g.columns
  {
    var q := cell / g.columns;
    assert cell == q * g.columns + cell % g.columns;
    if q >= |g.dates| { MulMono(|g.dates|, q, g.columns); }
  }

  lemma MulMono(a: int, b: int, c: int)
    requires a <= b && c >= 0
    ensures a * c <= b * c
  {
  }

  /** A date of the grid is found at its own index. */
  lemma IndexOfDay(g: Grid, i: int)
    requires DatesOk(g) && 0 <= i < |g.dates|
    ensures IndexOf(g.dates, FormatDate(CivilOf(DayAt(g, i)))) == i
    ensures ParseDate(FormatDate(CivilOf(DayAt(g, i)))) == Some(CivilOf(DayAt(g, i)))
  {
    CivilRoundTrip(ParseDate(g.dates[i]).value);
  }

  /** ... and the text of any other day is not at that index. */
  lemma IndexIsTheDay(g: Grid, i: int, d: int)
    requires DatesOk(g) && 0 <= i < |g.dates|
    requires IndexOf(g.dates, FormatDate(CivilOf(d))) == i
    ensures d == DayAt(g, i)
  {
    CivilRoundTrip(ParseDate(g.dates[i]).value);
    DateTextInjective(CivilOf(d), CivilOf(DayAt(g, i)));
  }

  /**
   * Main result 1, exact form. A cell of the grid comes back from its instant if
   * and only if the zone shows that instant on the cell's own date and within the
   * cell's own minutes.
   */
  lemma RoundTripExactly(z: Zone, g: Grid, cell: int)
    requires ZoneOk(z) && g.columns >= 1 && g.cellMinutes >= 1 && DatesOk(g) && 0 <= cell < Total(g)
    ensures 0 <= DayIndex(g, cell) < |g.dates|
    ensures
      var i, w := DayIndex(g, cell), Within(g, cell);
      var wall := CellWall(z, g, i, w);
      var minutes := MinuteOfDay(wall) - MinuteOfDay(StartWall(z, DayAt(g, i), g.dayStart));
      InstantToCell(z, g, CellToInstant(z, g, cell)) == Cell(cell) <==>
      DayOf(wall) == DayAt(g, i) && w * g.cellMinutes <= minutes < (w + 1) * g.cellMinutes
  {
    hide ParseDate, InstantToCell, CellToInstant, CellWall, StartWall, MinuteOfDay, DayOf, DayAt, DatesOk, DayIndex, Within;
    CellParts(g, cell);
    CellInstant(z, g, cell);
    InstantOfDay(z, g, DayIndex(g, cell), Within(g, cell), CellToInstant(z, g, cell).value);
  }

  lemma CellInstant(z: Zone, g: Grid, cell: int)
    requires ZoneOk(z) && g.columns >= 1 && DatesOk(g) && 0 <= cell < Total(g)
    ensures 0 <= DayIndex(g, cell) < |g.dates|
    ensures CellToInstant(z, g, cell).Some?
    ensures Local(z, CellToInstant(z, g, cell).value) == CellWall(z, g, DayIndex(g, cell), Within(g, cell))
  {
    hide ParseDate, DayNumber, Valid, UTC, Local, DayStartInstant, DayIndex, Within, Total;
    CellParts(g, cell);
  }

  /** What `isoToCell` answers for an instant, against a cell `w` of day `i`. */
  lemma InstantOfDay(z: Zone, g: Grid, i: int, w: int, t: int)
    requires ZoneOk(z) && g.columns >= 1 && g.cellMinutes >= 1 && DatesOk(g)
    requires 0 <= i < |g.dates| && 0 <= w < g.columns
    ensures
      var minutes := MinuteOfDay(Local(z, t)) - MinuteOfDay(StartWall(z, DayAt(g, i), g.dayStart));
      InstantToCell(z, g, Some(t)) == Cell(i * g.columns + w) <==>
      DayOf(Local(z, t)) == DayAt(g, i) && w * g.cellMinutes <= minutes < (w + 1) * g.cellMinutes
  {
    hide ParseDate, Valid, CivilOf, FormatDate, MakeDay, UTC, Local, MinuteOfDay, DayOf, DatesOk, DayAt, DayStartInstant;
    var d := DayOf(Local(z, t));
    var idx := IndexOf(g.dates, LocalDateText(z, t));
    if d == DayAt(g, i) {
      IndexOfDay(g, i);
      var minutes := MinuteOfDay(Local(z, t)) - MinuteOfDay(StartWall(z, d, g.dayStart));
      SameCell(minutes, g.cellMinutes, w);
      if w < 0 { MulMono(w + 1, 0, g.cellMinutes); } else { MulMono(0, w, g.cellMinutes); }
    } else if idx >= 0 {
      IndexIsTheDay(g, idx, d);
      var a := InstantToCell(z, g, Some(t));
      if a.Cell? { OtherDayOtherCell(g, i, idx, w, a.cell - idx * g.columns); }
    }
  }

  lemma SameCell(minutes: int, m: int, w: int)
    requires m >= 1
    ensures minutes / m == w <==> w * m <= minutes < (w + 1) * m
  {
    var q := minutes / m;
    assert minutes == q * m + minutes % m;
    assert (w + 1) * m == w * m + m && (q + 1) * m == q * m + m;
    if q < w { MulMono(q + 1, w, m); }
    if w < q { MulMono(w + 1, q, m); }
  }

  lemma OtherDayOtherCell(g: Grid, i: int, j: int, w: int, v: int)
    requires g.columns >= 1 && i != j && 0 <= w < g.columns
    ensures 0 <= v < g.columns ==> j * g.columns + v != i * g.columns + w
  {
    assert (i + 1) * g.columns == i * g.columns + g.columns && (j + 1) * g.columns == j * g.columns + g.columns;
    if i < j { MulMono(i + 1, j, g.columns); } else { MulMono(j + 1, i, g.columns); }
  }

  /** The grid as the board configures it. */
  ghost predicate GridOk(g: Grid, dayEnd: int) {
    && 0 <= g.dayStart < 24 && dayEnd <= 24 && g.cellMinutes >= 1
    && g.columns == ColumnsPerDay(g.dayStart, dayEnd, g.cellMinutes)
    && DatesOk(g)
  }

  /** The wall time a cell stands for. */
  function NominalWall(g: Grid, i: int, w: int): int
    requires 0 <= i < |g.dates|
  {
    DayAt(g, i) * DAY + g.dayStart * HOUR + w * g.cellMinutes * MINUTE
  }

  /** Every cell starts on its own calendar day. */
  lemma CellsStartWithinTheDay(g: Grid, dayEnd: int, w: int)
    requires GridOk(g, dayEnd) && 0 <= w < g.columns
    ensures 0 <= g.dayStart * 60 + w * g.cellMinutes < 1440
    ensures 0 <= g.dayStart * HOUR + w * g.cellMinutes * MINUTE < DAY
    ensures (g.dayStart * HOUR + w * g.cellMinutes * MINUTE) / MINUTE == g.dayStart * 60 + w * g.cellMinutes
  {
    hide DatesOk;
    MulMono(0, w, g.cellMinutes);
    MulMono(w, g.columns - 1, g.cellMinutes);
    var m := g.dayStart * 60 + w * g.cellMinutes;
    assert g.dayStart * HOUR + w * g.cellMinutes * MINUTE == m * MINUTE;
  }

  /** An existing day start resolves to itself. */
  lemma StartWallOfExisting(z: Zone, d: int, hour: int)
    requires ZoneOk(z) && MidnightSettles(z, d) && Exists(z, d * DAY + hour * HOUR)
    ensures StartWall(z, d, hour) == d * DAY + hour * HOUR
  {
    UtcOfExisting(z, d * DAY + hour * HOUR);
  }

  /** What a nominal wall time reads: its own date, and the minutes since midnight. */
  lemma NominalReads(g: Grid, dayEnd: int, i: int, w: int)
    requires GridOk(g, dayEnd) && 0 <= i < |g.dates| && 0 <= w < g.columns
    ensures DayOf(NominalWall(g, i, w)) == DayAt(g, i)
    ensures MinuteOfDay(NominalWall(g, i, w)) == g.dayStart * 60 + w * g.cellMinutes
  {
    hide DatesOk, DayAt, DayOf, MinuteOfDay, ColumnsPerDay;
    CellsStartWithinTheDay(g, dayEnd, w);
    WallAt(DayAt(g, i), g.dayStart * HOUR + w * g.cellMinutes * MINUTE);
  }

  /** The wall times a cell relies on are shown by the clock. */
  ghost predicate Shown(z: Zone, g: Grid, i: int, w: int)
    requires ZoneOk(z) && 0 <= i < |g.dates|
  {
    MidnightSettles(z, DayAt(g, i)) && Exists(z, NominalWall(g, i, 0)) && Exists(z, NominalWall(g, i, w))
  }

  /** At the instant of a cell the clock shows the cell's date and time: day start plus the cells before it. */
  lemma CellShowsItsTime(z: Zone, g: Grid, dayEnd: int, cell: int)
    requires ZoneOk(z) && GridOk(g, dayEnd) && 0 <= cell < Total(g)
    requires 0 <= DayIndex(g, cell) < |g.dates| && Shown(z, g, DayIndex(g, cell), Within(g, cell))
    ensures var i, w := cell / g.columns, cell % g.columns;
            && i == DayIndex(g, cell) && w == Within(g, cell)
            && CellToInstant(z, g, cell).Some?
            && Local(z, CellToInstant(z, g, cell).value) == NominalWall(g, i, w)
            && StartWall(z, DayAt(g, i), g.dayStart) == NominalWall(g, i, 0)
            && CellWall(z, g, i, w) == NominalWall(g, i, w)
  {
    hide ParseDate, CellToInstant, DayIndex, Within, DatesOk, DayAt, StartWall, Exists, MidnightSettles, UTC, Local, ColumnsPerDay;
    CellParts(g, cell);
    var i, w := DayIndex(g, cell), Within(g, cell);
    StartWallOfExisting(z, DayAt(g, i), g.dayStart);
    UtcOfExisting(z, NominalWall(g, i, w));
    CellInstant(z, g, cell);
  }

  /**
   * Main result 1. With the column count the board computes, a cell whose
   * day-start and cell-start wall times are not skipped comes back from its
   * instant, whichever occurrence of a repeated hour it falls in.
   */
  lemma RoundTrip(z: Zone, g: Grid, dayEnd: int, cell: int)
    requires ZoneOk(z) && GridOk(g, dayEnd) && 0 <= cell < Total(g)
    requires 0 <= DayIndex(g, cell) < |g.dates| && Shown(z, g, DayIndex(g, cell), Within(g, cell))
    ensures InstantToCell(z, g, CellToInstant(z, g, cell)) == Cell(cell)
  {
    hide InstantToCell, CellToInstant, DayIndex, Within, DatesOk, DayAt, StartWall, CellWall, NominalWall, DayOf, MinuteOfDay, Shown, Local, ColumnsPerDay;
    CellShowsItsTime(z, g, dayEnd, cell);
    CellParts(g, cell);
    var i, w := DayIndex(g, cell), Within(g, cell);
    NominalReads(g, dayEnd, i, w);
    NominalReads(g, dayEnd, i, 0);
    assert (w + 1) * g.cellMinutes == w * g.cellMinutes + g.cellMinutes;
    RoundTripExactly(z, g, cell);
  }

  /** Cells outside the window are taken at its edges. */
  lemma CellsAreClamped(z: Zone, g: Grid, cell: int)
    requires ZoneOk(z) && g.columns >= 1
    ensures cell < 0 ==> CellToInstant(z, g, cell) == CellToInstant(z, g, 0)
    ensures cell > Total(g) ==> CellToInstant(z, g, cell) == CellToInstant(z, g, Total(g))
  {
    hide ParseDate, DayNumber, Valid, UTC, Local;
    MulMono(0, |g.dates|, g.columns);
  }

  /**
   * Main result 2. Whenever the grid answers a cell, the instant lies on the
   * cell's date and its wall-clock minute lies in the cell; and every such
   * instant gets that cell.
   */
  lemma AnswerIsTheCell(z: Zone, g: Grid, t: int, cell: int)
    requires ZoneOk(z) && g.columns >= 1 && g.cellMinutes >= 1 && DatesOk(g)
    ensures InstantToCell(z, g, Some(t)) == Cell(cell) <==>
            && 0 <= cell < Total(g)
            && 0 <= cell / g.columns < |g.dates|
            && var i, w := cell / g.columns, cell % g.columns;
               var minutes := MinuteOfDay(Local(z, t)) - MinuteOfDay(StartWall(z, DayAt(g, i), g.dayStart));
               DayOf(Local(z, t)) == DayAt(g, i) && w * g.cellMinutes <= minutes < (w + 1) * g.cellMinutes
  {
    hide InstantToCell, StartWall, MinuteOfDay, DayOf, DayAt, DatesOk, DayIndex, Within, Local;
    var i, w := cell / g.columns, cell % g.columns;
    assert cell == i * g.columns + w;
    AnswersAreInRange(z, g, t);
    if 0 <= cell < Total(g) {
      CellParts(g, cell);
      InstantOfDay(z, g, i, w, t);
    }
  }

  /** The answers that are no cell: NaN exactly for a listed date that cannot be read back, null for an invalid instant. */
  lemma NoCellExactly(z: Zone, g: Grid, instant: Option<int>)
    requires ZoneOk(z) && g.columns >= 1 && g.cellMinutes >= 1
    ensures instant.None? ==> InstantToCell(z, g, instant) == Null
    ensures InstantToCell(z, g, instant) == NotANumber <==>
            instant.Some? && LocalDateText(z, instant.value) in g.dates
            && !(1000 <= CivilOf(DayOf(Local(z, instant.value))).year <= 9999)
  {
    hide ParseDate, Local, DayOf, CivilOf, FormatDate, DayStartInstant, MinuteOfDay;
    if instant.Some? { ReadBack(DayOf(Local(z, instant.value))); }
  }

  lemma AnswersAreInRange(z: Zone, g: Grid, t: int)
    requires ZoneOk(z) && g.columns >= 1 && g.cellMinutes >= 1
    ensures var a := InstantToCell(z, g, Some(t)); a.Cell? ==> 0 <= a.cell < Total(g)
  {
    hide ParseDate, Valid, CivilOf, FormatDate, MakeDay, UTC, Local, MinuteOfDay, DayOf, DayStartInstant, IndexOf;
    var idx := IndexOf(g.dates, LocalDateText(z, t));
    if idx >= 0 {
      MulMono(0, idx, g.columns);
      MulMono(idx + 1, |g.dates|, g.columns);
      assert (idx + 1) * g.columns == idx * g.columns + g.columns;
    }
  }

  // ---------------------------------------------------------------------
  // Order
  // ---------------------------------------------------------------------

  ghost predicate DatesAscend(g: Grid) {
    forall i, j :: 0 <= i < j < |g.dates| ==> DayAt(g, i) < DayAt(g, j)
  }

  /** The wall clock skips nothing from the first midnight to the end of the last cell. */
  ghost predicate WindowHasNoGap(z: Zone, g: Grid) {
    g.dates != [] ==>
      NoGap(z, DayAt(g, 0) * DAY - z.bound, NominalWall(g, |g.dates| - 1, g.columns) + z.bound)
  }

  lemma CellOrder(g: Grid, dayEnd: int, a: int, b: int)
    requires GridOk(g, dayEnd) && DatesAscend(g) && g.dates != [] && 0 <= a < b <= Total(g)
    ensures 0 <= DayIndex(g, a) < |g.dates| && 0 <= DayIndex(g, b) < |g.dates|
    ensures 0 <= Within(g, a) && 0 <= Within(g, b) <= g.columns
    ensures NominalWall(g, DayIndex(g, a), Within(g, a)) < NominalWall(g, DayIndex(g, b), Within(g, b))
  {
    hide DatesOk, DayAt, ColumnsPerDay, DatesAscend, DayIndex, Within;
    CellParts(g, a);
    LastBoundary(g, b);
    var i, j, v, w := DayIndex(g, a), DayIndex(g, b), Within(g, a), Within(g, b);
    if i == j {
      MulMono(v + 1, w, g.cellMinutes);
      assert (v + 1) * g.cellMinutes == v * g.cellMinutes + g.cellMinutes;
    } else {
      DayOrder(g, i, j, v, w);
      CellsStartWithinTheDay(g, dayEnd, v);
      MulMono(0, w, g.cellMinutes);
    }
  }

  /** The boundary after the last cell belongs to the last day. */
  lemma LastBoundary(g: Grid, b: int)
    requires g.columns >= 1 && g.dates != [] && 0 <= b <= Total(g)
    ensures 0 <= DayIndex(g, b) < |g.dates| && 0 <= Within(g, b) <= g.columns
    ensures b == DayIndex(g, b) * g.columns + Within(g, b)
  {
    if b < Total(g) {
      CellParts(g, b);
    } else {
      ExactDiv(|g.dates|, g.columns);
      assert (|g.dates| - 1) * g.columns == |g.dates| * g.columns - g.columns;
    }
  }

  lemma ExactDiv(n: int, c: int)
    requires c >= 1
    ensures n * c / c == n
  {
    var q := n * c / c;
    assert n * c == q * c + n * c % c;
    assert (n + 1) * c == n * c + c && (q + 1) * c == q * c + c;
    if q < n { MulMono(q + 1, n, c); }
    if n < q { MulMono(n + 1, q, c); }
  }

  lemma DayOrder(g: Grid, i: int, j: int, v: int, w: int)
    requires g.columns >= 1 && DatesAscend(g) && 0 <= i < |g.dates| && 0 <= j < |g.dates| && i != j
    requires 0 <= v < g.columns && 0 <= w <= g.columns
    requires i * g.columns + v < j * g.columns + w
    ensures DayAt(g, i) + 1 <= DayAt(g, j)
  {
    assert (j + 1) * g.columns == j * g.columns + g.columns;
    if j < i { MulMono(j + 1, i, g.columns); }
  }

  /** Every wall time of the window lies between the first midnight and the end of the last cell. */
  lemma WindowBounds(g: Grid, dayEnd: int, i: int, w: int)
    requires GridOk(g, dayEnd) && DatesAscend(g) && 0 <= i < |g.dates| && 0 <= w <= g.columns
    ensures DayAt(g, 0) * DAY <= DayAt(g, i) * DAY <= NominalWall(g, i, w)
    ensures NominalWall(g, i, w) <= NominalWall(g, |g.dates| - 1, g.columns)
  {
    hide DatesOk, DayAt, ColumnsPerDay;
    var n := |g.dates| - 1;
    assert DayAt(g, 0) <= DayAt(g, i) <= DayAt(g, n);
    MulMono(0, w, g.cellMinutes);
    MulMono(w, g.columns, g.cellMinutes);
  }

  /** What a cell's instant is when the window skips nothing. */
  lemma InstantWithoutGap(z: Zone, g: Grid, dayEnd: int, cell: int)
    requires ZoneOk(z) && GridOk(g, dayEnd) && DatesAscend(g) && WindowHasNoGap(z, g)
    requires g.dates != [] && 0 <= cell <= Total(g)
    ensures 0 <= DayIndex(g, cell) < |g.dates|
    ensures CellToInstant(z, g, cell) == Some(UTC(z, NominalWall(g, DayIndex(g, cell), Within(g, cell))))
  {
    hide CellToInstant, UTC, NoGap, DatesAscend, DatesOk, DayAt, DayIndex, Within, Total, StartWall, NominalWall, ColumnsPerDay;
    LastBoundary(g, cell);
    var i, w := DayIndex(g, cell), Within(g, cell);
    CellInstantForm(z, g, cell);
    StartWithoutGap(z, g, dayEnd, i);
    NominalStep(g, i, w);
  }

  lemma NominalStep(g: Grid, i: int, w: int)
    requires 0 <= i < |g.dates|
    ensures NominalWall(g, i, w) == NominalWall(g, i, 0) + w * g.cellMinutes * MINUTE
  {
  }

  lemma CellInstantForm(z: Zone, g: Grid, cell: int)
    requires ZoneOk(z) && g.columns >= 1 && DatesOk(g) && 0 <= DayIndex(g, cell) < |g.dates|
    ensures CellToInstant(z, g, cell) ==
            Some(UTC(z, StartWall(z, DayAt(g, DayIndex(g, cell)), g.dayStart) + Within(g, cell) * g.cellMinutes * MINUTE))
  {
    hide ParseDate, DayNumber, Valid, UTC, Local, DayStartInstant, DayIndex, Within;
  }

  lemma StartWithoutGap(z: Zone, g: Grid, dayEnd: int, i: int)
    requires ZoneOk(z) && GridOk(g, dayEnd) && DatesAscend(g) && WindowHasNoGap(z, g) && 0 <= i < |g.dates|
    ensures StartWall(z, DayAt(g, i), g.dayStart) == NominalWall(g, i, 0)
  {
    hide ParseDate, UTC, Local, ColumnsPerDay, Exists, DayOf, NoGap, DatesAscend, DatesOk, DayAt, StartWall;
    var d, n := DayAt(g, i), |g.dates| - 1;
    var lo, hi := DayAt(g, 0) * DAY - z.bound, NominalWall(g, n, g.columns) + z.bound;
    WindowBounds(g, dayEnd, i, 0);
    ExistsWithoutGap(z, lo, hi, d * DAY);
    UtcOfExisting(z, d * DAY);
    WallAt(d, 0);
    ExistsWithoutGap(z, lo, hi, d * DAY + g.dayStart * HOUR);
    StartWallOfExisting(z, d, g.dayStart);
  }

  /** Main result 3. Over ascending dates and no skipped wall time, later cells are later instants. */
  lemma CellsAscend(z: Zone, g: Grid, dayEnd: int, a: int, b: int)
    requires ZoneOk(z) && GridOk(g, dayEnd) && DatesAscend(g) && WindowHasNoGap(z, g)
    requires g.dates != [] && 0 <= a < b <= Total(g)
    ensures CellToInstant(z, g, a).Some? && CellToInstant(z, g, b).Some?
    ensures CellToInstant(z, g, a).value < CellToInstant(z, g, b).value
  {
    hide CellToInstant, UTC, NoGap, DatesOk, DayAt, ColumnsPerDay;
    InstantWithoutGap(z, g, dayEnd, a);
    InstantWithoutGap(z, g, dayEnd, b);
    CellOrder(g, dayEnd, a, b);
    LastBoundary(g, a);
    WindowBounds(g, dayEnd, DayIndex(g, a), Within(g, a));
    WindowBounds(g, dayEnd, DayIndex(g, b), Within(g, b));
    UtcIsMonotone(z, DayAt(g, 0) * DAY - z.bound, NominalWall(g, |g.dates| - 1, g.columns) + z.bound,
                  NominalWall(g, DayIndex(g, a), Within(g, a)), NominalWall(g, DayIndex(g, b), Within(g, b)));
  }

  // ---------------------------------------------------------------------
  // A skipped hour
  // ---------------------------------------------------------------------

  /** A zone with offset `base` until instant `T`, whose clock then jumps ahead by `gap`. */
  function SpringForward(T: int, base: int, gap: int): Zone {
    Zone(t => if t < T then base else base + gap, (if base < 0 then -base else base) + (if gap < 0 then -gap else gap))
  }

  lemma SpringForwardClock(T: int, base: int, gap: int, wall: int)
    requires gap > 0
    ensures ZoneOk(SpringForward(T, base, gap))
    ensures Exists(SpringForward(T, base, gap), wall) <==> wall < T + base || T + base + gap <= wall
    ensures T + base <= wall < T + base + gap ==>
              Local(SpringForward(T, base, gap), UTC(SpringForward(T, base, gap), wall)) == wall + gap
  {
    var z := SpringForward(T, base, gap);
    if wall < T + base { assert Local(z, wall - base) == wall; }
    if T + base + gap <= wall { assert Local(z, wall - base - gap) == wall; }
    if T + base <= wall < T + base + gap {
      SkippedWall(T, base, gap, wall);
    }
  }

  lemma SkippedWall(T: int, base: int, gap: int, wall: int)
    requires T + base <= wall < T + base + gap
    ensures ZoneOk(SpringForward(T, base, gap)) && UTC(SpringForward(T, base, gap), wall) == wall - base
  {
    var z := SpringForward(T, base, gap);
    assert forall t :: Local(z, t) != wall;
    var u := LastBefore(z, wall, wall - 3 * z.bound - 1, wall + z.bound);
    assert Local(z, T - 1) == T - 1 + base < wall;
    assert u == T - 1;
  }

  /**
   * A cell that starts in the skipped stretch comes back exactly when cells are
   * longer than the stretch, in whole minutes; otherwise the board shows it elsewhere.
   */
  lemma SkippedCell(T: int, base: int, gap: int, g: Grid, dayEnd: int, cell: int)
    requires gap > 0 && ZoneOk(SpringForward(T, base, gap)) && GridOk(g, dayEnd) && 0 <= cell < Total(g)
    requires 0 <= DayIndex(g, cell) < |g.dates|
    requires MidnightSettles(SpringForward(T, base, gap), DayAt(g, DayIndex(g, cell)))
    requires Exists(SpringForward(T, base, gap), NominalWall(g, DayIndex(g, cell), 0))
    requires T + base <= NominalWall(g, DayIndex(g, cell), Within(g, cell)) < T + base + gap
    requires g.dayStart * HOUR + Within(g, cell) * g.cellMinutes * MINUTE + gap < DAY
    ensures var z := SpringForward(T, base, gap);
            InstantToCell(z, g, CellToInstant(z, g, cell)) == Cell(cell) <==> g.cellMinutes > gap / MINUTE
  {
    hide SpringForward, ParseDate, InstantToCell, CellToInstant, DayIndex, Within, DatesOk, DayAt, StartWall, Exists, MidnightSettles, UTC, DayOf, MinuteOfDay, Local, ColumnsPerDay;
    var z := SpringForward(T, base, gap);
    CellParts(g, cell);
    var i, w := DayIndex(g, cell), Within(g, cell);
    var d := DayAt(g, i);
    StartWallOfExisting(z, d, g.dayStart);
    SpringForwardClock(T, base, gap, NominalWall(g, i, w));
    JumpedReads(g, dayEnd, i, w, gap);
    NominalReads(g, dayEnd, i, 0);
    hide NominalWall;
    assert (w + 1) * g.cellMinutes == w * g.cellMinutes + g.cellMinutes;
    RoundTripExactly(z, g, cell);
  }

  lemma JumpedReads(g: Grid, dayEnd: int, i: int, w: int, gap: int)
    requires GridOk(g, dayEnd) && 0 <= i < |g.dates| && 0 <= w < g.columns
    requires gap > 0 && g.dayStart * HOUR + w * g.cellMinutes * MINUTE + gap < DAY
    ensures DayOf(NominalWall(g, i, w) + gap) == DayAt(g, i)
    ensures MinuteOfDay(NominalWall(g, i, w) + gap) == g.dayStart * 60 + w * g.cellMinutes + gap / MINUTE
  {
    hide DatesOk, DayAt, DayOf, MinuteOfDay, ColumnsPerDay;
    CellsStartWithinTheDay(g, dayEnd, w);
    WallAt(DayAt(g, i), g.dayStart * HOUR + w * g.cellMinutes * MINUTE + gap);
    WholeMinutes(g.dayStart * 60 + w * g.cellMinutes, gap);
    assert g.dayStart * HOUR + w * g.cellMinutes * MINUTE == (g.dayStart * 60 + w * g.cellMinutes) * MINUTE;
  }

  lemma WholeMinutes(m: int, extra: int)
    ensures (m * MINUTE + extra) / MINUTE == m + extra / MINUTE
  {
  }

  /** One day in half hours. */
  function HalfHours(c: Civil): Grid
    requires Valid(c)
  {
    Grid([FormatDate(c)], 48, 0, 30)
  }

  lemma HalfHourGrid(c: Civil)
    requires Valid(c) && 1000 <= c.year <= 9999
    ensures GridOk(HalfHours(c), 24) && Total(HalfHours(c)) == 48
    ensures DayIndex(HalfHours(c), 4) == 0 && Within(HalfHours(c), 4) == 4 && DayAt(HalfHours(c), 0) == DayNumber(c)
  {
    DateTextRoundTrip(c);
    hide ParseDate, FormatDate, DayNumber, Valid;
  }

  /** On any date, when the clock goes from 02:00 to 03:00, the 02:00 half hour does not come back. */
  lemma SkippedHalfHour(c: Civil)
    requires Valid(c) && 1000 <= c.year <= 9999
    ensures var g, z := HalfHours(c), SpringForward(DayNumber(c) * DAY + HOUR, HOUR, HOUR);
            ZoneOk(z) && GridOk(g, 24) && InstantToCell(z, g, CellToInstant(z, g, 4)) != Cell(4)
  {
    hide InstantToCell, CellToInstant, UTC, Local, Exists, DayNumber, Valid, SpringForward, GridOk, DayIndex, Within, DayAt, DayOf;
    var d, g := DayNumber(c), HalfHours(c);
    var T := d * DAY + HOUR;
    var z := SpringForward(T, HOUR, HOUR);
    HalfHourGrid(c);
    SpringForwardClock(T, HOUR, HOUR, d * DAY);
    UtcOfExisting(z, d * DAY);
    WallAt(d, 0);
    assert NominalWall(g, 0, 0) == d * DAY && NominalWall(g, 0, 4) == d * DAY + 2 * HOUR;
    SkippedCell(T, HOUR, HOUR, g, 24, 4);
  }

  // ---------------------------------------------------------------------
  // Shifting dates
  // ---------------------------------------------------------------------

  /** What an invalid Date prints. */
  function NaNDate(): string { "NaN-NaN-NaN" }

  /** The date text `days` calendar days after `date`; an unreadable date gives three NaN fields. */
  function Shifted(z: Zone, date: string, days: int): string
    requires ZoneOk(z)
  {
    match ParseDate(date)
    case None => NaNDate()
    case Some(c) => LocalDateText(z, PlusDays(z, AtMidnight(z, DayNumber(c)), days))
  }

  /** `shiftDate`, through a Date object whose day of the month is moved. */
  method ShiftDate(z: Zone, date: string, days: int) returns (r: string)
    requires ZoneOk(z)
    ensures r == Shifted(z, date, days)
  {
    hide ParseDate, DayNumber, Valid, FormatDate, CivilOf, UTC, Local, PlusDays, AtMidnight, DayOf;
    var parsed := ParseDate(date);
    if parsed.None? { return NaNDate(); }
    var d := new JsDate.Midnight(z, DayNumber(parsed.value));
    var dayOfMonth := d.GetCivil().day;
    d.SetDate(dayOfMonth + days);
    return FormatDate(d.GetCivil());
  }

  /** The wall time a shift asks for: what the zone made of midnight of day `d`, `n` days later. */
  function ShiftWall(z: Zone, d: int, n: int): int
    requires ZoneOk(z)
  {
    Local(z, AtMidnight(z, d)) + n * DAY
  }

  /** The zone shows that wall time, or what it makes of it, on the date asked for. */
  ghost predicate ShiftSettles(z: Zone, d: int, n: int)
    requires ZoneOk(z)
  {
    DayOf(Local(z, UTC(z, ShiftWall(z, d, n)))) == d + n
  }

  /** In any zone, shifting lands on the calendar day exactly when the zone keeps the shifted wall time on it. */
  lemma ShiftLands(z: Zone, date: string, n: int)
    requires ZoneOk(z) && ParseDate(date).Some?
    ensures var d := DayNumber(ParseDate(date).value);
            Shifted(z, date, n) == FormatDate(CivilOf(d + n)) <==> ShiftSettles(z, d, n)
  {
    hide ParseDate, FormatDate, CivilOf, UTC, Valid, DayNumber, Local;
    var d := DayNumber(ParseDate(date).value);
    var e := DayOf(Local(z, UTC(z, ShiftWall(z, d, n))));
    assert Shifted(z, date, n) == FormatDate(CivilOf(e));
    if e != d + n { DistinctDays(e, d + n); }
  }

  /**
   * Main result 4. From a date whose midnight the clock shows, shifting by `n` lands
   * on the calendar day `n` days away exactly when that day's own midnight settles on it.
   */
  lemma ShiftIsExact(z: Zone, date: string, n: int)
    requires ZoneOk(z) && ParseDate(date).Some?
    requires Exists(z, Midnight(DayNumber(ParseDate(date).value)))
    ensures var d := DayNumber(ParseDate(date).value);
            Shifted(z, date, n) == FormatDate(CivilOf(d + n)) <==> MidnightSettles(z, d + n)
  {
    hide ParseDate, FormatDate, CivilOf, UTC, Valid, DayNumber, Local, Exists;
    var d := DayNumber(ParseDate(date).value);
    UtcOfExisting(z, Midnight(d));
    assert ShiftWall(z, d, n) == (d + n) * DAY;
    ShiftLands(z, date, n);
  }

  /** A zone that skips the whole of day `d`, as Samoa did when it crossed the date line. */
  function SkipsDay(d: int): Zone {
    Zone(t => if t < d * DAY then 0 else DAY, DAY)
  }

  lemma SkippedMidnight(d: int)
    ensures ZoneOk(SkipsDay(d)) && UTC(SkipsDay(d), d * DAY) == d * DAY
    ensures Exists(SkipsDay(d), Midnight(d - 1))
  {
    var z, wall := SkipsDay(d), d * DAY;
    assert Local(z, (d - 1) * DAY) == Midnight(d - 1);
    assert forall t :: Local(z, t) != wall;
    var u := LastBefore(z, wall, wall - 3 * z.bound - 1, wall + z.bound);
    assert Local(z, wall - 1) == wall - 1 < wall;
    assert u == wall - 1;
  }

  /** There the day before, shifted by one, comes out as the day after the skipped one. */
  lemma ShiftOverASkippedDay(d: int, date: string)
    requires ParseDate(date).Some? && DayNumber(ParseDate(date).value) == d - 1
    ensures ZoneOk(SkipsDay(d)) && !MidnightSettles(SkipsDay(d), d)
    ensures Shifted(SkipsDay(d), date, 1) == FormatDate(CivilOf(d + 1)) != FormatDate(CivilOf(d))
  {
    hide ParseDate, FormatDate, CivilOf, UTC, Valid, DayNumber, Exists;
    var z := SkipsDay(d);
    SkippedMidnight(d);
    UtcOfExisting(z, Midnight(d - 1));
    assert ShiftWall(z, d - 1, 1) == d * DAY;
    assert Local(z, d * DAY) == (d + 1) * DAY;
    WallAt(d + 1, 0);
    DistinctDays(d + 1, d);
  }

  lemma DistinctDays(a: int, b: int)
    requires a != b
    ensures FormatDate(CivilOf(a)) != FormatDate(CivilOf(b))
  {
    if FormatDate(CivilOf(a)) == FormatDate(CivilOf(b)) {
      DateTextInjective(CivilOf(a), CivilOf(b));
    }
  }

  /** A zone in which every shift settles. */
  ghost predicate CalendarZone(z: Zone)
    requires ZoneOk(z)
  {
    forall d, n :: ShiftSettles(z, d, n)
  }

  function Midnight(d: int): int { d * DAY }

  /** Zones that show every midnight are such zones, as in Europe, where the change happens in the small hours. */
  lemma EveryMidnightShown(z: Zone)
    requires ZoneOk(z) && forall d: int :: Exists(z, Midnight(d))
    ensures CalendarZone(z)
  {
    forall d, n ensures ShiftSettles(z, d, n) {
      assert Exists(z, Midnight(d)) && Exists(z, Midnight(d + n));
      UtcOfExisting(z, Midnight(d));
      UtcOfExisting(z, Midnight(d + n));
      assert ShiftWall(z, d, n) == Midnight(d + n);
      WallAt(d + n, 0);
    }
  }

  /** So are zones that skip midnights but never carry a wall time to another date. */
  lemma DatesKept(z: Zone)
    requires ZoneOk(z) && forall wall: int :: DayOf(Local(z, UTC(z, wall))) == DayOf(wall)
    ensures CalendarZone(z)
  {
    forall d, n ensures ShiftSettles(z, d, n) {
      var wall := Local(z, UTC(z, Midnight(d)));
      hide UTC, Local, MinuteOfDay, HoursOf, MinutesOf;
      WallAt(d, 0);
      SameTimeOtherDay(wall, n);
      assert ShiftWall(z, d, n) == wall + n * DAY;
    }
  }

  lemma SameTimeOtherDay(wall: int, n: int)
    ensures DayOf(wall + n * DAY) == DayOf(wall) + n
  {
    hide MinuteOfDay, HoursOf, MinutesOf;
    WallFields(wall);
    assert wall + n * DAY == (DayOf(wall) + n) * DAY + TimeInDay(wall);
    WallAt(DayOf(wall) + n, TimeInDay(wall));
  }

  lemma ShiftOnCalendar(z: Zone, date: string, n: int)
    requires ZoneOk(z) && CalendarZone(z) && ParseDate(date).Some?
    ensures Shifted(z, date, n) == FormatDate(CivilOf(DayNumber(ParseDate(date).value) + n))
  {
    hide ParseDate, FormatDate, CivilOf, Valid, DayNumber, Shifted, ShiftSettles;
    ShiftLands(z, date, n);
  }

  /** Shifting by one gives the next date of the calendar, and shifting back returns. */
  lemma ShiftByOne(z: Zone, date: string)
    requires ZoneOk(z) && CalendarZone(z) && ParseDate(date).Some?
    ensures Valid(NextDate(ParseDate(date).value))
    ensures Shifted(z, date, 1) == FormatDate(NextDate(ParseDate(date).value))
  {
    hide ParseDate, FormatDate, CalendarZone, Shifted, DayNumber, CivilOf, NextDate, Valid;
    var c := ParseDate(date).value;
    ShiftOnCalendar(z, date, 1);
    NextDayNumber(c);
    CivilRoundTrip(NextDate(c));
  }

  lemma FormattedIsNotNaN(c: Civil)
    requires Valid(c)
    ensures FormatDate(c) != NaNDate()
  {
    hide Pad2;
    ValidRange(c);
    assert FormatDate(c)[0] == IntText(c.year)[0];
    assert NaNDate()[0] == 'N';
  }

  /**
   * Shifting is an action of the integers: shifts add up, across month, year and
   * leap-day boundaries, exactly when the date in between prints with four digits.
   */
  lemma ShiftsAddUp(z: Zone, date: string, a: int, b: int)
    requires ZoneOk(z) && CalendarZone(z) && ParseDate(date).Some?
    ensures Shifted(z, Shifted(z, date, a), b) == Shifted(z, date, a + b) <==>
            1000 <= CivilOf(DayNumber(ParseDate(date).value) + a).year <= 9999
  {
    hide ParseDate, FormatDate, Valid, CalendarZone, CivilOf, DayNumber, Shifted, NaNDate;
    var d := DayNumber(ParseDate(date).value);
    ShiftOnCalendar(z, date, a);
    ShiftOnCalendar(z, date, a + b);
    var middle := CivilOf(d + a);
    ReadBack(d + a);
    if 1000 <= middle.year <= 9999 {
      ShiftOnCalendar(z, FormatDate(middle), b);
    } else {
      ShiftOfNothing(z, FormatDate(middle), b);
      FormattedIsNotNaN(CivilOf(d + (a + b)));
    }
  }

  /** An unreadable date shifts to the text of an invalid date. */
  lemma ShiftOfNothing(z: Zone, date: string, n: int)
    requires ZoneOk(z) && ParseDate(date).None?
    ensures Shifted(z, date, n) == NaNDate() == "NaN-NaN-NaN"
  {
  }

  lemma ReadBack(n: int)
    ensures var c := CivilOf(n);
            && (1000 <= c.year <= 9999 ==> ParseDate(FormatDate(c)) == Some(c) && DayNumber(c) == n)
            && (!(1000 <= c.year <= 9999) ==> ParseDate(FormatDate(c)).None?)
  {
    hide ParseDate, FormatDate;
    DateTextRoundTrip(CivilOf(n));
  }

  /** Shifting by zero is the identity exactly on dates printed the way the code prints them. */
  lemma ShiftByZero(z: Zone, date: string)
    requires ZoneOk(z) && CalendarZone(z) && ParseDate(date).Some?
    ensures Shifted(z, date, 0) == date <==> FormatDate(ParseDate(date).value) == date
  {
    hide ParseDate, FormatDate, UTC, Shifted, CalendarZone, YearOf;
    ShiftOnCalendar(z, date, 0);
    CivilRoundTrip(ParseDate(date).value);
  }

  /** The week view. */
  function ExpandWeek(z: Zone, anchor: string): (r: seq<string>)
    requires ZoneOk(z)
    ensures |r| == 7
  {
    seq(7, i requires 0 <= i < 7 => Shifted(z, anchor, i))
  }

  /**
   * The week view is seven consecutive calendar days starting at the anchor's: pairwise
   * distinct texts, and wherever the year has four digits the text reads back to day
   * number anchor + i, so the dates ascend.
   */
  lemma WeekIsConsecutive(z: Zone, anchor: string)
    requires ZoneOk(z) && CalendarZone(z) && ParseDate(anchor).Some?
    ensures var week, d := ExpandWeek(z, anchor), DayNumber(ParseDate(anchor).value);
            && (forall i :: 0 <= i < 7 ==> week[i] == FormatDate(CivilOf(d + i)))
            && (forall i, j :: 0 <= i < j < 7 ==> week[i] != week[j])
            && (forall i :: 0 <= i < 7 && 1000 <= CivilOf(d + i).year <= 9999 ==>
                  ParseDate(week[i]).Some? && DayNumber(ParseDate(week[i]).value) == d + i)
  {
    hide ParseDate, FormatDate, UTC, Shifted, CalendarZone, CivilOf, Valid, DayNumber;
    var week, d := ExpandWeek(z, anchor), DayNumber(ParseDate(anchor).value);
    forall i | 0 <= i < 7
      ensures week[i] == FormatDate(CivilOf(d + i))
      ensures 1000 <= CivilOf(d + i).year <= 9999 ==> ParseDate(week[i]).Some? && DayNumber(ParseDate(week[i]).value) == d + i
    {
      ShiftOnCalendar(z, anchor, i);
      ReadBack(d + i);
    }
    forall i, j | 0 <= i < j < 7 ensures week[i] != week[j] { DistinctDays(d + i, d + j); }
  }
}
