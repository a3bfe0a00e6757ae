/**
 * The schedule-to-plot transform of the timetable app: a table of schedule
 * rows (activity, weekdays, start, end, colour; every cell as text) becomes a
 * flat list of plot records, one per recognised weekday of each usable row.
 * Malformed rows are skipped, never reported.
 */
module Schedule {
  import opened Text

  /** One row of a schedule table, every cell already rendered as text. */
  datatype Row = Row(activity: string, days: string, start: string, end: string, colour: string)

  /** A parsed `H:M` clock text; neither part is range-checked. */
  datatype Clock = Clock(hour: int, minute: int)

  /**
   * One plot record: an activity on one weekday. Offsets are whole minutes
   * since midnight rather than fractional hours.
   */
  datatype Interval = Interval(
    day: string,
    dayIndex: int,
    activity: string,
    startMinutes: int,
    durationMinutes: int,
    colour: string,
    timeText: string)

  /** The recognised weekday names, Monday to Friday, and their chart columns. */
  const DAY_ORDER: map<string, int> := map["월" := 0, "화" := 1, "수" := 2, "목" := 3, "금" := 4]

  /** The grey used for a colour cell that is not a `#` colour. */
  const DEFAULT_COLOUR: string := "#CCCCCC"

  function Minutes(c: Clock): int
  {
    60 * c.hour + c.minute
  }

  /**
   * Reads `H:M`: the text must split on `:` into exactly two parts, each
   * accepted by `int`.
   */
  function ParseClock(s: string): Option<Clock>
  {
    var parts := Split(s, ':');
    if |parts| != 2 then None
    else
      var hour, minute := ParseInt(parts[0]), ParseInt(parts[1]);
      if hour.Some? && minute.Some? then Some(Clock(hour.value, minute.value)) else None
  }

  predicate StartsWithHash(s: string)
  {
    |s| > 0 && s[0] == '#'
  }

  /**
   * The colour a record is drawn in: the trimmed cell when it starts with
   * `#`, the default grey otherwise; either way a `#` text.
   */
  function Colour(raw: string): (r: string)
    ensures StartsWithHash(r)
    ensures r == Strip(raw) || r == DEFAULT_COLOUR
  {
    var c := Strip(raw);
    if StartsWithHash(c) then c else DEFAULT_COLOUR
  }

  /**
   * The row filter: days, start and end must be non-empty once trimmed and
   * the trimmed start must contain a colon. The activity is not checked.
   */
  predicate PassesGate(r: Row)
  {
    Strip(r.days) != [] && Strip(r.start) != [] && Strip(r.end) != [] && ':' in Strip(r.start)
  }

  /** The record emitted for the recognised weekday `day` of row `r`. */
  function PlotRecord(day: string, r: Row, s: Clock, e: Clock): Interval
    requires day in DAY_ORDER
  {
    Interval(day, DAY_ORDER[day], Strip(r.activity), Minutes(s), Minutes(e) - Minutes(s),
             Colour(r.colour), Strip(r.start) + "~" + Strip(r.end))
  }

  /**
   * What every record satisfies whatever the input: its weekday is a
   * recognised name, its index is that name's column (0 to 4), and its
   * texts are trimmed, the colour a `#` colour.
   */
  predicate WellFormed(x: Interval)
  {
    && x.day in DAY_ORDER
    && x.dayIndex == DAY_ORDER[x.day]
    && 0 <= x.dayIndex <= 4
    && Strip(x.day) == x.day
    && Strip(x.activity) == x.activity
    && StartsWithHash(x.colour)
  }

  /** The records one raw weekday token of row `r` contributes: zero or one. */
  function TokenRecord(token: string, r: Row): seq<Interval>
  {
    var day := Strip(token);
    var start, end := ParseClock(Strip(r.start)), ParseClock(Strip(r.end));
    if day in DAY_ORDER && start.Some? && end.Some? then [PlotRecord(day, r, start.value, end.value)] else []
  }

  /** The records of a row's weekday tokens, in token order. */
  function TokenRecords(tokens: seq<string>, r: Row): seq<Interval>
  {
    if tokens == [] then []
    else TokenRecords(tokens[..|tokens| - 1], r) + TokenRecord(tokens[|tokens| - 1], r)
  }

  /** The weekday tokens of a row: its trimmed days cell split on commas. */
  function DayTokens(r: Row): seq<string>
  {
    Split(Strip(r.days), ',')
  }

  /** The records one row contributes: none unless it passes the filter. */
  function RowRecords(r: Row): seq<Interval>
  {
    if PassesGate(r) then TokenRecords(DayTokens(r), r) else []
  }

  /** The records of a whole table: each row's records, in row order. */
  function Expand(rows: seq<Row>): seq<Interval>
  {
    if rows == [] then [] else Expand(rows[..|rows| - 1]) + RowRecords(rows[|rows| - 1])
  }

  /**
   * The `try` block run for one recognised weekday: reads both clock texts
   * and, when both read, builds that weekday's record; `None` stands for the
   * exception that makes the loop move on.
   */
  method TryRecord(day: string, startStr: string, endStr: string, activityStr: string, colourCell: string)
    returns (emitted: Option<Interval>)
    requires day in DAY_ORDER
    ensures emitted.Some? <==> ParseClock(startStr).Some? && ParseClock(endStr).Some?
    ensures emitted.Some? ==>
      var s, e := ParseClock(startStr).value, ParseClock(endStr).value;
      emitted.value == Interval(day, DAY_ORDER[day], activityStr, Minutes(s), Minutes(e) - Minutes(s),
                                Colour(colourCell), startStr + "~" + endStr)
  {
    var startClock := ParseClock(startStr);
    var endClock := ParseClock(endStr);
    if startClock.None? || endClock.None? {
      return None;
    }
    var startMinutes := 60 * startClock.value.hour + startClock.value.minute;
    var endMinutes := 60 * endClock.value.hour + endClock.value.minute;
    var colourVal := Strip(colourCell);
    if !StartsWithHash(colourVal) {
      colourVal := DEFAULT_COLOUR;
    }
    emitted := Some(Interval(day, DAY_ORDER[day], activityStr, startMinutes, endMinutes - startMinutes,
                             colourVal, startStr + "~" + endStr));
  }

  /**
   * `process_data`: walks the rows; a row that passes the filter has its
   * weekday tokens expanded into records appended to the output.
   */
  method ProcessData(rows: seq<Row>) returns (expanded: seq<Interval>)
    ensures expanded == Expand(rows)
  {
    expanded := [];
    for i := 0 to |rows|
      invariant expanded == Expand(rows[..i])
    {
      assert rows[..i + 1][..i] == rows[..i];
      var row := rows[i];
      var daysStr := Strip(row.days);
      var startStr := Strip(row.start);
      var endStr := Strip(row.end);
      var activityStr := Strip(row.activity);

      if daysStr == [] || startStr == [] || endStr == [] || ':' !in startStr {
        continue;
      }

      var days := Split(daysStr, ',');
      expanded := AppendDays(expanded, days, row, startStr, endStr, activityStr);
    }
    assert rows[..|rows|] == rows;
  }

  /**
   * The inner loop of `process_data` over one row's weekday tokens: each
   * recognised token whose row times read appends one record.
   */
  method AppendDays(expanded: seq<Interval>, days: seq<string>, row: Row,
                    startStr: string, endStr: string, activityStr: string)
    returns (extended: seq<Interval>)
    requires startStr == Strip(row.start) && endStr == Strip(row.end) && activityStr == Strip(row.activity)
    ensures extended == expanded + TokenRecords(days, row)
  {
    extended := expanded;
    for j := 0 to |days|
      invariant extended == expanded + TokenRecords(days[..j], row)
    {
      assert days[..j + 1][..j] == days[..j];
      var day := Strip(days[j]);
      if day in DAY_ORDER {
        var emitted := TryRecord(day, startStr, endStr, activityStr, row.colour);
        if emitted.Some? {
          extended := extended + [emitted.value];
        }
      }
    }
    assert days[..|days|] == days;
  }
}
