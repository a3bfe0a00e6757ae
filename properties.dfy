/**
 * What the schedule transform guarantees, stated over the specification
 * functions of module Schedule (which ProcessData is proved to compute).
 */
module ScheduleProperties {
  import opened Text
  import opened Schedule

  /** The trimmed tokens that name a recognised weekday, in token order, duplicates kept. */
  function Recognised(tokens: seq<string>): (days: seq<string>)
    ensures |days| <= |tokens|
    ensures forall d :: d in days ==> d in DAY_ORDER
  {
    if tokens == [] then []
    else
      var day := Strip(tokens[|tokens| - 1]);
      Recognised(tokens[..|tokens| - 1]) + (if day in DAY_ORDER then [day] else [])
  }

  /** The recognised weekdays of a row. */
  function DaysOf(r: Row): seq<string>
  {
    Recognised(DayTokens(r))
  }

  /** A day is recognised exactly when some token trims to it and it is a weekday key. */
  lemma {:induction false} RecognisedMembers(tokens: seq<string>, d: string)
    ensures d in Recognised(tokens) <==> d in DAY_ORDER && exists k :: 0 <= k < |tokens| && Strip(tokens[k]) == d
  {
    if tokens != [] {
      var init := tokens[..|tokens| - 1];
      RecognisedMembers(init, d);
      if d in DAY_ORDER && Strip(tokens[|tokens| - 1]) != d {
        if exists k :: 0 <= k < |tokens| && Strip(tokens[k]) == d {
          var k :| 0 <= k < |tokens| && Strip(tokens[k]) == d;
          assert init[k] == tokens[k];
        }
      }
      if d in DAY_ORDER && exists k :: 0 <= k < |init| && Strip(init[k]) == d {
        var k :| 0 <= k < |init| && Strip(init[k]) == d;
        assert tokens[k] == init[k];
      }
    }
  }

  /**
   * One token is recognised alone: its trimmed text if that is a weekday
   * name, nothing otherwise. With `RecognisedAppend` this gives the whole
   * rule: unknown tokens vanish, repeated ones repeat, order is kept.
   */
  lemma RecognisedSingle(t: string)
    ensures Recognised([t]) == if Strip(t) in DAY_ORDER then [Strip(t)] else []
  {
    assert [t][..0] == [];
  }

  /** Recognition keeps token order: it distributes over concatenation. */
  lemma {:induction false} RecognisedAppend(a: seq<string>, b: seq<string>)
    ensures Recognised(a + b) == Recognised(a) + Recognised(b)
  {
    if b != [] {
      var b' := b[..|b| - 1];
      assert (a + b)[..|a + b| - 1] == a + b';
      assert (a + b)[|a + b| - 1] == b[|b| - 1];
      RecognisedAppend(a, b');
    } else {
      assert a + b == a;
    }
  }

  /** A row whose start or end does not read as `H:M` yields nothing from any token. */
  lemma {:induction false} TokenRecordsUnparsed(tokens: seq<string>, r: Row)
    requires ParseClock(Strip(r.start)).None? || ParseClock(Strip(r.end)).None?
    ensures TokenRecords(tokens, r) == []
  {
    if tokens != [] {
      TokenRecordsUnparsed(tokens[..|tokens| - 1], r);
    }
  }

  /**
   * A row whose times both read yields, token by token, exactly one record
   * per recognised weekday, in token order.
   */
  lemma {:induction false} TokenRecordsParsed(tokens: seq<string>, r: Row, s: Clock, e: Clock)
    requires ParseClock(Strip(r.start)) == Some(s) && ParseClock(Strip(r.end)) == Some(e)
    ensures |TokenRecords(tokens, r)| == |Recognised(tokens)|
    ensures forall i :: 0 <= i < |Recognised(tokens)| ==>
      TokenRecords(tokens, r)[i] == PlotRecord(Recognised(tokens)[i], r, s, e)
  {
    if tokens != [] {
      TokenRecordsParsed(tokens[..|tokens| - 1], r, s, e);
    }
  }

  /**
   * Rejection: a row that fails the filter, or whose start or end does not
   * read as `H:M`, contributes no record at all.
   */
  lemma RowRecordsRejected(r: Row)
    requires !PassesGate(r) || ParseClock(Strip(r.start)).None? || ParseClock(Strip(r.end)).None?
    ensures RowRecords(r) == []
  {
    if PassesGate(r) {
      TokenRecordsUnparsed(DayTokens(r), r);
    }
  }

  /**
   * Acceptance: a row that passes the filter and whose times read yields one
   * record per recognised weekday token, in token order: that weekday and
   * its column, the trimmed activity, the start in minutes, the end minus
   * the start in minutes, the colour, and the trimmed texts `start~end`.
   */
  lemma RowRecordsAccepted(r: Row, s: Clock, e: Clock)
    requires PassesGate(r)
    requires ParseClock(Strip(r.start)) == Some(s) && ParseClock(Strip(r.end)) == Some(e)
    ensures |RowRecords(r)| == |DaysOf(r)|
    ensures forall i :: 0 <= i < |DaysOf(r)| ==>
      var x := RowRecords(r)[i];
      && x.day == DaysOf(r)[i]
      && x.dayIndex == DAY_ORDER[x.day]
      && x.activity == Strip(r.activity)
      && x.startMinutes == 60 * s.hour + s.minute
      && x.durationMinutes == (60 * e.hour + e.minute) - (60 * s.hour + s.minute)
      && x.colour == Colour(r.colour)
      && x.timeText == Strip(r.start) + "~" + Strip(r.end)
  {
    TokenRecordsParsed(DayTokens(r), r, s, e);
  }

  /** The number of records of one row: its recognised weekdays if it is usable, else zero. */
  lemma RowRecordCount(r: Row)
    ensures |RowRecords(r)| ==
      if PassesGate(r) && ParseClock(Strip(r.start)).Some? && ParseClock(Strip(r.end)).Some?
      then |DaysOf(r)| else 0
  {
    if PassesGate(r) && ParseClock(Strip(r.start)).Some? && ParseClock(Strip(r.end)).Some? {
      RowRecordsAccepted(r, ParseClock(Strip(r.start)).value, ParseClock(Strip(r.end)).value);
    } else {
      RowRecordsRejected(r);
    }
  }

  /** The same records with their activity replaced by `activity`. */
  function Relabel(xs: seq<Interval>, activity: string): (ys: seq<Interval>)
    ensures |ys| == |xs|
    ensures forall i :: 0 <= i < |xs| ==> ys[i] == xs[i].(activity := activity)
  {
    if xs == [] then [] else Relabel(xs[..|xs| - 1], activity) + [xs[|xs| - 1].(activity := activity)]
  }

  lemma RelabelAppend(xs: seq<Interval>, ys: seq<Interval>, activity: string)
    ensures Relabel(xs + ys, activity) == Relabel(xs, activity) + Relabel(ys, activity)
  {
  }

  lemma TokenRecordRelabel(token: string, r: Row, a: string)
    ensures TokenRecord(token, r.(activity := a)) == Relabel(TokenRecord(token, r), Strip(a))
  {
    var r' := r.(activity := a);
    assert r'.start == r.start && r'.end == r.end && r'.colour == r.colour && r'.activity == a;
    var day := Strip(token);
    var start, end := ParseClock(Strip(r.start)), ParseClock(Strip(r.end));
    if day in DAY_ORDER && start.Some? && end.Some? {
      var x := PlotRecord(day, r, start.value, end.value);
      assert TokenRecord(token, r') == [x.(activity := Strip(a))] by {
        assert PlotRecord(day, r', start.value, end.value) == x.(activity := Strip(a));
      }
      assert Relabel([x], Strip(a)) == [x.(activity := Strip(a))] by {
        assert [x][..0] == [];
      }
    } else {
      assert TokenRecord(token, r') == [];
    }
  }

  lemma {:induction false} TokenRecordsRelabel(tokens: seq<string>, r: Row, a: string)
    ensures TokenRecords(tokens, r.(activity := a)) == Relabel(TokenRecords(tokens, r), Strip(a))
  {
    if tokens != [] {
      var init, last := tokens[..|tokens| - 1], tokens[|tokens| - 1];
      TokenRecordsRelabel(init, r, a);
      TokenRecordRelabel(last, r, a);
      RelabelAppend(TokenRecords(init, r), TokenRecord(last, r), Strip(a));
    }
  }

  /**
   * The activity takes no part in the filter: changing it changes only the
   * activity of each record, never which records there are.
   */
  lemma ActivityNotChecked(r: Row, a: string)
    ensures RowRecords(r.(activity := a)) == Relabel(RowRecords(r), Strip(a))
  {
    TokenRecordsRelabel(DayTokens(r), r, a);
  }

  /** Every record a row's tokens yield is well formed. */
  lemma {:induction false} TokenRecordsWellFormed(tokens: seq<string>, r: Row)
    ensures forall x :: x in TokenRecords(tokens, r) ==> WellFormed(x)
  {
    if tokens != [] {
      TokenRecordsWellFormed(tokens[..|tokens| - 1], r);
      StripIdempotent(tokens[|tokens| - 1]);
      StripIdempotent(r.activity);
    }
  }

  /** The records of a table are the records of its parts, in order. */
  lemma {:induction false} ExpandAppend(a: seq<Row>, b: seq<Row>)
    ensures Expand(a + b) == Expand(a) + Expand(b)
  {
    if b != [] {
      var b' := b[..|b| - 1];
      assert (a + b)[..|a + b| - 1] == a + b';
      assert (a + b)[|a + b| - 1] == b[|b| - 1];
      ExpandAppend(a, b');
    } else {
      assert a + b == a;
    }
  }

  /**
   * Output order: the records of a row come after those of the rows before
   * it and before those of the rows after it.
   */
  lemma ExpandAround(a: seq<Row>, r: Row, b: seq<Row>)
    ensures Expand(a + [r] + b) == Expand(a) + RowRecords(r) + Expand(b)
  {
    ExpandAppend(a + [r], b);
    ExpandAppend(a, [r]);
    ExpandSingle(r);
  }

  /** A one-row table yields exactly that row's records. */
  lemma ExpandSingle(r: Row)
    ensures Expand([r]) == RowRecords(r)
  {
    assert [r][..0] == [];
  }

  /** A rejected row can be removed from the table without changing the output. */
  lemma SkipsRejectedRow(a: seq<Row>, r: Row, b: seq<Row>)
    requires !PassesGate(r) || ParseClock(Strip(r.start)).None? || ParseClock(Strip(r.end)).None?
    ensures Expand(a + [r] + b) == Expand(a + b)
  {
    RowRecordsRejected(r);
    ExpandAround(a, r, b);
    ExpandAppend(a, b);
  }

  /**
   * Whatever the input, every record names a recognised weekday, carries
   * that weekday's column (0 to 4), trimmed texts and a `#` colour.
   */
  lemma {:induction false} ExpandWellFormed(rows: seq<Row>)
    ensures forall x :: x in Expand(rows) ==> WellFormed(x)
  {
    if rows != [] {
      ExpandWellFormed(rows[..|rows| - 1]);
      TokenRecordsWellFormed(DayTokens(rows[|rows| - 1]), rows[|rows| - 1]);
    }
  }

  /** The colour rule: a trimmed `#` cell is kept, anything else becomes the default grey. */
  lemma ColourRule(raw: string)
    ensures Colour(raw) == Strip(raw) <==> StartsWithHash(Strip(raw))
    ensures !StartsWithHash(Strip(raw)) ==> Colour(raw) == DEFAULT_COLOUR
  {
  }

  /** Feeding a record's colour back in leaves it unchanged. */
  lemma ColourIdempotent(raw: string)
    ensures Colour(Colour(raw)) == Colour(raw)
  {
    StripIdempotent(raw);
    StripTrimmed(DEFAULT_COLOUR);
  }

  /**
   * Every `H:M` text written with integers reads back as those integers;
   * neither part is range-checked, so `9:75` reads as 9 hours 75 minutes.
   */
  lemma ClockRoundTrip(h: int, m: int)
    ensures ParseClock(IntString(h) + ":" + IntString(m)) == Some(Clock(h, m))
  {
    var hs, ms := IntString(h), IntString(m);
    assert hs + ":" + ms == Join([hs, ms], ':');
    SplitJoin([hs, ms], ':');
    ParseIntRoundTrip(h);
    ParseIntRoundTrip(m);
  }

  /** A text with two colons or more does not read: `9:00:00` with seconds, say. */
  lemma SecondsRejected(a: string, b: string, c: string)
    ensures ParseClock(a + [':'] + b + [':'] + c) == None
  {
    SplitAround(a + [':'] + b, c, ':');
    SplitAround(a, b, ':');
  }

  /** A text ending in its colon, such as `9:`, does not read: its minute part is empty. */
  lemma EmptyMinuteRejected(h: string)
    ensures ParseClock(h + [':']) == None
  {
    assert h + [':'] == h + [':'] + [];
    SplitAround(h, [], ':');
  }

  /** `ab:cd` does not read: its parts are not numerals. */
  lemma LettersRejected(s: string)
    requires s == "ab:cd"
    ensures ParseClock(s) == None
  {
    assert s == Join(["ab", "cd"], ':');
    SplitJoin(["ab", "cd"], ':');
    IntStripTrimmed("ab");
  }

  /** A time without a colon, such as `0900`, does not read. */
  lemma NoColonRejected(s: string)
    requires ':' !in s
    ensures ParseClock(s) == None
  {
    SplitWithoutSep(s, ':');
  }

  /**
   * The filter looks for a colon in the start only. A row whose end has no
   * colon passes it, then fails to read its end, and yields nothing.
   */
  lemma EndWithoutColon(r: Row)
    requires Strip(r.days) != [] && Strip(r.start) != [] && ':' in Strip(r.start)
    requires Strip(r.end) != [] && ':' !in Strip(r.end)
    ensures PassesGate(r) && RowRecords(r) == []
  {
    NoColonRejected(Strip(r.end));
    RowRecordsRejected(r);
  }

  /**
   * A text with exactly one colon reads as the `int`s of its two sides,
   * and does not read when either side is not a numeral.
   */
  lemma ClockOneColon(a: string, b: string)
    requires ':' !in a && ':' !in b
    ensures ParseClock(a + [':'] + b) ==
      if ParseInt(a).Some? && ParseInt(b).Some? then Some(Clock(ParseInt(a).value, ParseInt(b).value)) else None
  {
    SplitAfterHead(a, b, ':');
    SplitWithoutSep(b, ':');
  }

  /**
   * A start `9:\x1c30` keeps its U+001C through the cell's `strip`, and
   * `int` rejects the minute text, so the row yields nothing.
   */
  lemma SeparatorInStart(r: Row)
    requires Strip(r.start) == "9:\U{1C}30"
    ensures RowRecords(r) == []
  {
    assert Strip(r.start) == "9" + [':'] + "\U{1C}30";
    ClockOneColon("9", "\U{1C}30");
    FileSeparatorRejected("\U{1C}30");
    RowRecordsRejected(r);
  }
}
