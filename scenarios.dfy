/**
 * Worked rows of a schedule table and the records they yield, mostly
 * derived from the general properties.
 */
module Scenarios {
  import opened Text
  import opened Schedule
  import opened ScheduleProperties

  /** `int` of a two-digit numeral such as `09`: leading zeros are accepted. */
  lemma ParseTwoDigits(s: string)
    requires |s| == 2 && IsDigit(s[0]) && IsDigit(s[1])
    ensures ParseInt(s) == Some(10 * (s[0] as int - '0' as int) + (s[1] as int - '0' as int))
  {
    IntStripTrimmed(s);
    assert AllDigits(s);
    assert s[..1][..0] == [];
    assert DigitsValue(s[..1]) == s[0] as int - '0' as int;
  }

  /** A zero-padded `HH:MM` text reads as its hour and minute. */
  lemma PaddedClock(s: string)
    requires |s| == 5 && s[2] == ':'
    requires IsDigit(s[0]) && IsDigit(s[1]) && IsDigit(s[3]) && IsDigit(s[4])
    ensures ParseClock(Strip(s)) == Some(Clock(10 * (s[0] as int - '0' as int) + (s[1] as int - '0' as int),
                                               10 * (s[3] as int - '0' as int) + (s[4] as int - '0' as int)))
  {
    var h, m := s[..2], s[3..];
    assert Strip(s) == s by { StripTrimmed(s); }
    assert Split(s, ':') == [h, m] by {
      assert s == Join([h, m], ':');
      SplitJoin([h, m], ':');
    }
    ParseTwoDigits(h);
    ParseTwoDigits(m);
  }

  /** The days cell `월,수` names Monday and Wednesday. */
  lemma ExampleDays(r: Row)
    requires r.days == "월,수"
    ensures DaysOf(r) == ["월", "수"]
  {
    assert Strip(r.days) == r.days by { StripTrimmed(r.days); }
    assert DayTokens(r) == ["월", "수"] by {
      assert r.days == Join(["월", "수"], ',');
      SplitJoin(["월", "수"], ',');
    }
    assert ["월", "수"] == ["월"] + ["수"];
    RecognisedAppend(["월"], ["수"]);
    RecognisedSingle("월");
    RecognisedSingle("수");
    StripTrimmed("월");
    StripTrimmed("수");
  }


  /** A usable row naming one weekday yields its one record. */
  lemma OneDayRow(r: Row, s: Clock, e: Clock)
    requires PassesGate(r) && |DaysOf(r)| == 1
    requires ParseClock(Strip(r.start)) == Some(s) && ParseClock(Strip(r.end)) == Some(e)
    ensures Expand([r]) == [PlotRecord(DaysOf(r)[0], r, s, e)]
  {
    RowRecordsAccepted(r, s, e);
    TokenRecordsParsed(DayTokens(r), r, s, e);
    ExpandSingle(r);
  }

  /** A usable row naming two weekdays yields their two records, in that order. */
  lemma TwoDayRow(r: Row, s: Clock, e: Clock)
    requires PassesGate(r) && |DaysOf(r)| == 2
    requires ParseClock(Strip(r.start)) == Some(s) && ParseClock(Strip(r.end)) == Some(e)
    ensures Expand([r]) == [PlotRecord(DaysOf(r)[0], r, s, e), PlotRecord(DaysOf(r)[1], r, s, e)]
  {
    RowRecordsAccepted(r, s, e);
    TokenRecordsParsed(DayTokens(r), r, s, e);
    ExpandSingle(r);
  }

  /** The sample cells: a school block from 09:00 to 13:00 drawn in blue. */
  predicate SampleCells(r: Row)
  {
    r.activity == "학교" && r.start == "09:00" && r.end == "13:00" && r.colour == "#5D9CEC"
  }

  /** The sample times read as 9:00 and 13:00. */
  lemma ExampleClocks(r: Row)
    requires SampleCells(r)
    ensures ParseClock(Strip(r.start)) == Some(Clock(9, 0))
    ensures ParseClock(Strip(r.end)) == Some(Clock(13, 0))
  {
    PaddedClock(r.start);
    PaddedClock(r.end);
  }

  /** The record of a sample row on any weekday: 540 minutes in, 240 long. */
  lemma ExampleRecord(day: string, r: Row)
    requires day in DAY_ORDER && SampleCells(r)
    ensures PlotRecord(day, r, Clock(9, 0), Clock(13, 0))
      == Interval(day, DAY_ORDER[day], "학교", 540, 240, "#5D9CEC", "09:00~13:00")
  {
    assert "09:00" + "~" + "13:00" == "09:00~13:00";
    StripTrimmed(r.start);
    StripTrimmed(r.end);
    StripTrimmed(r.activity);
    StripTrimmed(r.colour);
  }

  /** A sample row with a trimmed, non-empty days cell passes the filter. */
  lemma ExampleGate(r: Row)
    requires SampleCells(r) && r.days != [] && Trimmed(r.days)
    ensures PassesGate(r)
  {
    StripTrimmed(r.days);
    StripTrimmed(r.start);
    StripTrimmed(r.end);
    assert r.start[2] == ':';
  }

  /** The sample row on Monday and Wednesday passes and names those two days. */
  lemma TwoDaysExpand(r: Row)
    requires r == Row("학교", "월,수", "09:00", "13:00", "#5D9CEC")
    ensures Expand([r]) == [PlotRecord("월", r, Clock(9, 0), Clock(13, 0)), PlotRecord("수", r, Clock(9, 0), Clock(13, 0))]
  {
    ExampleDays(r);
    ExampleGate(r);
    ExampleClocks(r);
    TwoDayRow(r, Clock(9, 0), Clock(13, 0));
  }

  /** A school block on Monday and Wednesday, 09:00 to 13:00, becomes two records. */
  lemma ExampleTwoDays(r: Row)
    requires r == Row("학교", "월,수", "09:00", "13:00", "#5D9CEC")
    ensures Expand([r]) ==
      [Interval("월", 0, "학교", 540, 240, "#5D9CEC", "09:00~13:00"),
       Interval("수", 2, "학교", 540, 240, "#5D9CEC", "09:00~13:00")]
  {
    TwoDaysExpand(r);
    ExampleRecord("월", r);
    ExampleRecord("수", r);
  }

  /** An unknown token next to a weekday is dropped silently. */
  lemma UnknownTokenDays(r: Row)
    requires r.days == "월,Xyz"
    ensures DaysOf(r) == ["월"]
  {
    assert Strip(r.days) == r.days by { StripTrimmed(r.days); }
    assert DayTokens(r) == ["월", "Xyz"] by {
      assert r.days == Join(["월", "Xyz"], ',');
      SplitJoin(["월", "Xyz"], ',');
    }
    assert Recognised(["월", "Xyz"]) == ["월"] by {
      assert ["월", "Xyz"] == ["월"] + ["Xyz"];
      RecognisedAppend(["월"], ["Xyz"]);
      assert Recognised(["월"]) == ["월"] by {
        RecognisedSingle("월");
        StripTrimmed("월");
      }
      assert Recognised(["Xyz"]) == [] by {
        RecognisedSingle("Xyz");
        StripTrimmed("Xyz");
      }
    }
  }

  /** The sample row with the days `월,Xyz` passes and names Monday alone. */
  lemma UnknownTokenExpand(r: Row)
    requires r == Row("학교", "월,Xyz", "09:00", "13:00", "#5D9CEC")
    ensures Expand([r]) == [PlotRecord("월", r, Clock(9, 0), Clock(13, 0))]
  {
    UnknownTokenDays(r);
    ExampleGate(r);
    ExampleClocks(r);
    OneDayRow(r, Clock(9, 0), Clock(13, 0));
  }

  /** The sample row with the days `월,Xyz` yields its Monday record only. */
  lemma ExampleUnknownToken(r: Row)
    requires r == Row("학교", "월,Xyz", "09:00", "13:00", "#5D9CEC")
    ensures Expand([r]) == [Interval("월", 0, "학교", 540, 240, "#5D9CEC", "09:00~13:00")]
  {
    UnknownTokenExpand(r);
    ExampleRecord("월", r);
  }

  /** A start written without a colon fails the filter: the row yields nothing. */
  lemma ExampleNoColon(r: Row)
    requires r == Row("학교", "월", "0900", "13:00", "#5D9CEC")
    ensures Expand([r]) == []
  {
    assert Strip(r.start) == r.start by { StripTrimmed(r.start); }
    assert !PassesGate(r);
    ExpandSingle(r);
  }

  /** A start with two colons passes the filter but does not read: the row yields nothing. */
  lemma ExampleTwoColons(r: Row)
    requires r == Row("학교", "월", "9:00:00", "13:00", "#5D9CEC")
    ensures Expand([r]) == []
  {
    assert Strip(r.start) == r.start by { StripTrimmed(r.start); }
    assert Split(r.start, ':') == ["9", "00", "00"] by {
      assert r.start == Join(["9", "00", "00"], ':');
      SplitJoin(["9", "00", "00"], ':');
    }
    RowRecordsRejected(r);
    ExpandSingle(r);
  }
}
