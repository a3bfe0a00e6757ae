# Timetable schedule transform

A model of `process_data`, the one piece of logic in a small timetable app.
The function turns a table of schedule rows into a flat list of plot records.
Each row holds five text cells: activity, days, start, end and colour. The
result has one record per recognised weekday of each usable row.

The rules the model follows:

- Every cell is trimmed with Python's `str.strip()`.
- A row is skipped unless its days, start and end are non-empty and its start
  contains a `:`.
- The days cell is split on `,` and each token is trimmed.
- A token counts only if it is one of the five weekday names 월 화 수 목 금.
  These map to columns 0 to 4. Other tokens are dropped without error, and a
  repeated token gives a repeated record.
- Start and end must each split on `:` into exactly two parts, and each part
  must be accepted by `int`. Otherwise the `try` block fails for every token
  and the row yields nothing.
- A record carries:
  - the weekday and its column;
  - the trimmed activity;
  - the start offset and the duration;
  - the colour: the trimmed colour cell when it starts with `#`, else `#CCCCCC`;
  - the label `start~end`, built from the trimmed texts.

Files:

- `text.dfy` (module `Text`): the Python string builtins the transform uses.
  - `strip`, `split` and its inverse `join`.
  - `int` on decimal numerals, and `str` of an integer for round trips.
- `schedule.dfy` (module `Schedule`): the data and the transform itself.
  - The datatypes `Row`, `Clock` and `Interval`, the weekday map and the
    default colour.
  - The specification functions (`Expand` and the per-row and per-token
    functions under it).
  - The loops of `process_data` as methods proved equal to those functions:
    `ProcessData` for the rows, `AppendDays` for one row's tokens, and
    `TryRecord` for the `try` block.
- `properties.dfy` (module `ScheduleProperties`): what the transform
  guarantees for all inputs.
- `scenarios.dfy` (module `Scenarios`): worked rows and the records they give,
  mostly derived from the general lemmas.

`process_data` never checks the activity cell (app.py:45), so a row with an
empty activity still yields records with an empty label; see
`ActivityNotChecked`.

## Model

| member | source | states |
|---|---|---|
| Schedule.ProcessData | app.py:34-75 | The output equals `Expand(rows)`. That is each row's records concatenated in row order, so every property proved of `Expand` holds for what the loop builds. |
| Schedule.AppendDays | app.py:50-74 | Walking one row's day tokens appends exactly `TokenRecords(days, row)` to what was already collected, in token order. |
| Schedule.TryRecord | app.py:53-74 | A record is produced exactly when both times read as `H:M`. The record has the given day and its column, start `60*sh+sm`, duration end minus start, the colour rule applied, and the verbatim `start~end` label. |
| Schedule.PassesGate | app.py:45 | The filter: days, start and end non-empty after `strip`, and a colon in the stripped start; the activity is not looked at. `RowRecordsRejected`, `SkipsRejectedRow`, `EndWithoutColon` and `ActivityNotChecked` state what it implies. |
| Schedule.ParseClock | app.py:54-55 | Splitting on `:` and unpacking two `int`s. `ClockRoundTrip` proves every integer `H:M` text reads back as its numbers, and `SecondsRejected`, `EmptyMinuteRejected`, `LettersRejected` and `NoColonRejected` prove the rejections. |
| Schedule.Minutes | app.py:57-58 | A clock as minutes since midnight, `60*h+m`: the hours-plus-fraction of the source scaled by 60 so it stays an integer. `RowRecordsAccepted` states the start and duration built from it. |
| Schedule.TokenRecord | app.py:51-72 | The records of one day token: one if its stripped text is a weekday and both times read, else none. `TokenRecordsParsed` and `TokenRecordsUnparsed` state it for whole token lists. |
| Schedule.PlotRecord | app.py:64-72 | The record of one recognised day. Its fields (day, column, trimmed activity, start, duration, colour, time text) are stated by `RowRecordsAccepted`. |
| Schedule.TokenRecords | app.py:50-74 | The records of a row's tokens in token order; the reference `AppendDays` is proved equal to. `TokenRecordsParsed`, `TokenRecordsUnparsed` and `TokenRecordsWellFormed` state its content. |
| Schedule.RowRecords | app.py:40-74 | The records of one row, none unless it passes the filter. `RowRecordsAccepted`, `RowRecordsRejected`, `RowRecordCount` and `ActivityNotChecked` state its content. |
| Schedule.DayTokens | app.py:48 | The day cell, stripped at app.py:40, split on `,` with empty pieces kept. `RecognisedMembers` and `RowRecordsAccepted` state what becomes of the tokens. |
| Schedule.Expand | app.py:39-75 | The records of a table, row by row; the reference `ProcessData` is proved equal to. `ExpandAppend`, `ExpandAround`, `SkipsRejectedRow` and `ExpandWellFormed` state its order and content. |
| Schedule.Colour | app.py:60-62 | The colour always starts with `#`. It is either the trimmed cell or `#CCCCCC`. |
| Schedule.StartsWithHash | app.py:61 | The test `color_val.startswith('#')`: true exactly when the text is non-empty and its first character is `#`. `ColourRule` states how it decides the colour. |
| Schedule.DAY_ORDER | app.py:37 | The weekday map `월`→0, `화`→1, `수`→2, `목`→3, `금`→4. `TokenRecordsWellFormed` proves every record's column is its day's entry. |
| Schedule.DEFAULT_COLOUR | app.py:62 | The fallback colour `#CCCCCC`. `ColourRule` proves it replaces every trimmed cell that does not start with `#`. |
| Text.IsSpace | app.py:40-43 | The character set of Python's `str.isspace()`, which every `strip` in `process_data` removes (the cells at app.py:40-43, each day token at app.py:51, the colour at app.py:60). What `strip` does with it is stated by `Strip` and `StripShape`. |
| Text.Strip | app.py:40-43 | The result has no whitespace at either end and is no longer than the input. |
| Text.StripShape | app.py:40-43 | The input is some whitespace, then the stripped text, then more whitespace. `strip` removes only the ends. |
| Text.StripTrimmed | app.py:40-43 | Text with no whitespace at either end is left unchanged by `strip`. |
| Text.StripIdempotent | app.py:40-43 | Stripping twice is the same as stripping once. |
| Text.Split | app.py:48 | A split always has at least one piece, as with Python's `str.split(sep)`. |
| Text.SplitPiecesLackSep | app.py:48 | No piece of a split contains the separator. |
| Text.JoinSplit | app.py:48 | Joining the pieces of a split with the separator gives back the original text. |
| Text.SplitWithoutSep | app.py:48 | Text without the separator splits into itself alone. |
| Text.SplitAfterHead | app.py:48 | A separator-free head followed by the separator splits off as exactly that head. |
| Text.SplitJoin | app.py:48 | Splitting a join of separator-free pieces gives back those pieces. |
| Text.SplitAround | app.py:54 | Splitting at one separator splits each side on its own, so a text with two colons splits into three pieces or more. |
| Text.IntStrip | app.py:54-55 | The result has no `int` whitespace at either end and is no longer than the input. `int` whitespace is `str.isspace()` without U+001C to U+001F. |
| Text.IntStripShape | app.py:54-55 | The input is some `int` whitespace, then the stripped text, then some more `int` whitespace: `IntStrip` removes only that. |
| Text.IsIntSpace | app.py:54-55 | The whitespace `int` skips: `str.isspace()` without U+001C to U+001F. `IntStrip` and `FileSeparatorRejected` state its effect. |
| Text.IntStripTrimmed | app.py:54-55 | Text with no `int` whitespace at either end is read as it stands. |
| Text.ParseInt | app.py:54-55 | Both directions. When `int` accepts a text, the text without its surrounding `int` whitespace is an optional sign followed by at least one ASCII digit. Every such text is accepted: unsigned and `+` numerals give their decimal value, leading zeros included, and `-` numerals give its negation. |
| Text.FileSeparatorRejected | app.py:54-55 | `strip` removes a leading U+001C but `int` rejects it: `\x1c30` strips to `30` and still does not read. `ScheduleProperties.SeparatorInStart` carries this to a whole row. |
| Text.DigitsRoundTrip | app.py:54-55 | Reading a rendered decimal numeral gives back its value. |
| Text.ParseIntRoundTrip | app.py:54-55 | `int(str(n)) == n` for every integer, negative ones included. |
| ScheduleProperties.Recognised | app.py:48-52 | The recognised days are at most as many as the tokens, and every one is a key of the weekday map. |
| ScheduleProperties.RecognisedMembers | app.py:48-52 | A day is recognised exactly when it is a weekday name and some token trims to it. Both directions are proved. |
| ScheduleProperties.RecognisedSingle | app.py:50-52 | A single token gives its trimmed text if that is a weekday name, else nothing. Unknown tokens are dropped silently. |
| ScheduleProperties.RecognisedAppend | app.py:48-52 | Recognition distributes over concatenation, so token order is kept and duplicates are kept. |
| ScheduleProperties.TokenRecordsUnparsed | app.py:53-74 | If the start or the end does not read, no token of the row yields a record. The per-token `try` fails each time. |
| ScheduleProperties.TokenRecordsParsed | app.py:50-72 | If both times read, the tokens yield exactly one record per recognised day, in order, each the record for that day. |
| ScheduleProperties.RowRecordsRejected | app.py:45-55 | A row that fails the filter, or whose start or end does not read, contributes no record. |
| ScheduleProperties.RowRecordsAccepted | app.py:45-72 | A row that passes and whose times read gives one record per recognised day, in token order. Each record carries that day and its column, the trimmed activity, start `60*sh+sm`, duration `(60*eh+em)-(60*sh+sm)` (negative when the end is earlier), the colour rule, and the trimmed texts joined by `~`. |
| ScheduleProperties.RowRecordCount | app.py:45-74 | A row's record count is its number of recognised days if it passes the filter and both times read, else zero. |
| ScheduleProperties.Relabel | app.py:67 | Replacing the activity keeps the length and every other field of every record. |
| ScheduleProperties.TokenRecordsRelabel | app.py:43-72 | Changing a row's activity changes its tokens' records only in their activity field. |
| ScheduleProperties.ActivityNotChecked | app.py:43-45 | The activity plays no part in the filter. Changing it, even to empty, gives the same records with only the activity replaced by its trimmed text. |
| ScheduleProperties.TokenRecordsWellFormed | app.py:51-66 | Every record of a row's tokens names a weekday and carries its column (0 to 4), a trimmed day and activity, and a `#` colour. |
| ScheduleProperties.ExpandAppend | app.py:39-64 | The records of two tables in sequence are the records of the first, then those of the second. |
| ScheduleProperties.ExpandAround | app.py:39-64 | A row's records come after those of the rows before it and before those of the rows after it. |
| ScheduleProperties.SkipsRejectedRow | app.py:45-46 | Removing a rejected row from anywhere in the table does not change the output. |
| ScheduleProperties.ExpandWellFormed | app.py:37-66 | For every input table, every record is well formed as in `TokenRecordsWellFormed`. |
| ScheduleProperties.ColourRule | app.py:60-62 | The trimmed cell is kept exactly when it starts with `#`. Any other cell becomes `#CCCCCC`. |
| ScheduleProperties.ColourIdempotent | app.py:60-62 | Feeding an output colour back in leaves it unchanged. |
| ScheduleProperties.ClockRoundTrip | app.py:54-58 | Every `H:M` text written with integers reads back as those integers. Nothing is range-checked, so `9:75` is accepted as 9 hours 75 minutes. |
| ScheduleProperties.SecondsRejected | app.py:54 | No text with two colons or more reads, `9:00:00` among them: it splits into three parts or more, and unpacking needs exactly two. |
| ScheduleProperties.EmptyMinuteRejected | app.py:54 | No text ending in its colon reads, `9:` among them: its minute part is empty or it has too many parts. |
| ScheduleProperties.LettersRejected | app.py:54 | `ab:cd` does not read, because its parts are not numerals. |
| ScheduleProperties.NoColonRejected | app.py:54-55 | No text without a colon reads, `0900` among them: it is a single part. |
| ScheduleProperties.EndWithoutColon | app.py:45-55 | A row whose start has a colon but whose end has none passes the filter, which looks at the start only, and then yields nothing because its end does not read. |
| ScheduleProperties.ClockOneColon | app.py:54-55 | A text with exactly one colon reads as the `int`s of its two sides, and does not read when either side does not. |
| ScheduleProperties.SeparatorInStart | app.py:40-55 | A row whose stripped start is `9:\x1c30` yields nothing: the U+001C survives `strip`, then `int` rejects the minute text and the `try` drops the row. |
| Scenarios.ParseTwoDigits | app.py:54 | A two-digit numeral with a leading zero such as `09` reads as its value. |
| Scenarios.PaddedClock | app.py:54-58 | A zero-padded `HH:MM` reads as its hour and minute. |
| Scenarios.ExampleDays | app.py:48-52 | The days cell `월,수` names Monday and Wednesday. |
| Scenarios.OneDayRow | app.py:50-72 | A usable row naming one weekday yields exactly its one record. |
| Scenarios.TwoDayRow | app.py:50-72 | A usable row naming two weekdays yields their two records, in that order. |
| Scenarios.ExampleClocks | app.py:54-55 | `09:00` and `13:00` read as 9:00 and 13:00. |
| Scenarios.ExampleRecord | app.py:57-71 | The sample cells give start 540, duration 240, the blue kept, and the label `09:00~13:00`. |
| Scenarios.ExampleGate | app.py:45 | The sample row with a non-empty trimmed days cell passes the filter. |
| Scenarios.TwoDaysExpand | app.py:39-74 | The Monday-and-Wednesday sample row yields the records for 월 and 수, in that order. |
| Scenarios.ExampleTwoDays | app.py:34-75 | The row 학교 / 월,수 / 09:00 / 13:00 / #5D9CEC becomes two records: columns 0 and 2, start 540, duration 240, label `09:00~13:00`. |
| Scenarios.UnknownTokenDays | app.py:48-52 | In the days cell `월,Xyz` only Monday is recognised. |
| Scenarios.UnknownTokenExpand | app.py:39-74 | The sample row with `월,Xyz` yields the Monday record alone. |
| Scenarios.ExampleUnknownToken | app.py:34-75 | The sample row with `월,Xyz` becomes exactly one record, for Monday. The unknown token raises nothing. |
| Scenarios.ExampleNoColon | app.py:45-46 | A start written `0900` fails the filter, so the row yields nothing. |
| Scenarios.ExampleTwoColons | app.py:53-74 | A start written `9:00:00` passes the filter but does not read, so the row yields nothing. |

## Left out

- Offsets are exact integer minutes rather than the code's floating-point
  hours (`h + m/60`). Float rounding is not modelled, and neither is the
  `OverflowError` that Python raises when converting an enormous integer to a
  float. That error would make the bare `except` skip the token, whereas the
  model emits a record.
- Text.ParseInt: Python's `int` is narrowed to optional surrounding
  whitespace, an optional sign and ASCII digits. The model does not accept
  underscores between digits or non-ASCII decimal digits, which Python does.
  Its whitespace is Python's: every `str.isspace()` character except
  U+001C to U+001F.
  Python also rejects a numeral of more than 4300 digit characters, leading
  zeros included; the model reads it. So a start of `9:` followed by 4301
  zeros and `30` drops the row in Python but yields a record in the model.
- ScheduleProperties.ClockRoundTrip and Text.ParseIntRoundTrip: they hold for
  every integer in the model; in Python only for numerals of at most 4300
  digits, for the reason above.
- The table library is not modelled. A missing column is read through
  `row.get(..., '')` and `str`, and the caller of `ProcessData` passes it as
  an empty cell. The library's rendering of empty cells as `nan` is not
  modelled either.
- The result is a sequence of `Interval` values rather than a data frame.
- The web UI, session state, CSV import and export, font download and chart
  drawing are not part of this model. That includes the drawing rule that
  shows the time label only on bars of at least half an hour. These are I/O
  and rendering, not logic of the transform.
