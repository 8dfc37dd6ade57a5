# Shipment tracker: a verified model of its ETA calculator and shipment table

The shipment tracker is a small Flask application that keeps shipments in one
SQLite table. It has two parts whose behaviour can be stated exactly, and this
project models both in Dafny and proves properties of the models.

- **The ETA calculator.** `calculate_eta` looks the destination up in a fixed
  table of lead times: Miri 1 day, Bintulu 2, Kuching 7, Sibu 4, Kota
  Kinabalu 7, Sandakan 14, Brunei 5, Labuan 5, Self Collect 1, and 0 for any
  other destination. It parses the departure date with
  `strptime('%Y-%m-%d')`, adds the lead time, and formats the result with
  `strftime('%Y-%m-%d')`.
  - `CivilDate` defines the proleptic Gregorian calendar. It has leap years,
    month lengths, Python's day ordinal (0001-01-01 is day 1) and adding days
    one at a time. It also holds the 9999-12-31 limit of Python's `datetime`.
  - `DateText` models CPython's `%Y-%m-%d` directives.
    - `%Y` is exactly four digits.
    - `%m` and `%d` also accept one digit, and `%d` accepts a space before a
      single digit.
    - The whole string must be consumed.
    - The fields must name a real date in years 1 to 9999.
  - `Eta` defines `calculate_eta`. It returns `Err(FormatError)` where Python
    raises `ValueError`, and `Err(DateOverflow)` where adding the lead time
    raises `OverflowError` past 9999-12-31.
  - `EtaExamples` holds worked examples.
- **The shipment table.**
  - `Shipments` defines the fifteen text columns of a row. It also states how
    the INSERT column list and the UPDATE SET list bind the form values. The
    two lists use different orders.
  - `SqlLike` defines SQLite's `LIKE` with `%` and `_` wildcards and ASCII case
    folding.
  - `ShipmentTable` holds the class `Database`.
    - Its mutable fields are the row map `rows` and the AUTOINCREMENT counter
      `lastId`, which is the table's `sqlite_sequence` entry.
    - The ghost set `issued` records every id ever assigned.
    - The INSERT, UPDATE and DELETE handlers are methods. The SELECT queries
      behind the list pages, the edit page, the search and the export are
      functions of the table's contents.

A `Database` object keeps one invariant, `Valid()`:
- every row's id was issued by the counter and is at most `lastId`;
- every row's `eta` equals `calculate_eta(etd, destination)` for that row.

These behaviours of the code may surprise a reader; the model follows the code:
- `update_shipment` with an id that no row has matches zero rows. It changes
  nothing and reports no error.
- `search_shipment` and `export_excel` have no ORDER BY clause. SQLite then
  scans this table in rowid order, so the model returns their rows by
  ascending id. Only the listing pages sort by id, descending.
- The search pattern is bound as `'%term%'` without an ESCAPE clause. A `%` or
  `_` typed in the term therefore acts as a wildcard (`WildcardInTerm`).
- A missing `search_term` field makes `request.form.get` return `None`. The
  f-string then searches for the text "None" (`SearchTerm`).

## Model

| member | source | states |
|---|---|---|
| CivilDate.DaysInMonth | app.py:23-24 | Months have 28 to 31 days, and 29 exactly for February of a leap year |
| CivilDate.NextDay | app.py:23-24 | The next day of a calendar date is a calendar date and strictly later |
| CivilDate.AddDays | app.py:23-24 | Adding days gives a calendar date, strictly later when the count is positive |
| CivilDate.DaysBeforeYearStep | app.py:23-24 | The days before year y + 1 are those before y plus the length of year y |
| CivilDate.DaysBeforeYearGrows | app.py:23-24 | Later years start at larger ordinals, by at least 365 days per year |
| CivilDate.DaysBeforeMonthStep | app.py:23-24 | The days before month m + 1 are those before m plus the length of month m |
| CivilDate.DaysBeforeMonthGrows | app.py:23-24 | A later month of a year starts after all the days of an earlier one |
| CivilDate.MonthsFillYear | app.py:23-24 | The twelve months together fill the year: 365 or 366 days |
| CivilDate.OrdinalWithinYear | app.py:23-24 | A date's ordinal lies within its year's range of ordinals |
| CivilDate.OrdinalMonotone | app.py:23-24 | An earlier date has a smaller ordinal |
| CivilDate.OrdinalInjective | app.py:23-24 | Two calendar dates with the same ordinal are the same date |
| CivilDate.BeforeIffOrdinalLess | app.py:23-24 | Calendar order and ordinal order agree, in both directions |
| CivilDate.NextDayOrdinal | app.py:23-24 | The next day has the next ordinal |
| CivilDate.AddDaysOrdinal | app.py:23-24 | Adding n days raises the ordinal by exactly n, as `date + timedelta(days=n)` does |
| CivilDate.AddDaysUnique | app.py:23-24 | `d + n` days is the one calendar date whose ordinal is `Ordinal(d) + n` |
| CivilDate.AddDaysCompose | app.py:23-24 | Adding m days and then n days is adding m + n days |
| CivilDate.AddDaysWithinMonth | app.py:23-24 | Adding days that stay in the month only advances the day field |
| CivilDate.FromOrdinalOfOrdinal | app.py:23-24 | Converting a date to its ordinal and back gives the date |
| CivilDate.OrdinalOfFromOrdinal | app.py:23-24 | Converting an ordinal to a date and back gives the ordinal |
| CivilDate.AddDaysViaOrdinal | app.py:23-24 | Adding days is the same as converting through ordinals |
| CivilDate.InRangeIffOrdinal | app.py:23-24 | A calendar date is at most 9999-12-31 exactly when its ordinal is at most 3652059 |
| DateText.MonthField | app.py:24 | `%m-` reads a month from 1 to 12 out of the one or two digits before the dash, and gives the text after the dash |
| DateText.DayField | app.py:24 | `%d` reads a day from 1 to 31 out of the whole remaining text: one digit, two digits, or a space and a digit |
| DateText.Parse | app.py:24 | `strptime('%Y-%m-%d')` accepts only dates in years 1 to 9999 |
| DateText.Format | app.py:24 | `strftime('%Y-%m-%d')` always gives ten characters, `DDDD-DD-DD` |
| DateText.ParseFormat | app.py:24 | Parsing the formatted text of a date gives back that date |
| DateText.FormatParse | app.py:24 | Formatting the parse of a canonical string gives back the string |
| DateText.MonthFieldPad | app.py:24 | A zero-padded month and dash read back as that month |
| DateText.DayFieldPad | app.py:24 | A zero-padded day reads back as that day |
| DateText.CanonicalFields | app.py:24 | The date parsed from canonical text is its three digit groups |
| DateText.FormatDigits | app.py:24 | Formatting the date spelled by canonical text gives the text |
| DateText.ParseAcceptsCanonical | app.py:24 | "2024-03-01" and the leap day "2024-02-29" parse |
| DateText.ParseAcceptsUnpadded | app.py:24 | "2024-3-1" and "2024-03- 5" parse, as CPython's directives allow |
| DateText.ParseRejectsBadFormat | app.py:24 | A two-digit year, slashes, a three-digit day, a trailing space and the empty string are rejected |
| DateText.ParseRejectsBadFields | app.py:24 | Month 13 and year 0 are rejected |
| DateText.ParseRejectsBadDay | app.py:24 | 2023-02-29, 2023-02-30 and 2024-04-31 are rejected |
| Eta.LeadTimes | app.py:12-22 | The nine destinations and their lead times in days |
| Eta.LeadTime | app.py:12-23 | A destination's lead time is positive exactly when the destination is in the table, 0 otherwise, and never more than 14 days |
| Eta.CalculateEta | app.py:11-24 | Fails with a format error exactly when strptime rejects `etd` |
| Eta.EtaWellFormed | app.py:24 | Every result is zero-padded `YYYY-MM-DD` text that strptime accepts again |
| Eta.EtaAddsLeadTime | app.py:23-24 | For a parsed `etd`, succeeds exactly when `etd` plus the lead time stays within year 9999, and the result is that date |
| Eta.EtaKnownDestination | app.py:12-24 | For a destination in the table, the result is exactly its lead time in days after `etd` |
| Eta.EtaUnknownDestination | app.py:23-24 | Any other destination adds 0 days, so a canonical `etd` comes back unchanged |
| Eta.EtaNotEarlier | app.py:24 | The result is never before `etd`, and is after it exactly when the lead time is positive |
| EtaExamples.EtaFromDates | app.py:11-24 | Puts together the parsed date, lead time, sum and text of one call |
| EtaExamples.EtaSandakanExample | app.py:18-24 | "2024-03-01" to Sandakan gives "2024-03-15" |
| EtaExamples.EtaKuchingExample | app.py:15-24 | "2024-01-01" to Kuching gives "2024-01-08" |
| EtaExamples.EtaLeapDayExample | app.py:13-24 | "2024-02-28" to Miri gives the leap day "2024-02-29" |
| EtaExamples.EtaUnknownExample | app.py:23-24 | "2024-3-1" to an unknown destination gives "2024-03-01" |
| EtaExamples.EtaFormatErrorExamples | app.py:24 | "2023-02-30" and "2024-13-01" fail with a format error |
| EtaExamples.EtaOverflowExample | app.py:23-24 | "9999-12-31" to Miri overflows |
| SqlLike.Like | app.py:166-171 | SQLite's `LIKE` without ESCAPE; a non-empty pattern of only `%` matches every text |
| SqlLike.PercentMatchesAll | app.py:171 | The pattern `%` matches every text |
| SqlLike.PrefixPattern | app.py:171 | `term%` matches exactly the texts that start with the term, ignoring ASCII case |
| SqlLike.LeadingPercent | app.py:171 | A leading `%` lets the rest of the pattern match at any position |
| SqlLike.ContainsPatternIsSubstring | app.py:164-171 | For a term without wildcards, `LIKE '%term%'` holds exactly when the term occurs in the text, ignoring ASCII case |
| SqlLike.EmptyTermMatchesAll | app.py:171 | The empty term's pattern `%%` matches every text |
| SqlLike.WildcardInTerm | app.py:171 | `_` in the term is a wildcard: "a_c" finds "abc" |
| Shipments.SetField | app.py:138 | Setting one column changes that column and no other |
| Shipments.Assign | app.py:97-99 | Binding a column list leaves every unlisted column unchanged |
| Shipments.Record | app.py:93-99 | The row a form and an arrival date describe; dropping its `eta` column gives the form back, and its `eta` is the given date |
| Shipments.InsertColumns | app.py:97-98 | The INSERT statement's column list, in its order |
| Shipments.InsertValues | app.py:99 | The INSERT parameter tuple: its i-th value is the described row's value in the i-th INSERT column |
| Shipments.UpdateColumns | app.py:138 | The UPDATE statement's SET list, in its order |
| Shipments.UpdateValues | app.py:139 | The UPDATE parameter tuple without the id: its i-th value is the described row's value in the i-th SET column |
| Shipments.FieldsDetermineShipment | app.py:28-45 | Two rows that agree on every column are equal |
| Shipments.ColumnListsCoverSchema | app.py:27-45 | The schema, INSERT, UPDATE and search lists each name all 15 non-id columns |
| Shipments.InsertColumnsDistinct | app.py:97-98 | The INSERT column list names no column twice |
| Shipments.SchemaColumnsDistinct | app.py:28-45 | The CREATE TABLE column order and the search's column list each name no column twice |
| Shipments.UpdateColumnsDistinct | app.py:138 | The UPDATE SET list names no column twice |
| Shipments.InsertStoresRecord | app.py:97-99 | The INSERT binds each form field to the column of the same name and `eta` to `eta`, whatever the row held before |
| Shipments.UpdateRewritesRecord | app.py:138-139 | The UPDATE, despite its different column order, also binds each field to its own column, so the old row is fully replaced |
| Shipments.AssignMatching | app.py:97-99 | Binding every column, each to its value in a row, gives that row |
| Shipments.AssignAll | app.py:97-99 | With distinct columns, each listed column ends with its own value |
| ShipmentTable.RecordEtaConsistent | app.py:93-99 | A row built from a form with `eta = calculate_eta(etd, destination)` is consistent with its own `etd` and `destination` |
| ShipmentTable.ScanUp | app.py:183 | The rowid scan lists exactly the stored rows in its range, by strictly ascending id |
| ShipmentTable.ScanDown | app.py:59 | `ORDER BY id DESC` lists exactly the stored rows in its range, by strictly descending id |
| ShipmentTable.Reverse | app.py:59 | Reading a sequence backwards puts element i at position length - 1 - i |
| ShipmentTable.ReverseAppend | app.py:59 | Reversing a concatenation reverses and swaps the parts |
| ShipmentTable.ScanUpLast | app.py:183 | A scan up to id h is the scan up to h - 1 followed by row h |
| ShipmentTable.ScanDownIsReverse | app.py:59 | The descending listing is the ascending scan read backwards |
| ShipmentTable.ScanFrame | app.py:183 | A scan depends only on the rows in its id range |
| ShipmentTable.InsertAppendsToScan | app.py:29 | A row inserted above every existing id comes last in the scan, after the unchanged earlier rows |
| ShipmentTable.SearchTerm | app.py:158-171 | A present `search_term` is searched as given; a missing one is searched as the text "None" |
| ShipmentTable.Matches | app.py:164-171 | A row matches when some non-id column is LIKE `%term%`; the empty term matches every row |
| ShipmentTable.Filter | app.py:164-173 | The search keeps exactly the rows for which some non-id column is LIKE `%term%` |
| ShipmentTable.FilterAscending | app.py:164-173 | The search keeps the scan's ascending id order |
| ShipmentTable.FilterEmptyTerm | app.py:171 | The empty term keeps every row |
| ShipmentTable.MatchesPlainTerm | app.py:164-171 | For a wildcard-free term, a row matches exactly when the term occurs in one of its 15 non-id columns, ignoring ASCII case |
| ShipmentTable.ExportHeader | app.py:188-192 | The sixteen DataFrame column names, `id` first |
| ShipmentTable.HeaderNamesColumns | app.py:188-192 | The export header is `id` followed by each column's name at its schema position |
| ShipmentTable.RowCells | app.py:183-192 | An exported line has 16 cells and reads back as the row it came from |
| ShipmentTable.RowCellsFollowHeader | app.py:183-192 | Cell 0 holds the id and each column's value sits under that column's header name |
| ShipmentTable.SheetOf | app.py:188-196 | The sheet has the fixed header and one line per row, and reads back as exactly those rows in order |
| ShipmentTable.Database.constructor | app.py:27-50 | The table starts with no rows and no id assigned |
| ShipmentTable.Database.Add | app.py:77-103 | A bad `etd` or a used-up rowid range leaves the table unchanged. Otherwise the id is one more than the counter and larger than every id ever issued, the new row is the form with `eta = calculate_eta(etd, destination)`, and no other row changes |
| ShipmentTable.Database.Update | app.py:119-143 | A bad `etd` leaves the table unchanged. Otherwise the row with the id, if any, becomes the form with the recomputed `eta` and keeps its id; no other row changes, and an absent id changes nothing |
| ShipmentTable.Database.Delete | app.py:147-154 | The id is gone afterwards, other rows are untouched, and deleting an absent id changes nothing, so a second delete is a no-op; the counter keeps its value, so ids are not reused |
| ShipmentTable.Database.Get | app.py:107-112 | `fetchone` gives the row with that id, or nothing exactly when there is none, and the row's `eta` is consistent |
| ShipmentTable.Database.List | app.py:53-73 | The list pages show exactly the stored rows by strictly descending id, which is the export order reversed |
| ShipmentTable.Database.ExportRows | app.py:183-184 | `SELECT *` gives exactly the stored rows by strictly ascending id |
| ShipmentTable.Database.Search | app.py:157-176 | The search gives exactly the stored rows whose non-id columns match `%term%`, by ascending id; the empty term gives every row |
| ShipmentTable.Database.Export | app.py:179-196 | The sheet has the fixed 16-column header and reads back as exactly the stored rows by ascending id |

## Left out

- Flask routing, `render_template`, `redirect`, `url_for` and `send_from_directory` are not modelled. Nor is `edit_shipment` passing `calculate_eta` to its template. They are framework glue.
- Reading `request.form` is not modelled: the form's fields are method parameters. The `KeyError` for a missing field is framework behaviour.
- Opening, committing and closing SQLite connections are not modelled. Each handler is one atomic method on an in-memory table, and concurrent requests are out of scope.
- `CREATE TABLE IF NOT EXISTS` at import is modelled only as the constructor's empty table. A database file that already holds rows is not modelled.
- The pandas DataFrame, `to_excel` and the file it writes are modelled only as the header and one line of cells per row, in order. Spreadsheet encoding is file I/O in a foreign library.
- `app.run` and the `while True: time.sleep(60)` loop are process lifecycle.
- DateText.Parse: CPython's `\d` also matches non-ASCII decimal digits. The model accepts only ASCII digits, because Dafny strings carry no Unicode digit property.
- Eta.CalculateEta: the model pads `%Y` to four digits. CPython on glibc printed years below 1000 without padding until gh-120713, which zero-pads `%Y` from CPython 3.13 and in the later 3.12 maintenance releases. So the returned text differs from the model's for such dates only on older interpreters.
- Shipments.Record: SQLite's NUMERIC affinity for the DATE columns would store a `booking_date` such as "2024" as the integer 2024. The model keeps every column as text. The model and the stored row differ only for a `booking_date` that SQLite reads as a number.
- ShipmentTable.Matches: SQLite rejects a LIKE pattern longer than its pattern-length limit (50000 bytes by default). The model has no bound. SQLite's LIKE also stops at the first NUL character of a value, since it compares C strings, while sqlite3 stores a text value with its NUL whole. So `"ab\x00cd" LIKE '%cd%'` is false in SQLite but true in the model, and `MatchesPlainTerm` does not hold for text containing NUL.
- ShipmentTable.Database.List: the contract states membership and strict order, so each stored row appears exactly once. It does not state the count `|rows|` as a separate clause.
- The `<int:id>` route converter accepts only non-negative integers. The methods accept any integer; a negative id matches no row.
- ShipmentTable.Database.Update, ShipmentTable.Database.Delete, ShipmentTable.Database.Get: the `<int:id>` converter has no upper bound. For an id above `MaxRowId` (2^63 - 1), sqlite3 raises `OverflowError` while binding the id, before the statement runs, and the request fails with a server error. The model treats such an id as an absent one. The table is unchanged in both, but `Update` reports no error for a valid `etd`, `Delete` is a silent no-op and `Get` returns `None`.
