# Client portfolio explorer — a verified model of its core

The explorer loads a spreadsheet of client portfolios, puts its column
headers into canonical form, and lets a signed-in user drill down to one
customer. The path is either state → unit → segment → customer, or
segment → customer. For the chosen customer it shows three things:

- the newest fund size that is present, with its date;
- a trend of all present fund sizes, oldest first;
- three policy flags.

This Dafny project models that core of `app.py`, module by module:

- `Normalize` models `load_data`.
  - Each header is trimmed and lower-cased, then compared with the seven
    fixed field names.
  - A header that starts with "closing balance as on" gets its trailing
    `DD.MM.YYYY` token parsed. It becomes a column named
    `fund_YYYY-MM-DD`, or is skipped with a warning when the date does
    not parse.
  - The table (`class Frame`) is renamed in place. Each fund column is
    then coerced to numbers in place.
  - The date parser follows the source's strict day.month.year format:
    1–2 digit day and month, a 4-digit year, calendar validity, and the
    range a pandas timestamp can hold.
- `Funds` models `display_fund_details`.
  - Fund columns are sorted newest first.
  - A loop picks the first present value.
  - The date is re-formatted as `DD.MM.YYYY`.
  - The trend series is indexed by date, sorted by date, and has its
    missing values dropped. It is drawn only when it has more than one
    point.
- `Policy` models `display_policy_status`: one badge per policy column
  that the table has. A policy reads as held when its cell, stripped and
  upper-cased, is `Y`.
- `Query` models the option lists (`sorted(df[col].unique())`) and the
  row filters (`df[df[col] == v]`) of both browsing screens. It also
  proves how the two paths relate.
- `Navigation` models the session state the two screens keep, as
  classes. Each button callback is a method on them.
- `Strings`, `Dates`, `Seqs` and `Wrappers` are support modules. They
  cover Python's `strip`, `lower`, `upper`, `split(...)[-1]`, `sorted`
  and `<` on strings, and the date formats.

Two headers that normalise to the same name leave two columns of that
name after the rename. For example, two headers can have the same closing
date, or "State" and " state" can both appear. With a duplicated fund key
the fund-column coercion fails. With a duplicated fixed field the load
completes, and the failure comes later, where the column is read as one
(`df['state'].unique()` at app.py:205, `customer_data[key].iloc[0]` at
app.py:141). `Normalize.LoadData` therefore requires the renamed headers
to be distinct.

## Model

| member | source | states |
|---|---|---|
| Strings.TrimIgnoresPadding | app.py:108 | `strip()` ignores any whitespace around a header |
| Strings.TrimStrips | app.py:108 | `strip()` gives a slice of the header with only whitespace cut off before and after it, and the slice neither starts nor ends with whitespace |
| Strings.MatchesPrefixIgnoringCase | app.py:116 | a subject that starts with the prefix matches; without dotless `ı` or long `ſ` it matches exactly when it starts with the prefix |
| Strings.LastField | app.py:118 | `split(sep)[-1]` is the suffix after the last separator and contains no separator |
| Strings.LexTransitive | app.py:149 | Python's `<` on strings is transitive |
| Strings.LexTotal | app.py:149 | any two distinct strings are ordered one way or the other |
| Strings.LexAsymmetric | app.py:149 | `<` on strings is asymmetric and irreflexive |
| Strings.SortedDistinct | app.py:205 | `sorted(unique(...))` is strictly ascending and holds exactly the input's values |
| Strings.ReverseOfAscending | app.py:149 | `reverse=True` gives a strictly descending list of the same values |
| Strings.PadOrder | app.py:119 | zero-padded numbers of equal width compare as strings exactly as the numbers compare |
| Strings.ValueOfPad | app.py:119 | reading back a zero-padded number gives the number |
| Strings.PadOfValue | app.py:119 | re-padding a digit string's value to its width gives the string back |
| Strings.IndexOfJoin | app.py:119 | the first separator of `a + sep + b` (with `a` free of it) is at `|a|` |
| Dates.DaysInMonth | app.py:119 | every month has 28 to 31 days |
| Dates.BeforeIsStrictOrder | app.py:171 | date order is a strict total order |
| Dates.ParseDayMonthYear | app.py:119 | a parsed `%d.%m.%Y` token is a calendar date a pandas timestamp can hold |
| Dates.FormatIso | app.py:119 | `strftime('%Y-%m-%d')` prints four, two and two digits separated by dashes |
| Dates.FormatDayMonthYear | app.py:166 | `strftime('%d.%m.%Y')` prints two, two and four digits separated by dots |
| Dates.ParseIso | app.py:170 | `to_datetime` of a key's date text gives only calendar dates a pandas timestamp can hold |
| Dates.ParsedFields | app.py:119 | a token the parse accepts is its day, month and four-digit year fields joined by dots, and denotes their date |
| Dates.FormatParseDayMonthYear | app.py:119 | a 10-character token that parses is printed back by `strftime('%d.%m.%Y')` unchanged |
| Dates.ParseFormatDayMonthYear | app.py:166 | printing a date as `DD.MM.YYYY` and parsing it gives the date back |
| Dates.ParseFormatIso | app.py:170 | printing a date as `YYYY-MM-DD` and parsing it gives the date back |
| Dates.FormatParseIso | app.py:119 | an ISO text that parses is exactly the ISO printing of its date |
| Dates.IsoOrder | app.py:149 | ISO date texts sort as strings exactly as the dates sort |
| Dates.IsoInjective | app.py:119 | distinct dates have distinct ISO texts |
| Normalize.Coerce | app.py:130 | after `to_numeric(errors='coerce')` no cell is text; text becomes a number exactly when it converts, and then the number it converts to; other cells stay |
| Normalize.FundKey | app.py:120 | a fund key is `fund_` followed by the ten characters of its ISO date |
| Normalize.Classify | app.py:108-125 | only a header that matches the fund prefix is a fund header, dated or not; a header matching it is never left unrecognised; a fund column's key starts with `fund_` |
| Normalize.CoerceIdempotent | app.py:128-130 | coercing twice is coercing once |
| Normalize.KeyDateOfFundKey | app.py:120 | the date in `fund_<date>` reads back as that date |
| Normalize.FundKeyOfKeyDate | app.py:120 | every canonical fund key is `fund_` plus the ISO text of its date |
| Normalize.LastFieldOfFundKey | app.py:159 | `col.split('_')[-1]` of a fund key is its ISO date text |
| Normalize.FundKeyOrder | app.py:149 | fund keys sort as strings exactly as their dates sort, and are equal only for equal dates |
| Normalize.FieldForTable | app.py:109-115 | the if/elif chain over the cleaned header is exactly the fixed name table |
| Normalize.FixedFieldNames | app.py:108-115 | a header whose cleaned form is a fixed field gets that field's name, and only such headers are fields |
| Normalize.ClassifyIgnoresCase | app.py:108-116 | headers equal after `strip().lower()` are classified alike |
| Normalize.ClassifyIgnoresPadding | app.py:108 | whitespace around a header does not change its classification |
| Normalize.SameDateUpToCase | app.py:116-119 | headers equal up to case carry the same parsed date |
| Normalize.FundColumnKey | app.py:120 | every fund column gets a canonical `fund_YYYY-MM-DD` key |
| Normalize.FundHeaderKey | app.py:116-125 | a "closing balance as on" header becomes `fund_` plus its parsed date, or is left unnamed when the date does not parse |
| Normalize.FundKeysMembers | app.py:106-122 | the fund key list holds exactly the keys of the headers classified as fund columns; the warnings hold exactly the unparsable ones |
| Normalize.RenameMap | app.py:105-122 | every key of `new_cols` is one of the headers |
| Normalize.RenameMapMembers | app.py:105-122 | `new_cols` maps exactly the recognised headers, each to its new name |
| Normalize.FundKeys | app.py:106-122 | every entry of `fund_col_keys` starts with `fund_` |
| Normalize.Unparsed | app.py:123-124 | every warning names a header whose fund date does not parse |
| Normalize.FundKeysAppend | app.py:107-125 | the header loop handles each header independently of the others |
| Normalize.UnparsedHeaderIsSkipped | app.py:123-125 | an unparsable fund header adds a warning and nothing else |
| Normalize.ClassifyHeader | app.py:108-125 | one pass of the header loop's `if`/`elif` chain gives the header's new name, and says whether it is a fund key or an unparsable fund header |
| Normalize.ClassifyHeaders | app.py:105-125 | the loop builds the rename dictionary, the fund keys in header order and the warnings |
| Normalize.RenameRow | app.py:126 | renaming keeps every cell under its column's new name |
| Normalize.Frame.constructor | app.py:104 | the table read from the sheet, one cell per row and column |
| Normalize.Frame.Rename | app.py:126 | in-place rename: new column names, and every cell stays in its column |
| Normalize.Frame.CoerceColumn | app.py:130 | in-place coercion of one column; the others are unchanged |
| Normalize.Frame.CoerceAll | app.py:128-130 | the coercion loop coerces exactly the listed columns the table has |
| Normalize.RenamedByDictionary | app.py:105-126 | renaming through the dictionary gives each header's classified name |
| Normalize.CoercedColumns | app.py:126-130 | after loading, fund columns hold coerced cells and all others hold the sheet's cells |
| Normalize.NoFieldNameIsFundKey | app.py:109-115 | no fixed field name starts with `fund_` |
| Normalize.FundPrefixedName | app.py:109-122 | a renamed header starts with `fund_` only if it is a canonical fund column |
| Normalize.LoadData | app.py:102-132 | the loaded table: renamed columns, cells coerced exactly in the fund columns, the parse warnings, and (when no raw header starts with `fund_`) fund columns that are canonical keys with no text cells |
| Normalize.LoadedTable | app.py:126-130 | each loaded cell is the sheet's cell, coerced exactly when its header was classified as a fund column |
| Normalize.LoadedFundCellsReady | app.py:126-130 | after loading, every `fund_` column is a canonical key with no text cell in any row |
| Funds.FundColumns | app.py:149 | the columns starting with `fund_` |
| Funds.FundColumnsNewestFirst | app.py:149 | the fund columns, strictly descending, each exactly once |
| Funds.NewestFirstByDate | app.py:149 | descending fund keys are in strictly descending date order |
| Funds.FirstPresent | app.py:155-160 | the first present cell's position, with every earlier one missing; none when all are missing |
| Funds.MostRecentFund | app.py:151-160 | the loop returns the first present value and its column's date text, or nothing when all cells are missing |
| Funds.ColumnDate | app.py:170 | the date `to_datetime` reads from a fund column's name is its key date |
| Funds.Series | app.py:169-170 | one entry per fund column, holding that column's cell and indexed by the date the column's key names |
| Funds.InsertByDate | app.py:171 | inserting into a date-sorted series keeps it sorted and adds exactly one entry |
| Funds.SortIndex | app.py:171 | `sort_index()` gives a series ascending by date with the same entries |
| Funds.DropMissing | app.py:172 | `dropna()` keeps exactly the present values and keeps date order |
| Funds.SeriesDatesDistinct | app.py:170 | the series has no repeated date |
| Funds.ValidSeries | app.py:169-172 | the trend series is ascending by date and holds exactly the present fund values |
| Funds.PointOfColumn | app.py:169-172 | every present fund cell appears in the trend |
| Funds.ColumnOfPoint | app.py:169-172 | every trend point comes from a fund column of its date holding its value |
| Funds.ValidSeriesMembers | app.py:169-172 | a point is in the trend exactly when some fund column of that date holds that value |
| Funds.NewestNumberIsLast | app.py:155-172 | the first present value in newest-first order is the last point of the ascending series |
| Funds.NoPresentNoPoints | app.py:172 | with every value missing the trend is empty |
| Funds.FirstPresentIsLatest | app.py:155-172 | the loop's value is the trend's last point; the loop finds nothing exactly when the trend is empty |
| Funds.NothingPresentIsEmpty | app.py:155-172 | when every fund cell is missing the trend is empty |
| Funds.PresentIsLast | app.py:155-172 | the value the loop finds is the trend's last point, dated by its column |
| Funds.DisplayFundDetails | app.py:148-174 | the no-data state exactly when no value is present; otherwise the newest value, its date as `DD.MM.YYYY`, and the trend only from two points on |
| Funds.MostRecentIsLatest | app.py:154-160 | the trend's last point is held by a fund column of its date, and every later-dated fund column is missing |
| Funds.LaterColumnsMissing | app.py:155-160 | every fund column dated after the shown value is missing in the row |
| Funds.LaterCellMissing | app.py:155-172 | a cell dated after the trend's last point cannot hold a value |
| Funds.LastIsLatest | app.py:171 | the last point of a date-sorted trend is the latest |
| Funds.DisplayDateRoundTrip | app.py:166 | the date shown for a fund column is the header's own `DD.MM.YYYY` token when it has 10 characters |
| Policy.UpperIsY | app.py:142 | `upper()` gives `Y` exactly for `Y` and `y` |
| Policy.IsYes | app.py:142 | a cell reads as yes exactly when it is text that strips to `Y` or `y` |
| Policy.YesIgnoresPadding | app.py:142 | whitespace around the flag does not change it |
| Policy.OnlyYIsYes | app.py:142-145 | missing cells, numbers and any other text read as not held |
| Policy.DisplayPolicyStatus | app.py:135-145 | three places in policy order: blank when the table lacks the column, otherwise the policy's label as held exactly when the flag reads yes |
| Query.Matching | app.py:211 | the rows holding the chosen value in the column, no more rows than the table |
| Query.MatchingBoth | app.py:220 | the rows holding both chosen values |
| Query.Texts | app.py:205 | the column's values, all of them |
| Query.Options | app.py:205 | the option list is strictly ascending and holds exactly the column's values |
| Query.AscendingDistinct | app.py:205 | an option list offers no value twice |
| Query.OfferedSelectsRows | app.py:205-211 | a value is offered exactly when choosing it selects at least one row |
| Query.MatchingFirst | app.py:228 | the first row a selection keeps is the first row of the table that matches ("first row wins") |
| Query.MatchingBothIsNested | app.py:220-224 | filtering on two columns at once equals filtering twice, order included |
| Query.MatchingSwap | app.py:224-228 | two selections commute |
| Query.MatchingAll | app.py:258 | a selection every row satisfies changes nothing |
| Query.States | app.py:205 | the state buttons: ascending, exactly the table's states |
| Query.Units | app.py:211-212 | the unit buttons: ascending, exactly the units of rows in the chosen state |
| Query.UnitRows | app.py:220 | exactly the rows in the chosen state and unit |
| Query.Segments | app.py:221 | the segment choices: ascending, exactly the segments of the chosen state and unit |
| Query.LocationSegmentRows | app.py:224 | exactly the rows of the chosen state, unit and segment |
| Query.LocationCustomers | app.py:225 | the customer choices: ascending, exactly the customers of the chosen state, unit and segment |
| Query.LocationCustomerRows | app.py:228 | exactly the rows of the chosen state, unit, segment and customer |
| Query.AllSegments | app.py:243 | the segment buttons: ascending, exactly the table's segments |
| Query.SegmentRows | app.py:250 | exactly the rows of the chosen segment, no more rows than the table |
| Query.SegmentTable | app.py:250-253 | one line per row of the chosen segment |
| Query.SegmentCustomers | app.py:255 | the customer choices: ascending, exactly the customers of the chosen segment |
| Query.SegmentCustomerRows | app.py:258 | exactly the rows of the chosen segment and customer |
| Query.TableNamesOffered | app.py:251-256 | the customer choices are exactly the names listed in the segment's table |
| Query.NextChoicesNonEmpty | app.py:211-212 | an offered value always leads to a non-empty next list |
| Query.StateLeadsToUnits | app.py:205-212 | every state button leads to at least one unit |
| Query.UnitLeadsToSegments | app.py:212-221 | every unit button leads to at least one segment |
| Query.SegmentLeadsToCustomers | app.py:221-255 | every segment choice, on either path, leads to at least one customer |
| Query.ChosenCustomerHasRows | app.py:225-258 | an offered customer has rows on either path, so the first row the detail views read exists |
| Query.PathsAgree | app.py:220-258 | a customer's rows reached by location are the rows reached by segment, narrowed to the state and unit |
| Query.SamePortfolio | app.py:220-258 | when all of a customer's rows in a segment lie in one state and unit, both paths show the same rows |
| Navigation.LocationNav.constructor | app.py:196-197 | a session starts with no state and no unit chosen |
| Navigation.LocationNav.Screen | app.py:203-220 | no state shows the states; a state without a unit shows its units; both show the unit's details |
| Navigation.LocationNav.SelectState | app.py:198 | the state is chosen and the unit is untouched; from the start screen the state's units follow |
| Navigation.LocationNav.SelectUnit | app.py:199 | the unit is chosen and the state is untouched; from the unit screen the unit's details follow |
| Navigation.LocationNav.BackToStates | app.py:200 | both choices are forgotten and the state buttons follow |
| Navigation.LocationNav.BackToUnits | app.py:201 | the unit is forgotten and the state's unit buttons follow |
| Navigation.SegmentNav.constructor | app.py:237 | a session starts with no segment chosen |
| Navigation.SegmentNav.Screen | app.py:241-249 | no segment shows the segment buttons; a segment shows its customers |
| Navigation.SegmentNav.SelectSegment | app.py:238 | the segment is chosen and its customers follow |
| Navigation.SegmentNav.BackToSegments | app.py:239 | the segment is forgotten and the segment buttons follow |

## Left out

- Sign-in, the login form, logging out, the sidebar and the "Return to Main Menu" reset are not part of this model. These are session and UI handling, not the data core.
- Page layout is not modelled. This covers the 4-column button grid, subheaders and the metric text with its `,.2f` number format. The Altair chart and the Streamlit selectboxes are also left out. The model returns what each screen would show.
- File access is outside the model: the data file's existence, `read_excel` and the cache. `LoadData` takes the sheet's headers and rows as parameters. The empty table returned when no file exists is not modelled.
- The loader's printed warnings are returned as a list of header texts. The message text is not modelled.
- `pd.to_numeric` is not modelled: the text-to-number conversion is a parameter (`toNumber`). Floating-point values are modelled as reals, and NaN as a missing cell.
- Case mapping covers ASCII letters only. The one non-ASCII character whose `lower()` contains a letter the source compares against is U+0130, which lower-cases to `i` followed by the combining dot U+0307. The comparisons still come out alike, because that combining dot stays in the header and keeps it from equalling a field name or matching the fund prefix. Matching the header prefix while ignoring case also accepts the dotless `ı` and the long `ſ`, as Python's regular expressions do.
- Digits in dates are ASCII only. Python's `\d` also accepts other Unicode decimal digits.
- Normalize.LoadData: requires the renamed headers to be distinct. With a duplicated fund key the source's coercion (`pd.to_numeric` on a two-column frame) raises `TypeError`. With a duplicated fixed field such as `state` the load completes, and the source fails later, where it reads that column as one (app.py:141, app.py:205).
- Normalize.LoadData: proves that fund columns are canonical only when no raw header already starts with `fund_`. Funds.DisplayFundDetails requires this. For other inputs the source may fail while re-parsing the date.
- Funds.SortIndex: the in-place `sort_index` is modelled on values.
- Policy.DisplayPolicyStatus: a non-text cell never reads as `Y`, because a number prints with digits. Other printed forms of other cell types are not modelled.
- Query.Options: requires every value in the column to be text. Python's `sorted` raises on a mix of text and NaN, or text and numbers. The requirement also excludes columns that `sorted` orders without error: all-numeric columns, such as numeric unit codes, and columns whose only value is a single non-text value.
- Query.Matching: treats a column the table lacks as matching nothing, where the source raises `KeyError`.
- Query.SegmentTable: states the table's length and the segment of each row. The link between the listed names and the customer choices is stated by `Query.TableNamesOffered`. The column renaming for display is left out.
- Selecting `--Select--` is not modelled. The chosen segment or customer is a parameter. A segment or customer literally named `--Select--` could not be chosen in the source.
- Navigation.LocationNav.SelectState: states the next screen only from the start screen with no unit chosen, the only place its buttons appear.
