# tdscraper core in Dafny

This project models the data-shaping core of `tdscraper.py`. That script scrapes a
security's pages on the TD Ameritrade research site (Summary, Earnings, Fundamentals,
Valuation, Analyst Reports) and folds them into one labelled column per ticker. The
browser work (Selenium, BeautifulSoup, waits, clicks, iframes) is replaced by its
results. Each section scraper is modelled from the texts and attribute values it
extracts from the page to the table it returns.

The modules follow the script's structure:

- `Values`: scraped values and pandas-like tables.
  - A value is NaN (`Missing`), a number, an unparsed date text, a text or the list
    stored for `52-Wk Range`.
  - A labelled column is a sequence of label/value entries. A label reads its first entry.
  - Dictionary assignment is `Put`.
  - `dict(zip(...))` is `DictZip`: a repeated key keeps its first position and its last value.
  - `drop(index=[k])` is `DropName`.
- `Strings` and `Numbers`: the Python string operations and the `float()`/`int()`
  readers the script relies on (`split`, `strip`, `replace`, `split()` on whitespace,
  `upper`). Only the decimal grammar of `float()` is modelled.
- `Cleaner`: `clean`, the token cleaner every section uses.
- `Series`: pandas column arithmetic.
  - `pct_change` pads gaps forward first.
  - `mean` skips NaN; `np.mean` does not.
  - Also `fillna` and the midpoint of two columns.
- `Summary`: `scrape_summary` after extraction.
  - The rename table.
  - The compound fields `B/A Size`, `Day's Change`/`Day's Range` and `Annual Dividend/Yield`.
  - The drop list, the column cleaning and the `dividend_given` gate on the dividend dates.
- `Earnings`: `scrape_earnings`.
  - The `Growth Analysts` word scan and the two tooltip shapes.
  - The yearly frame with its growth columns and estimate reconciliation.
  - The 1/2/5-year windows.
- `Reports`: the yearly side of `scrape_fundamentals`.
  - The `scrape_report` grid fill and the merge with the price periods.
  - Cleaning, and free cash flow with its growth.
- `Fundamentals`: the rest of `scrape_fundamentals`.
  - The overview list with its `-99999.99` sentinel and the five-year chart.
  - The Historic Growth and Share Detail boxes and the short-interest rows.
  - The historic-growth rescaling.
- `Valuation`: `scrape_valuation`.
  - Six sub-tabs, skipped when empty, stacked.
  - Cleaned except `Type`, plus `Ratio to Industry`.
- `Analysts`: `scrape_analysts`, with its provider-specific rules and the marketEdge
  digit scan.
- `Ticker`: `scrape_ticker`. It has five retry loops and then the combined column.

Loops in the script are methods with loop invariants, each proved equal to a
specification function. These are:

- the marketEdge scan, the analysts loop and the retry loops;
- the sentinel loop over the overview values, the box loops and the `scrape_report` grid loops;
- the tooltip, period and valuation loops, the summary column-cleaning loop and the `since` loop.

What the script promises is then proved about those functions.

Where the code's behaviour is surprising, the model follows the code:

- **`clean("--x")`:** raises AttributeError and does not yield NaN. The ratio residual `--`
  becomes a float NaN, and the next `.endswith` call on it fails (lines 84-91).
- **Negative integers:** a token such as `-5` is treated as a date. The date test runs on
  the raw token, and `re.split` of `-5` is `["", "5"]` (lines 73, 97-101). It is neither
  negated nor parsed as a number.
- **`Actual/Estimate`:** takes the point estimate wherever one exists, and the actual value
  only otherwise (lines 499-500).
- **Growth across a gap:** `pct_change` pads forward before dividing, so growth across a
  missing year is 0 rather than NaN (lines 488-501).
- **Retry loops:** `tries >= 5` is tested after every attempt, so a success on the fifth
  attempt is still replaced by the placeholder. In `raise` mode the bare `raise` runs
  outside any `except` block, so it raises RuntimeError (lines 1018-1107).
- **Summary placeholder:** the placeholder summary has no `Shares Outstanding` row, so
  combining after a failed summary raises KeyError even in `ignore` mode (line 1110).
- **Valuation sub-tab name:** the growth sub-tab is tagged `Gowth rates` (line 825).
- **Analyst rows:** `ReadRow` and `ScrapeAnalysts` compute the rows as written, including
  the misalignment after a marketEdge row that lacks its opinion class; `RowStep` and
  `AnalystsTab` are the corrected definitions, and the two agree on every other input
  (see Findings).

## Model

| member | source | states |
|---|---|---|
| Values.Lookup | tdscraper.py:225-226 | A label is absent iff no entry carries it; otherwise the result is the value of an entry with that label |
| Values.LookupFirst | tdscraper.py:225-226 | A label that reads a value reads its first entry: the entry at i carries the label and value, and no entry before i carries the label |
| Values.LookupAt | tdscraper.py:225-226 | The entry at i is what its label reads when no earlier entry carries that label |
| Values.LookupUnique | tdscraper.py:225-226 | With distinct labels every entry is what its label reads |
| Values.Get | tdscraper.py:227 | `.loc[k]` raises KeyError exactly when the label is absent and otherwise reads the label's value |
| Values.PutSpec | tdscraper.py:1119-1120 | After assigning `k` the label reads the new value, every other label reads what it read before, and an existing label keeps its place |
| Values.PutShape | tdscraper.py:1119-1120 | Assigning an existing label keeps the length; a new label is appended at the end |
| Values.DictZipLookup | tdscraper.py:225 | `dict(zip(keys, vals))` gives each key the value paired with its last occurrence within the shorter list, and no value to keys beyond it |
| Values.DictZipLast | tdscraper.py:996 | With as many values as keys, a key of `dict(zip(keys, vals))` reads the value at its last occurrence, after which the key does not recur |
| Values.ZippedLast | tdscraper.py:225 | The value paired at position i is the one a key reads when no later pair repeats the key |
| Values.DropNameLookup | tdscraper.py:1110 | Dropping a label removes every row carrying it and leaves every other label reading as before |
| Values.LookupConcat | tdscraper.py:1110-1116 | In a concatenation a label reads from the first part that has it |
| Strings.StripChars | tdscraper.py:78 | `str.strip(chars)` returns a substring that neither starts nor ends with a stripped character |
| Strings.StripCharsSpec | tdscraper.py:78 | `str.strip(chars)` is the slice s[lo..hi] whose prefix before lo and suffix from hi consist of stripped characters only |
| Strings.SplitJoin | tdscraper.py:221 | Splitting `x + c + y` on `c` gives the pieces of `x` followed by the pieces of `y` |
| Strings.SplitOneSeparator | tdscraper.py:258-269 | A text with one separator splits into the part before it and the part after it |
| Strings.WithoutConcat | tdscraper.py:75 | `replace(c, '')` distributes over concatenation |
| Numbers.PyFloat | tdscraper.py:108 | `float()` either fails with ValueError or yields a number |
| Numbers.PyFloatDecimal | tdscraper.py:108 | `float()` reads a decimal numeral, and the numeral preceded by `-`, as its value and its negation |
| Numbers.PyIntDigits | tdscraper.py:984 | `int()` reads a string of digits as its value, which equals its decimal value |
| Cleaner.Clean | tdscraper.py:64-114 | Non-text values come back unchanged. A text fails exactly when it is a ratio placeholder, and then with AttributeError. Any other text becomes a number, NaN or a date, and a date only when the raw token passes the date test |
| Cleaner.CleanText | tdscraper.py:72-112 | The same facts for a string token: fails iff ratio placeholder, else number, NaN or date-like date |
| Cleaner.Suffixes | tdscraper.py:81-90 | The `%`/`x` step fails exactly when a non-percent token ends in `x` and its residual is `--` |
| Cleaner.AfterSuffix | tdscraper.py:91-112 | After the suffix step the token is a date iff it has no currency sign and the raw token passed the date test; it never fails |
| Cleaner.Scaled | tdscraper.py:103-112 | `--` and tokens `float()` refuses become NaN; a number is the float read multiplied by the suffix's multiple |
| Cleaner.CleanPlain | tdscraper.py:72-114 | `1,234.5` cleans to 1234.5 (thousands separators dropped, never a date) |
| Cleaner.CleanPercent | tdscraper.py:81-83 | A numeral with `%` cleans to its value divided by 100 |
| Cleaner.CleanRatio | tdscraper.py:84-89 | A numeral with the ratio suffix `x` cleans to its value |
| Cleaner.CleanThousands | tdscraper.py:91-93 | A numeral with `k` or `K` cleans to 1000 times its value |
| Cleaner.CleanParens | tdscraper.py:77-79 | `(X)` cleans to minus the value of X |
| Cleaner.CleanNegative | tdscraper.py:73-79 | `-X` with a non-integer X cleans to minus the value of X |
| Cleaner.CleanDollar | tdscraper.py:95-96 | `$X` cleans to the value of X and is never taken for a date |
| Cleaner.CleanNegativeDollar | tdscraper.py:95-96 | `-$X` cleans to minus the value of X |
| Cleaner.CleanNegativeInteger | tdscraper.py:73-101 | `-` followed by digits passes the date test and goes to the date parser unchanged |
| Cleaner.CleanDashes | tdscraper.py:103-104 | `--` cleans to NaN |
| Cleaner.CleanRatioPlaceholder | tdscraper.py:84-91 | `--x` makes `clean` raise AttributeError |
| Cleaner.CleanAll | tdscraper.py:529 | `map(clean)` over a column succeeds iff every cell cleans. It then keeps every label in place and holds each cell's cleaned value; otherwise it fails with AttributeError |
| Cleaner.CleanAllKeepsNumbers | tdscraper.py:529 | Cleaning leaves numbers and NaN where they were |
| Series.Ffill | tdscraper.py:488 | Forward filling keeps the length |
| Series.FilledLastPresent | tdscraper.py:488 | A filled cell is NaN iff every cell up to it is NaN; otherwise it is the last present cell at or before it |
| Series.FfillIdempotent | tdscraper.py:488 | Forward filling twice equals filling once |
| Series.Growth | tdscraper.py:488 | A growth is a number iff both cells are numbers and the previous one is non-zero, and then (growth+1)·previous = current |
| Series.PctChangeFirst | tdscraper.py:488 | The first growth is NaN |
| Series.PctChangePresent | tdscraper.py:488 | Between two present years growth is current/previous − 1 |
| Series.PctChangeGap | tdscraper.py:488 | A missing year after a present one has growth 0, because the gap is padded |
| Series.PctChangeNumeric | tdscraper.py:488 | `pct_change` yields only numbers and NaN, whatever the column holds |
| Series.MeanSkipNa | tdscraper.py:513-526 | pandas `mean` is NaN iff no cell is present, and otherwise mean·count = sum of the present cells |
| Series.NpMean | tdscraper.py:611 | `np.mean` is a number iff the list is non-empty and has no NaN |
| Series.MeansAgree | tdscraper.py:611 | On a non-empty list with no NaN both means agree |
| Series.NpMeanMissing | tdscraper.py:611 | One NaN makes `np.mean` NaN |
| Series.MeanSkipsMissing | tdscraper.py:522 | A trailing NaN does not change pandas' mean |
| Series.MeanBounded | tdscraper.py:513-526 | The mean of values within [lo, hi] lies within [lo, hi] |
| Series.Midpoint | tdscraper.py:494-515 | The midpoint of two numbers lies between them; it is NaN if either is NaN |
| Series.MidpointsNumeric | tdscraper.py:508 | The midpoint of two columns holds only numbers and NaN |
| Series.MapAll | tdscraper.py:489-491 | A mapped column succeeds iff the map succeeds on every cell and then holds each result |
| Summary.AltInfo | tdscraper.py:222 | The extra segments are all but the first `|`-separated segment |
| Summary.RawRowsRead | tdscraper.py:221-226 | A label reads the segments and value of the last `dt` carrying it among those paired with a `dd` |
| Summary.SetVolume | tdscraper.py:227 | The Volume fix raises KeyError without a Volume row and IndexError when that row has no extra segment |
| Summary.SetVolumeRead | tdscraper.py:227 | Otherwise Volume holds its first extra segment, stripped, and the labels are unchanged |
| Summary.RenameVolume | tdscraper.py:228-232 | After renaming, `Volume` reads what `10-day average volume:` read and `Volume Past Day` reads the old `Volume` |
| Summary.RenamedLookup | tdscraper.py:228-232 | A renamed label reads exactly what its old label read |
| Summary.RenameOthers | tdscraper.py:228-232 | Labels outside the rename table read as before |
| Summary.SetYearRange | tdscraper.py:233 | The 52-week fix raises iff the row is absent and keeps the labels |
| Summary.CellsLookup | tdscraper.py:350 | After dropping column 0 each label reads its value cell |
| Summary.PriceFeature | tdscraper.py:234-237 | The price column is `Price` exactly when `Closing Price` is absent and `Price` present, and `Closing Price` otherwise |
| Summary.PyDiv | tdscraper.py:268-269 | Python float division fails exactly on a zero divisor; otherwise quotient·divisor = dividend |
| Summary.PerHundred | tdscraper.py:360-361 | `x/100` succeeds on numbers and NaN and raises TypeError on anything else |
| Summary.BidAsk | tdscraper.py:240-272 | The bid/ask rows are `Bid Size`, `Ask Size`, `B/A Ratio`. A missing `B/A Size` raises KeyError, and `--` gives three NaN |
| Summary.BidAskRead | tdscraper.py:257-272 | `a x b` gives bid a, ask b and ratio a/b |
| Summary.BidAskZeroAsk | tdscraper.py:267-269 | A zero ask size raises ZeroDivisionError |
| Summary.DayFields | tdscraper.py:273-316 | The four day rows are named in order. A missing `Day's Range` raises KeyError, and `--` gives four NaN |
| Summary.DayRangeRead | tdscraper.py:307-316 | `l-h` gives `Day Low` l and `Day High` h |
| Summary.DayChangeRead | tdscraper.py:296-306 | `a|…|p%)` gives `Day Change $` a and `Day Change %` p/100 |
| Summary.Dividend | tdscraper.py:317-336 | The dividend rows are named in order, and the flag is set iff the field is not `No dividend`. A missing field raises KeyError, and `No dividend` gives two NaN with the flag cleared |
| Summary.DividendRead | tdscraper.py:317-326 | `$a/b%` gives amount a and yield b/100 with the flag set |
| Summary.DropNamesLookup | tdscraper.py:338-350 | Dropping the list removes exactly the listed labels and leaves the others reading as before |
| Summary.HighLow | tdscraper.py:354-358 | When reading `% Below High` fails, the result is the cleaning of `% Above Low` |
| Summary.AboveLow | tdscraper.py:358 | Without `% Above Low` the fallback raises KeyError |
| Summary.Percent | tdscraper.py:360-361 | A percentage column that is absent raises KeyError; otherwise the labels are kept |
| Summary.CleanedCell | tdscraper.py:379-383 | Inside `try: … except: pass` a cell is left alone when `clean` raises on it, and otherwise holds what `clean` returns |
| Summary.CleanedCellTwice | tdscraper.py:379-383 | Cleaning a cell twice equals cleaning it once |
| Summary.TryCleanLookup | tdscraper.py:379-383 | Cleaning one column changes only that label |
| Summary.CleanColumns | tdscraper.py:379-383 | The column loop computes the columns cleaned in order (see CleanedColumnsLookup) |
| Summary.CleanedColumnsLookup | tdscraper.py:363-383 | After the loop a listed label reads its cleaned value and any other label reads as before |
| Summary.ToDatetime | tdscraper.py:388-391 | `to_datetime` turns a text into a date and keeps NaN |
| Summary.DividendDates | tdscraper.py:386 | Without a dividend the dates are left untouched |
| Summary.DividendDatesRead | tdscraper.py:386-391 | With a dividend, `Ex-dividend` holds the date read from `Ex-dividend Date` or from itself, and `Dividend Pay Date` holds a date or NaN |
| Summary.CompoundNames | tdscraper.py:240-336 | The compound step appends exactly the nine derived rows, in order |
| Summary.SummaryFields | tdscraper.py:221-398 | A successful summary has every derived row and none of the dropped rows |
| Earnings.LastNumberWins | tdscraper.py:452-458 | `Growth Analysts` is absent iff no word parses as a float, and otherwise it is the last word that does |
| Earnings.GrowthAnalysts | tdscraper.py:452-458 | The word loop computes that last number |
| Earnings.NamedSegment | tdscraper.py:471-484 | `name: value` splits into its name and stripped value, and raises IndexError without a colon |
| Earnings.Tooltip | tdscraper.py:462-484 | A tooltip with fewer than three segments raises IndexError; a parsed tooltip has at least four |
| Earnings.TooltipShape | tdscraper.py:462-484 | A tooltip parses iff it has at least 4 segments and its amount and range segments read. More than four segments carry the surprise label, and otherwise the result is `Neutral` |
| Earnings.TipCells | tdscraper.py:466-484 | A year's row holds `Earnings Result`, the estimate under its caption and the range under its name |
| Earnings.TooltipsZip | tdscraper.py:462-484 | The tooltip loop succeeds iff every tooltip parses, and then it builds `dict(zip(years, tooltips))` |
| Earnings.ParseTooltips | tdscraper.py:462-484 | The loop computes that dictionary |
| Earnings.TooltipsLastWins | tdscraper.py:465-466 | A year reads its last tooltip |
| Earnings.RangeBound | tdscraper.py:489-491 | A range bound is NaN for NaN and otherwise reads the k-th word with `$` removed |
| Earnings.ConsensusFill | tdscraper.py:503-506 | `Consensus estimate` is used iff some year has it, and then each cell is read with `$` removed |
| Earnings.Consensus | tdscraper.py:494-505 | The consensus is the point estimate where one exists. Otherwise it is the range midpoint, and when that is NaN the filled consensus text |
| Earnings.Derive | tdscraper.py:486-508 | No `Actual` column raises KeyError. The low/high columns read the range. `Actual/Estimate` is the estimate where one exists and the actual value otherwise. Consensus follows the rule above. `Growth`, `Low Growth Est`, `High Growth Est` and `A/E Growth` are the `pct_change` of `Actual`, the low and high estimates and `Actual/Estimate`, and `Consensus Growth Est` is the midpoint of the high and low growth |
| Earnings.Assemble | tdscraper.py:494-508 | The derived columns built from the parsed ones follow the reconciliation rules, and the growth columns are the `pct_change` of their base columns with the consensus growth their midpoint |
| Earnings.ConsensusGrowthBetween | tdscraper.py:508 | A present consensus growth lies between the low and high growth of that year |
| Earnings.YearlyRow | tdscraper.py:486-508 | A yearly row drops the range and consensus-text columns, adds the derived ones and keeps every other cell |
| Earnings.YearlyColumns | tdscraper.py:486-508 | Each derived column of the yearly frame holds the derived values, year by year |
| Earnings.YearlyKeeps | tdscraper.py:486-508 | A column the yearly frame neither adds nor drops is the tooltips' column |
| Earnings.YearlyGrowth | tdscraper.py:488-508 | Read off the yearly frame itself, each growth column is the `pct_change` of its base column and `Consensus Growth Est` the midpoint of the high and low growth |
| Earnings.Windows | tdscraper.py:510-526 | The windows exist iff there are at least two years (`iloc[-2]`), under the eleven window names. The 1-year figures read the second-to-last year; the 2-year low and high the NaN-skipping mean of the last two years and the 2-year consensus their midpoint; the 5-year figures, `Growth 5yr Actual/Est` and `Growth 3yr Historic` the NaN-skipping mean of the whole column |
| Earnings.TwoYearLowBetween | tdscraper.py:513 | In any table holding those window values, the 2-year low figure lies within the bounds of the last two years' low growths |
| Earnings.TwoYearConsensusBetween | tdscraper.py:515 | In any table holding those window values, a present 2-year consensus lies between the 2-year low and high |
| Earnings.FiguresWindows | tdscraper.py:444-528 | Putting the announcement and the analyst count in front of the windows leaves every window figure reading its value |
| Earnings.CleanedWindows | tdscraper.py:529 | Cleaning the figures leaves every window value as it is, since each is a number or NaN |
| Earnings.EarningsTab | tdscraper.py:444-530 | A scraped tab has at least two years. Its labels are the next announcement, `Growth Analysts` when a word parsed, then the windows. The yearly frame's growth columns are the `pct_change` of their base columns, and each cleaned figure reads its window of the frame's growth columns |
| Earnings.FirstYearGrowthMissing | tdscraper.py:488-508 | Every growth column of a scraped yearly frame is NaN in the first year |
| Earnings.ScrapeEarnings | tdscraper.py:444-530 | The scrape computes EarningsTab |
| Reports.HeadDates | tdscraper.py:696-698 | The dates are the second `|` segments of the headers, and a header without one raises IndexError |
| Reports.FillLineFails | tdscraper.py:712-714 | A row fills iff it has no more cells than there are years; otherwise it raises IndexError |
| Reports.FillLinesFails | tdscraper.py:708-714 | The grid fills iff no row has more cells than years |
| Reports.GridCell | tdscraper.py:700-714 | With distinct years, cell p of a row not repeated later is stored under year p and the row's name |
| Reports.GridDate | tdscraper.py:701-703 | Each year's `Date` is the second segment of its header |
| Reports.GridFails | tdscraper.py:696-714 | Given readable headers, `scrape_report` succeeds iff no row is longer than the header, and fails with IndexError otherwise |
| Reports.FillGrid | tdscraper.py:696-718 | The grid loops compute that sheet |
| Reports.MergeKeepsFirst | tdscraper.py:737-740 | Concatenating report frames keeps every cell already present for a year |
| Reports.MergeCovers | tdscraper.py:737-740 | Every cell of an added report appears under its year |
| Reports.CleanCells | tdscraper.py:748-750 | A yearly row cleans iff every cell does; it then keeps its keys, holds the cleaned values and no text is left |
| Reports.CleanFrame | tdscraper.py:748-750 | The yearly frame cleans iff every row does, and it keeps row names and order |
| Reports.Add | tdscraper.py:760 | Adding two cells is NaN when either is NaN, the sum of two numbers, and raises TypeError in every other case (pandas' masked arithmetic on object columns) |
| Reports.FreeCashFlow | tdscraper.py:759-761 | A missing operations or expenditures line raises KeyError; otherwise free cash flow is the per-year sum |
| Reports.Cash | tdscraper.py:756-764 | Every year gets `Free Cash Flow` and `FCF Growth`. On failure both are NaN and `FCF Growth 5yr` is NaN. Otherwise they hold the sum and its `pct_change`, and `FCF Growth 5yr` is its skip-NaN mean |
| Fundamentals.Unsentinels | tdscraper.py:584-586 | No value equals the sentinel `-99999.99` any more; each value is either unchanged or was the sentinel and is now NaN |
| Fundamentals.ClearSentinels | tdscraper.py:584-586 | The in-place loop over the values array leaves exactly that list |
| Fundamentals.AttrFloats | tdscraper.py:583 | The overview values read iff every `dd` has a `data-rawvalue` that `float()` accepts, and then they hold what it reads |
| Fundamentals.OverviewLookup | tdscraper.py:582-587 | An overview label reads the cleared value paired with its last occurrence, and never the sentinel |
| Fundamentals.MarkerPrice | tdscraper.py:591-593 | The 5-year low or high is the second space-separated word of its marker, and raises IndexError when the marker or the word is missing |
| Fundamentals.PeriodsZip | tdscraper.py:600-610 | The period loop succeeds iff every period parses. Each year then holds the high, low and change of its last period, and the growth list holds every change in order |
| Fundamentals.ParsePeriods | tdscraper.py:600-610 | The period loop computes that result |
| Fundamentals.AvgReturn | tdscraper.py:611 | The 5-year average return is a number iff there are periods and none is NaN, and then it is the mean of the changes divided by 100 |
| Fundamentals.BoxWords | tdscraper.py:624-648 | A box's words are its `dt` labels after the first, with ` Growth 5yr` added in the Historic Growth box |
| Fundamentals.DetailNumber | tdscraper.py:627-659 | A `dd` reads its number with the sentinel made NaN. Without a number it is its text, and without text NaN. It is never the sentinel |
| Fundamentals.HistoricDataIff | tdscraper.py:642-644 | Historic growth counts as available iff every Historic Growth box has at least one label after the first |
| Fundamentals.BoxesAligned | tdscraper.py:661-665 | When earlier boxes have as many words as numbers, each label of a box is paired with that box's own number |
| Fundamentals.CollectBoxes | tdscraper.py:620-662 | The box loops compute the labels, the values and the historic flag |
| Fundamentals.Renamed | tdscraper.py:724-728 | Short-interest labels are renamed one by one and values kept |
| Fundamentals.ShortInterest | tdscraper.py:730-734 | When `Short Int Pct of Float` cannot be scaled nothing changes. Otherwise it is divided by 100, and so is `% Held by Institutions` when it can be; when it cannot, it reads as before. Every other label reads as before |
| Fundamentals.PastFrame | tdscraper.py:737 | The price periods become yearly rows holding high, low and change |
| Fundamentals.Div100 | tdscraper.py:767-769 | Dividing by 100 works on numbers and NaN and raises TypeError otherwise |
| Fundamentals.Rescale | tdscraper.py:767-769 | A growth row is rescaled iff present and divisible; it then holds the value divided by 100 and no other label changes |
| Fundamentals.RescaleGrowths | tdscraper.py:766-769 | The three growth rows are divided by 100 and nothing else changes |
| Fundamentals.BlankGrowths | tdscraper.py:770-773 | Without historic data the three growth rows are NaN and nothing else changes |
| Fundamentals.Finish | tdscraper.py:752-775 | The yearly frame gains the cash-flow columns and `FCF Growth 5yr` is their mean. With historic data the tab succeeds iff the three growths can be divided by 100, and they then read their values divided by 100; without it they are NaN. Every other label reads as before |
| Fundamentals.ScrapeFundamentals | tdscraper.py:581-779 | The scrape computes the tab from the page's extracted parts |
| Valuation.Labels | tdscraper.py:867 | The row names used are `row_names[1:]` |
| Valuation.TabRowsZip | tdscraper.py:867-875 | A tab's rows fill iff there are enough comparison cells and each has two captions and two values, else IndexError. The rows are then `dict(zip(names, rows))` |
| Valuation.FillTab | tdscraper.py:866-878 | The row loop computes those rows |
| Valuation.TabRowsTyped | tdscraper.py:875 | Every row of a tab is tagged with the tab's name |
| Valuation.StackedFails | tdscraper.py:840-879 | A tab whose rows fail aborts the stack with its error |
| Valuation.StackedTyped | tdscraper.py:822-879 | Every stacked row is tagged with one of the tab names shown so far |
| Valuation.NothingShown | tdscraper.py:853-887 | When every tab is empty the stack is empty, and the ratio then raises KeyError |
| Valuation.StackTabs | tdscraper.py:840-879 | The tab loop computes the stack |
| Valuation.CleanRow | tdscraper.py:882-884 | Every column but `Type` is cleaned and `Type` is kept |
| Valuation.CleanRows | tdscraper.py:882-884 | The frame cleans iff every row does, keeping names and order |
| Valuation.Ratio | tdscraper.py:887 | The ratio is NaN when either side is NaN and raises TypeError on any other non-number. It is a number iff both are numbers and the industry value is non-zero, and then ratio·industry = ticker |
| Valuation.WithRatio | tdscraper.py:887 | A missing ticker column raises KeyError, and so does a missing `Industry` column. Otherwise every row gains its ratio |
| Valuation.ScrapeValuation | tdscraper.py:839-889 | The scrape computes the tab |
| Analysts.ClassAt | tdscraper.py:941-965 | `divs[d].get('class')[c]` succeeds iff the div exists, has classes and has a c-th one |
| Analysts.FloatOfChar | tdscraper.py:965-967 | `float` of one stripped character succeeds with a number exactly for a digit, and reads its value |
| Analysts.IntOfChar | tdscraper.py:975-977 | `int` of one stripped character succeeds exactly for a digit |
| Analysts.ScanFrom | tdscraper.py:962-972 | The scan from the end finds the last digit of the class name, or none when there is none |
| Analysts.ScanEdge | tdscraper.py:961-972 | The while loop computes that scan |
| Analysts.EdgeRating | tdscraper.py:956-989 | marketEdge's rating is NaN with no date when the class is missing or has no digit, and lies in -9..9 with the row's date otherwise. When the class's last digit ends it, the rating is that digit (see EdgeRatingInner for a digit further in) |
| Analysts.EdgeRatingInner | tdscraper.py:961-970 | When the class's last digit stands before its final character, the rating is that digit negated, with the row's date |
| Analysts.ReadEdge | tdscraper.py:956-989 | The marketEdge scan run as a loop computes EdgeRating |
| Analysts.OtherRating | tdscraper.py:974-986 | cfra takes the last character if it is a digit and NaN otherwise; other providers take the class, as an integer when it reads as one |
| Analysts.RowStep | tdscraper.py:939-993 | Corrected row step: a row fails iff its provider class is unreadable. vickers adds nothing and marketEdge adds its opinion row and its own; names and ratings stay paired |
| Analysts.Dated | tdscraper.py:1002 | Every date text is converted and ratings kept |
| Analysts.RowsAligned | tdscraper.py:939-993 | With the corrected step the row loop succeeds iff every provider class reads, and names and ratings stay paired |
| Analysts.AnalystsOwnRating | tdscraper.py:996-1002 | In the corrected table a provider appears iff the loop named it, and then reads the dated rating paired with the last position of its name |
| Analysts.ReadRow | tdscraper.py:940-993 | One row's reading computes the row step as written, WrittenRowStep |
| Analysts.ScrapeAnalysts | tdscraper.py:936-1004 | The loop computes the analysts table as written, WrittenAnalystsTab |
| Analysts.WrittenRowStep | tdscraper.py:956-993 | As written, the step is the corrected one except for a marketEdge row whose opinion class is missing, which gives both names and a single NaN rating; only then do names and ratings fall out of step, by one |
| Analysts.WrittenRowsAgree | tdscraper.py:939-993 | Without such a marketEdge row the loop as written collects the same lists as the corrected loop |
| Analysts.WrittenTabAgrees | tdscraper.py:936-1002 | Without such a row the table as written is the corrected table |
| Analysts.WrittenMisaligns | tdscraper.py:956-996 | As written, a broken marketEdge row followed by a cfra row gives marketEdge cfra's rating and drops cfra |
| Analysts.AlignedKeepsOwn | tdscraper.py:956-996 | Corrected, the same rows give marketEdge NaN and cfra its own rating |
| Ticker.Retried | tdscraper.py:1018-1107 | A first success within four attempts is kept. If all four fail (the fifth's result is irrelevant), `ignore` gives the placeholder and `raise` gives RuntimeError, the only error a retry loop raises |
| Ticker.RetriedFive | tdscraper.py:1018-1033 | Only the first five attempts matter |
| Ticker.Retry | tdscraper.py:1018-1033 | The retry loop computes Retried |
| Ticker.TickerColumn | tdscraper.py:1113 | `valuation[ticker]` keeps every row and reads the ticker cell or NaN |
| Ticker.RatingColumn | tdscraper.py:1114 | `analysis[ticker]` keeps every analyst and reads its rating |
| Ticker.Dedup | tdscraper.py:1118 | After dropping duplicates each label appears once, the label set is unchanged, and each label keeps its first value |
| Ticker.CombinedEarliest | tdscraper.py:1110-1118 | A combined label reads from the earliest tab in the order summary, earnings, fundamentals, valuation, analysts. The summary's `Shares Outstanding` is absent |
| Ticker.SinceRowsRead | tdscraper.py:1119-1120 | Each analyst's `<name> since` row holds that analyst's date; every other label reads as before |
| Ticker.AddSince | tdscraper.py:1119-1120 | The loop computes those rows |
| Ticker.ScrapeTicker | tdscraper.py:1006-1131 | Each section is its retry outcome, and the combined column is their combination. In either mode the run succeeds iff every retry loop succeeds and the summary kept has `Shares Outstanding`; it fails only with a retry loop's RuntimeError or with `combine_data`'s KeyError |

## Left out

- Browser work is given as inputs, and so is I/O: Selenium, BeautifulSoup, waits, clicks,
  the ticker search, `start_bot`, `get_keys`, `scrape_watchlist`, `rebuild_database` and
  file I/O. Each model takes the texts and attributes the page would have yielded.
- Retry attempts are given: `Ticker.ScrapeTicker` takes the outcome of each attempt
  instead of re-scraping.
- Dates are opaque. `pd.to_datetime` is modelled as keeping the text it is given, so
  inputs it would refuse are not modelled.
- `float()` is modelled for plain decimals and `nan` only. It does not cover exponents,
  `inf`, underscores, or Unicode digits and whitespace. Floating-point rounding is not
  modelled; arithmetic is exact.
- Valuation.Ratio: a zero industry value gives NaN rather than pandas' `inf`, since the
  model has no infinities.
- Series.Growth: a zero previous value gives NaN rather than pandas' `inf`, for the same
  reason; this reaches every growth column, the earnings windows and `FCF Growth`.
- Frame layout is simplified:
  - transposes and `astype('float64', errors='ignore')` are not modelled;
  - `sort_index` at the end of the summary is not modelled, since rows are read by label;
  - the `Report` tag column on the yearly frame is not kept;
  - dtype coercions are not modelled.
- Duplicate labels are simplified:
  - pandas `.loc` assignment to a label that occurs twice updates all occurrences; `Put`
    updates the first;
  - `concat` keeps duplicate labels, and so does the stacking in `Valuation`.
  - In the yearly merge, a later report's line for the same year and name does not
    replace the earlier one.
- Fundamentals short-interest lookups: the scaling reads the first occurrence of a label.
- `Strings.ReplaceAll` matches from the right. For the two patterns used,
  `(Unconfirmed) ` and `Rating Since `, neither of which overlaps itself, the result is
  the same as Python's left-to-right replacement.
- `scrape_summary(..., return_full=True)` (lines 155, 349) keeps the dropped rows and
  the description column; only the default `return_full=False`, the one `scrape_ticker`
  uses, is modelled.
- `Summary.SetYearRange` stores the segment list for `52-Wk Range` as is; nothing
  downstream reads it.
- Retry modes other than `ignore` and `raise`: the loop then never stops before a
  success. Only the two documented modes are modelled.
- `Fundamentals.BoxWords`: a box without an `h4` heading (`box.find('h4')` is None, an
  AttributeError in the script) is treated as a non-historic box.
- `Valuation.StackTabs`: requires at most six pages, one per named tab, as the script
  always visits exactly six.
- `Ticker.SinceRowsRead`: requires the analyst names to be distinct, as the table built
  by `dict(zip(...))` always has them.
- The `show_errors` printing in `clean` and all progress printing are not modelled.

## Findings

| source | as written | input that shows it | evidently intended | confidence | as-written member | corrected member |
|---|---|---|---|---|---|---|
| tdscraper.py:956-993 | For marketEdge, `analysts.append(analyst+' opinion')` runs before `divs[2].get('class')[2]`. When that lookup raises, the outer `except` appends `marketEdge` with one NaN rating and date, so `analysts` is one longer than `ratings` and every later provider's rating shifts onto the provider before it | a marketEdge row whose third div has fewer than three classes, followed by a cfra row with class `stars-4`: marketEdge gets rating 4 and cfra is dropped from the table | every provider keeps its own rating; a failed marketEdge row gives NaN for both its rows | not executed; follows from the code as written | Analysts.WrittenMisaligns | Analysts.AlignedKeepsOwn |
