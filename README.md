# ITBI auction reshaping, modelled in Dafny

ITBI_Runbook downloads the Banca d'Italia workbook of Italian Treasury
bill auction results ("aste correnti"). It turns that workbook into one
DATA file, one META file and, in the `.xls` generator, one ZIP archive per
bill (one per ISIN, or one per ISIN and month in all-months mode).

This project models the part of that pipeline that runs after the
workbook has been read into a table. That part covers:

- the parser's reshaping: cleaning the identifier column, choosing the
  month or months, the per-ISIN preparation, the time series, the metadata
  rows, and the parsed dictionary (`parser.py`);
- the `.xls` generator: the last-day file stamp, the META and DATA
  worksheets written cell by cell, the ZIP member names and the
  all-files loop (`file_generator_xls.py`);
- the legacy pandas generator, with the `YYYYMM` stamp and the DATA
  and META tables it hands to `to_excel` (`file_generator.py`);
- the configuration tables as a value, `Settings.Shipped` (`config.py`).

Modules, one per concern of the source:

| module | file | models |
|---|---|---|
| `Wrappers` | wrappers.dfy | `Option` |
| `Text` | text.dfy | digits, zero-padded numbers, `str.lower`, `str.replace`, Python string order |
| `Calendar` | calendar.dfy | dates, monthly periods, `strftime`, `timedelta`, `get_timestamp_from_month` |
| `Paths` | paths.dfy | `os.path.join`, `os.path.basename` |
| `Table` | table.dfy | a DataFrame as headers plus rows of cells; `rename`, `df[c] = …`, `df[mask]`, `iloc`, `dropna` |
| `Settings` | settings.dfy | the configuration tables and the file-name patterns |
| `IsinFilter` | isin_filter.dfy | `clean_isin_column` |
| `Months` | months.dfy | `get_month_data` |
| `Series` | series.dfy | `get_unique_isins`, `prepare_isin_data`, `create_time_series_data`, `create_metadata_rows` |
| `Parse` | parse.dfy | the parsed dictionary and `parse_auction_data` after `read_excel` |
| `DataLayout` | layout.dfy | the DATA grid both generators build |
| `Sheet` | sheet.dfy | an `xlwt` worksheet as a write-once map of cells |
| `XlsOutput` | xls_output.dfy | `file_generator_xls.py` |
| `LegacyOutput` | legacy_output.dfy | `file_generator.py` |

The loops of the source are methods with loop invariants. Each one is
proved equal to a specification function, and the properties are proved
as lemmas about those functions. The `.xls` worksheet is a class whose
`cells` map each `ws.write` extends. The legacy META frame is a class
whose columns and rows `meta_df[col] = ""` updates. An exception that
the source raises or catches is a `None` result.

## Model

| member | source | states |
|---|---|---|
| Calendar.DaysIn | file_generator_xls.py:53-58 | every month has between 28 and 31 days |
| Calendar.Label | parser.py:165 | `str(period)` is seven characters with the dash at position 4 |
| Calendar.Iso | parser.py:93-95 | the `%Y-%m-%d` rendering of a valid date is ten characters long |
| Calendar.Compact | file_generator_xls.py:60 | the `%Y%m%d` rendering is eight digits |
| Calendar.NextDay | file_generator_xls.py:53-56 | the day after a valid date, when `datetime` has one, is valid |
| Calendar.PrevDay | file_generator_xls.py:58 | the day before a valid date, when `datetime` has one, is valid |
| Calendar.NextPrevRoundTrip | file_generator_xls.py:53-58 | stepping one day back then forward (or forward then back) returns to the same date |
| Calendar.Split | file_generator_xls.py:52 | `str.split` always yields at least one part |
| Calendar.ParseNat | file_generator_xls.py:52 | on canonical labels, `int()` succeeds exactly on a non-empty run of ASCII digits (the other spellings `int()` accepts are under Left out) |
| Calendar.LastDayStamp | file_generator_xls.py:42-60 | a timestamp, when there is one, is eight digits; `None` stands for the ValueError or overflow the source raises on a label whose parts are ASCII digit runs |
| Calendar.SplitNoSeparator | file_generator_xls.py:52 | a string without the separator splits into itself |
| Calendar.DigitsHaveNoDash | file_generator_xls.py:52 | digit strings contain no dash |
| Calendar.SplitAtDash | file_generator_xls.py:52 | two dash-free parts joined by a dash split back into exactly those parts |
| Calendar.SplitLabel | file_generator_xls.py:52 | a period label splits into its four-digit year and two-digit month |
| Calendar.ParseLabel | file_generator_xls.py:52 | parsing a period label gives back its year and month |
| Calendar.LastDayStampOfLabel | file_generator_xls.py:42-60 | for every period but December 9999 the stamp is a valid date of that month whose next day is in another month, i.e. the month's last day |
| Calendar.DecemberStamp | file_generator_xls.py:54-58 | December takes the January-of-next-year branch and stamps the 31st |
| Calendar.FebruaryStamp | file_generator_xls.py:53-58 | February is stamped the 29th in leap years and the 28th otherwise |
| Calendar.LastPeriodHasNoStamp | file_generator_xls.py:54-55 | December 9999 raises, because `datetime(10000, 1, 1)` does not exist |
| Calendar.MonthZeroStamp | file_generator_xls.py:52-58 | a month `00` is not rejected but stamps 31 December of the year before |
| Calendar.LabelInjective | parser.py:165-166 | distinct periods get distinct labels, so the all-months dictionary never merges two months |
| Calendar.IsoOrder | parser.py:211-214 | ISO date strings compare, as Python strings, exactly as the dates do |
| Calendar.DayKeyOrder | parser.py:211 | the date key orders by year, then month, then day |
| Calendar.LabelOrder | parser.py:159-166 | period labels compare, as strings, exactly as the periods do |
| Text.LowerChar | parser.py:40 | `lower()` maps capitals to lower-case letters and leaves every other character alone |
| Text.Lower | parser.py:40 | `lower()` keeps the length and lowers character by character |
| Text.Fixed | parser.py:174 | `%02d`/`%Y`/`%m`/`%d` write exactly `w` digits |
| Text.DigitsValue | file_generator_xls.py:52 | a string of `n` digits reads as a number below 10^n |
| Text.FixedRoundTrip | file_generator_xls.py:52 | reading a zero-padded rendering back with `int()` gives the number |
| Text.FixedInjective | file_generator_xls.py:60 | different numbers have different fixed-width renderings |
| Text.Without | file_generator.py:58 | `replace("-", "")` removes every dash and never lengthens |
| Text.WithoutConcat | file_generator.py:58 | removing a character distributes over concatenation |
| Text.WithoutAbsent | file_generator.py:58 | removing an absent character changes nothing |
| Text.LastIndexOf | file_generator_xls.py:52 | the position found holds the character and no later position does |
| Text.StrLessIrreflexive | file_generator.py:88 | Python string order is irreflexive |
| Text.StrLessTransitive | file_generator.py:88 | Python string order is transitive |
| Text.StrLessTotal | file_generator.py:88 | any two strings are equal or ordered one way |
| Text.StrLessAsymmetric | file_generator.py:88 | no two strings are ordered both ways |
| Text.StrLessSamePrefix | file_generator.py:88 | a common prefix does not change the order |
| Text.StrLessConcat | file_generator.py:88 | between equal-length different prefixes the prefixes decide |
| Text.FixedOrder | file_generator.py:88 | zero-padded numbers compare as strings exactly as the numbers do |
| Text.FieldOrder | file_generator.py:88 | `number-rest` strings compare by number, then by rest |
| Paths.Join | file_generator.py:60 | `os.path.join` ends with the joined name |
| Paths.JoinInjective | file_generator_xls.py:101-103 | under one directory distinct relative names give distinct paths |
| Paths.LastSlash | file_generator_xls.py:219-222 | the position found holds `/` and no later position does |
| Paths.Basename | file_generator_xls.py:219-222 | a base name contains no `/` |
| Paths.LastSlashAfter | file_generator_xls.py:219-222 | after a directory prefix a separator-free name leaves the last `/` at the prefix's end |
| Paths.BasenameJoin | file_generator_xls.py:219-222 | the archive member name of a joined path is the file name that was joined |
| Settings.Format | config.py:170-171 | a formatted name is the pattern's text with the identifier and the stamp put in place |
| Settings.FormatInjective | config.py:170-171 | with stamps of one length, one pattern gives equal names only for the same identifier and stamp |
| Settings.ShippedLookupMisses | config.py:74-103 | the shipped order names five mapped metrics, and no metric's source column is a key of the column map of parser.py:257-263 |
| Table.IndexOf | parser.py:33 | finds the first column with the label, and `None` exactly when no column has it |
| Table.FirstMentioning | parser.py:39-43 | finds the first column whose lower-cased label contains one of the words, and `None` when none does |
| Table.ReplaceAt | parser.py:62 | one cell is replaced and the others are kept |
| Table.Rename | parser.py:55 | renaming relabels that column and keeps the rows |
| Table.SetColumn | parser.py:214 | `df[name] = col` holds `col` under the label, keeps the old columns as a prefix and keeps every other cell |
| Table.SetColumnKeeps | parser.py:214 | setting a column keeps every other column of every row |
| Table.IndexOfAppend | parser.py:154 | a newly appended label is found at the end |
| Table.IndexOfPrefix | parser.py:214 | appending columns does not move an existing label |
| Table.IndexOfFirst | parser.py:33 | the first occurrence is what the label lookup finds |
| Table.Count | parser.py:66 | `mask.sum()` is at most the number of rows |
| Table.Where | parser.py:90 | `df[mask]` has `mask.sum()` rows, all of them taken from the input |
| Table.CountPositive | parser.py:70 | `mask.sum()` is positive exactly when some entry is set |
| Table.WhereMember | parser.py:90 | a row is selected exactly when it stands at a set position |
| Table.WhereSplit | parser.py:164 | two disjoint masks select together what their union selects |
| Table.WhereAll | parser.py:90 | an all-true mask keeps every row |
| Table.WhereNone | parser.py:90 | an all-false mask keeps none |
| Table.WhereRect | parser.py:90 | selecting rows keeps one cell per column |
| Table.DropLeading | parser.py:361 | `iloc[3:]` keeps the headers and the rows after the first three, in order |
| Table.DropEmptyRows | parser.py:365 | `dropna(how='all')` keeps exactly the rows with a non-NaN cell, in their order and with their multiplicity (equal to the reference filter `KeepNonBlank`) |
| IsinFilter.TiersNest | parser.py:65-88 | the strict pattern implies the relaxed one, and that implies non-empty |
| IsinFilter.LettersOnlyFallThrough | parser.py:65-88 | `IT` plus eleven letters fails both patterns and is still kept by the non-empty tier |
| IsinFilter.IsinColumn | parser.py:33-55 | the identifier column is `ISIN`, else the first mentioning `isin`, else the third; none only when all three fail |
| IsinFilter.AsStrings | parser.py:62 | `astype(str)` replaces each identifier cell by its `str` form and nothing else |
| IsinFilter.TierMask | parser.py:65-84 | one mask entry per row |
| IsinFilter.CleanIsinColumn | parser.py:30-90 | the cleaned frame keeps one cell per column and the column count, and a frame with no resolvable ISIN column comes back unchanged |
| IsinFilter.WhereTierMask | parser.py:90 | selecting with a tier's mask keeps, in order, the rows whose identifier the tier accepts |
| IsinFilter.KeepTierMember | parser.py:65-90 | a row is kept by a tier exactly when the tier accepts its identifier |
| IsinFilter.TierMaskCount | parser.py:66-84 | a tier's count is positive exactly when it accepts some row |
| IsinFilter.CleanIsinColumnTiers | parser.py:30-90 | the column is relabelled `ISIN`; the strict tier is used if it hits, else the relaxed one, else the non-empty one, else no row is kept |
| IsinFilter.AsStringsMember | parser.py:62 | after `astype(str)` every identifier cell is a string |
| IsinFilter.KeptNonEmpty | parser.py:65-88 | any tier keeps only rows with a non-empty, non-`nan` identifier |
| IsinFilter.CleanIsinColumnKeepsStrings | parser.py:62-90 | every kept row is a stringified input row with a non-empty identifier |
| Months.DateColumn | parser.py:112-133 | the date column is `data asta`, else the first mentioning `data`/`date`, else the first; none only without columns |
| Months.AsDate | parser.py:139-140 | a cell reads as a date only when it holds a valid timestamp |
| Months.CoerceDates | parser.py:139-140 | `to_datetime(errors='coerce')` keeps valid dates, turns the rest into NaT and leaves other columns alone |
| Months.ValidMask | parser.py:143 | one `notna()` entry per row |
| Months.Dated | parser.py:112-144 | the date column is relabelled `data asta` and every surviving row holds a valid date |
| Months.DatedKeepsValidRows | parser.py:143-144 | dropping NaT keeps exactly the input rows with a valid date, unchanged and in order |
| Months.KeepSame | parser.py:139-144 | coercion changes no row that the validity filter keeps |
| Months.MonthOfRow | parser.py:154 | `to_period('M')` of a valid date is a valid period |
| Months.MonthsOf | parser.py:154 | one period per row, that row's |
| Months.WithMonth | parser.py:154 | the `month` column holds each row's period and the date column is unchanged |
| Months.MonthIndexInjective | parser.py:159 | the month index identifies the period |
| Months.InsertMonth | parser.py:159 | inserting a period into an ascending list keeps it ascending and adds exactly that period |
| Months.DistinctMonths | parser.py:159 | `sorted(unique())` is strictly ascending and holds exactly the periods present |
| Months.Latest | parser.py:186 | `max()` is a present period no other period follows |
| Months.MonthMask | parser.py:164 | one entry per row |
| Months.InMonth | parser.py:164 | a month selection keeps the columns and one cell per column |
| Months.InMonthMember | parser.py:164 | a row is selected exactly when its period is the month |
| Months.Buckets | parser.py:162-166 | one bucket per period, in the given order |
| Months.GroupByMonth | parser.py:157-169 | the loop builds exactly the buckets, in ascending period order |
| Months.GetMonthData | parser.py:98-192 | all-months mode returns a month dictionary exactly when `process_all` is set |
| Months.SelectOne | parser.py:172-192 | single-month mode never returns the dictionary form |
| Months.InMonthsMask | parser.py:164 | one entry per row |
| Months.UnionOfBuckets | parser.py:157-169 | buckets of distinct periods together hold the rows of those periods, each once |
| Months.BucketsAscending | parser.py:159-166 | the month keys are strictly ascending as strings |
| Months.BucketsMatchRows | parser.py:163-166 | every bucket holds only input rows whose period label is its key |
| Months.BucketsCoverAll | parser.py:157-169 | the buckets together hold every tagged row exactly once |
| Months.AllMonthsPartition | parser.py:147-169 | all-months mode partitions the valid-date rows by period, keys ascending, and is empty without valid dates |
| Months.AllMonthsIgnoresTarget | parser.py:157-169 | all-months mode does not depend on the requested period |
| Months.SelectMonth | parser.py:177-180 | selecting a period keeps exactly the rows dated in it |
| Months.RowsMonthsPresent | parser.py:154-159 | every tagged row's period is among the periods listed |
| Months.OneMonthNoDates | parser.py:147-151 | without a valid date, single-month mode returns an empty frame labelled `""` |
| Months.OneMonthTarget | parser.py:172-183 | a requested period that cannot exist raises; otherwise its label and exactly its rows, empty when none falls in it |
| Months.OneMonthLatest | parser.py:186-192 | without a request, the latest period, its label and exactly its rows |
| Series.ColumnOf | parser.py:200 | the column's cells, row by row |
| Series.FirstIndex | parser.py:200 | the first position holding the value |
| Series.Unique | parser.py:200 | `unique()` holds each value of the column exactly once |
| Series.FirstIndexPrefix | parser.py:200 | the first occurrence within a prefix is the first occurrence overall |
| Series.UniqueFirstAppearance | parser.py:200 | `unique()` lists values in order of first appearance |
| Series.PrefixFirstAppearance | parser.py:200 | an order by first appearance in a prefix is one in the whole column |
| Series.AppendFirstAppearance | parser.py:200 | appending the next new value keeps the first-appearance order |
| Series.UniqueIsins | parser.py:195-202 | the identifiers are distinct, exactly those of the rows, and there is one for a non-empty frame |
| Series.InsertByDate | parser.py:211 | inserting a row adds exactly that row |
| Series.ConsByDate | parser.py:211 | a row no later than an ascending rest heads an ascending list |
| Series.InsertByDateSorted | parser.py:211 | inserting into an ascending list keeps it ascending |
| Series.AllDatedPermutation | parser.py:211 | reordering keeps every row dated |
| Series.SortByDate | parser.py:211 | `sort_values('data asta')` is ascending by date and a permutation of its input |
| Series.IsinMask | parser.py:208 | one entry per row |
| Series.Selected | parser.py:208 | `df[df['ISIN'] == isin]` holds exactly the rows carrying the identifier |
| Series.SelectedInOrder | parser.py:208 | the selection equals the reference filter `KeepIsin`: the matching rows in their original order, with their multiplicity |
| Series.IsinRows | parser.py:208-211 | the identifier's rows, ascending by date, a permutation of the selection |
| Series.IsinRowsMember | parser.py:208-211 | a row is among them exactly when it is an input row carrying the identifier |
| Series.DescriptionColumn | parser.py:217-226 | the first column mentioning `descrizione`/`description`, else the sixth when there are more than five |
| Series.IsoDates | parser.py:214 | each row's `%Y-%m-%d` date |
| Series.IsinRowsCount | parser.py:208 | the identifier has as many rows as rows carry it, at least one, each carrying it |
| Series.PrepareIsinData | parser.py:205-233 | the prepared frame has one row per matching row, keeps the input columns as a prefix and has `date_str` |
| Series.PreparedRows | parser.py:208-214 | each prepared row is the sorted row with only `date_str` changed, and carries the identifier |
| Series.PreparedDateStrings | parser.py:214 | `date_str` holds each row's ISO date |
| Series.IsoAscending | parser.py:211-214 | rows ascending by date have ISO date strings ascending as strings |
| Series.PreparedDatesAscending | parser.py:211-214 | the `date_str` column of the prepared frame reads ascending |
| Series.ByDateSameDates | parser.py:211-214 | rows with the same dates as an ascending list are ascending |
| Series.PreparedByDate | parser.py:211 | the prepared rows are ascending by date |
| Series.PreparedDescription | parser.py:217-229 | the description is the first (earliest) row's description cell, or `""` without a usable column |
| Series.SeriesFor | parser.py:266-299 | one point per row dated by `date_str`; the mapped column's value when the source column is in the map and the position exists, NaN otherwise |
| Series.CreateTimeSeriesData | parser.py:236-301 | one series per metric of the order, each the series of that metric |
| Series.ShippedSeriesAreBlank | parser.py:257-299 | with the shipped configuration every series value is NaN |
| Series.MetadataRow | parser.py:309-326 | the defaults, then `CODE` and `DESCRIPTION`, then `""` for every metadata column still missing, and no other key |
| Series.Complete | parser.py:324-326 | every listed column is added with `""` unless already present, and present keys are kept |
| Series.CompleteRow | parser.py:324-326 | the completion loop adds exactly the missing columns |
| Series.CreateMetadataRows | parser.py:304-330 | one metadata row per metric, in metric order |
| Parse.Keys | parser.py:419 | the keys in insertion order |
| Parse.Find | parser.py:419 | the position of a key, `None` exactly when it is absent |
| Parse.PutLookup | parser.py:419-425 | a stored key reads back its value and every other key reads as before |
| Parse.PutKeys | parser.py:419-425 | storing adds exactly its key and never stores a key twice |
| Parse.PutValues | parser.py:419-425 | after storing, each pair is an old one or the new one |
| Parse.FindReplace | parser.py:419-425 | overwriting a value moves no key |
| Parse.FindAppend | parser.py:419-425 | a new key goes last and leaves the others in place |
| Parse.TaggedDateable | parser.py:139-166 | the tagged frame, its empty copy and every month selection keep valid dates |
| Parse.MonthFramesDateable | parser.py:98-192 | every frame `get_month_data` returns has its valid-date column |
| Parse.BucketsDateable | parser.py:157-169 | every month bucket has its valid-date column |
| Parse.SelectedDateable | parser.py:172-192 | the single-month frame has its valid-date column when it has rows and identifiers |
| Parse.SeriesMap | parser.py:413 | the series map has exactly the metrics of the order |
| Parse.MetadataRows | parser.py:416 | one metadata row per metric |
| Parse.EntryFor | parser.py:410-425 | the entry carries the month string, every metric's series and metadata, and the `isin` field only in all-months mode |
| Parse.IsinKeys | parser.py:403-405 | one key per identifier |
| Parse.Entries | parser.py:403-425 | one stored pair per identifier |
| Parse.EntriesKeys | parser.py:403-405 | the stored pairs' keys are the identifiers' keys |
| Parse.PutAllKeys | parser.py:452-470 | the identifier loop adds exactly its keys and never stores a key twice |
| Parse.PutAllLookup | parser.py:452-470 | with distinct keys every stored pair reads back its own value |
| Parse.PutGroupsPrefix | parser.py:388-425 | only the buckets processed so far matter |
| Parse.PutGroupsKeys | parser.py:388-425 | the bucket loop adds exactly the buckets' keys, none twice |
| Parse.PutAllValues | parser.py:452-470 | every stored pair was there before or is one of the loop's |
| Parse.PutGroupsValues | parser.py:388-425 | every stored pair was there before or is one of some bucket's |
| Parse.AddIsinsKeys | parser.py:403-425 | the identifier loop adds exactly the identifiers' keys, none twice |
| Parse.AddIsinsLookup | parser.py:403-425 | with distinct keys each identifier's entry is found under its key |
| Parse.Groups | parser.py:388-425 | one group of pairs per processed bucket |
| Parse.AddBucketsStep | parser.py:388-425 | one more bucket adds its entries, or nothing when it has no rows |
| Parse.AddBucketsKeys | parser.py:388-425 | all-months keys are distinct and are exactly the tagged keys of the non-empty buckets |
| Parse.BucketKeyShape | parser.py:405 | every all-months key is a row's identifier, `_` and the month |
| Parse.Cleaned | parser.py:361-369 | the cleaned frame keeps one cell per column |
| Parse.SeriesMapOf | parser.py:413 | the map `create_time_series_data` builds is the series map |
| Parse.MetadataRowsOf | parser.py:416 | the rows `create_metadata_rows` builds are the metadata rows |
| Parse.ProcessIsin | parser.py:410-425 | processing an identifier yields its entry |
| Parse.StoreIsin | parser.py:403-425 | one loop round stores the identifier's entry under its key |
| Parse.AddAll | parser.py:452-470 | the identifier loop builds the dictionary the specification function describes |
| Parse.ParseAllMonths | parser.py:379-432 | the bucket loop yields the all-months result: `None` without buckets or on a missing `ISIN` column |
| Parse.ParseAuctionData | parser.py:337-483 | the whole reshaping, with each `return None` and caught exception as `None` |
| Parse.EntriesConsistent | parser.py:419-425 | every stored entry has every series and metadata row, and in all-months mode its key is its `isin`, `_` and its month |
| Parse.EntryForBlank | parser.py:413 | with the shipped mapping an identifier's series are all NaN |
| Parse.EntriesBlank | parser.py:452-470 | with the shipped mapping every entry of a frame has NaN series |
| Parse.BucketsFromEntries | parser.py:388-425 | every pair the bucket loop stores is an entry of some month's frame |
| Parse.ParsedFromEntries | parser.py:337-483 | every pair of a parse result is an entry of some month's frame |
| Parse.OneMonthFromEntries | parser.py:452-470 | every pair the single-month loop stores is an entry of a frame |
| Parse.ParsedConsistent | parser.py:405-470 | every parsed pair is consistent: all-months keys are `isin_month` and single-month entries have no `isin` field |
| Parse.ShippedParseAllBlank | parser.py:257-299 | with the shipped configuration every parsed series is NaN throughout |
| Parse.IsinKeysMember | parser.py:465 | a single-month key is a row's printed identifier and every row's identifier is a key |
| Parse.SingleMonthKeys | parser.py:443-470 | single-month keys are exactly the rows' printed identifiers, none twice |
| Parse.IsinKeysRows | parser.py:465 | the single-month keys of a frame are its rows' printed identifiers |
| Parse.SingleMonthLookup | parser.py:452-470 | each row's identifier finds its own entry when no two identifiers print alike |
| Parse.TaggedKeyInjective | parser.py:405 | an all-months key determines its identifier and its month |
| DataLayout.AscendingUnique | file_generator.py:88 | `sorted` of a set is determined by the set |
| DataLayout.Insert | file_generator.py:88 | inserting a new date keeps the list strictly ascending and adds exactly it |
| DataLayout.SortDates | file_generator.py:88 | sorting the date set yields a strictly ascending list of exactly its dates |
| DataLayout.DatesOf | file_generator.py:85-86 | the dates of the first observations of a series |
| DataLayout.SortedDates | file_generator.py:84-88 | the date loop and `sorted` give every date of every series once, ascending |
| DataLayout.FirstOn | file_generator.py:113-115 | the first observation on a date, or none on that date |
| DataLayout.LookupValue | file_generator.py:113-122 | a value cell is the first match's value, or `""` without a match or for NaN |
| DataLayout.CodeRow | file_generator.py:94-98 | one cell per metric plus the first column |
| DataLayout.DescriptionRow | file_generator.py:101-105 | one cell per metric plus the first column |
| DataLayout.DateRow | file_generator.py:108-123 | one cell per metric plus the date |
| DataLayout.DataRows | file_generator.py:91-123 | two header rows plus one row per date |
| DataLayout.DataRowsHeaders | file_generator.py:94-105 | blank first cells, then `isin.suffix` codes and `ISIN:isin;description:label` descriptions in metric order |
| DataLayout.DataRowsShape | file_generator.py:91-123 | every row has one cell per metric plus the first, and row i+2 starts with the i-th date |
| DataLayout.ValueCellFirstMatch | file_generator.py:113-122 | a value cell holds a value exactly when the first observation on that date has a non-NaN value, and is `""` otherwise |
| DataLayout.BlankSeriesEmptyCells | file_generator.py:113-122 | all-NaN series leave every value cell empty |
| Sheet.Worksheet.constructor | file_generator_xls.py:80-81 | a new sheet is empty |
| Sheet.Worksheet.Write | file_generator_xls.py:85 | `ws.write` stores the value at an unwritten cell and changes nothing else |
| Sheet.ShowsUnique | file_generator_xls.py:84-98 | a sheet showing a grid is determined by that grid |
| Sheet.WriteNext | file_generator_xls.py:148-180 | writing the grid's next cell in row-major order extends what the sheet holds |
| XlsOutput.MetaCellRendering | file_generator_xls.py:90-98 | booleans are written as such, a missing key as `""`, and every other value as its `str` form |
| XlsOutput.HeaderCells | file_generator_xls.py:84-85 | one header cell per metadata column |
| XlsOutput.MetaCells | file_generator_xls.py:88-98 | one cell per metadata column |
| XlsOutput.MetaGrid | file_generator_xls.py:84-98 | the header row plus one row per metadata row |
| XlsOutput.MetaGridLayout | file_generator_xls.py:84-98 | row 0 names the columns; cell (i+1, j) is `""` for a missing key, the boolean, or `str` of the value |
| XlsOutput.MetaGridCell | file_generator_xls.py:88-98 | the same, for one cell |
| XlsOutput.WriteHeader | file_generator_xls.py:84-85 | the header loop writes exactly row 0 of the grid |
| XlsOutput.WriteMetaRow | file_generator_xls.py:89-98 | the inner loop writes exactly one metadata row |
| XlsOutput.CreateMetaFileXls | file_generator_xls.py:67-109 | a fresh `META` sheet showing exactly the META grid, and the path stamped with the month's last day |
| XlsOutput.HeaderRowCells | file_generator_xls.py:148-159 | the DATA grid's header rows hold a blank cell, then each metric's code or description |
| XlsOutput.WriteCodeRow | file_generator_xls.py:148-152 | writes exactly the code row |
| XlsOutput.WriteDescriptionRow | file_generator_xls.py:155-159 | writes exactly the description row |
| XlsOutput.WriteDateRow | file_generator_xls.py:164-180 | writes exactly one date row |
| XlsOutput.WriteDateRows | file_generator_xls.py:162-180 | writes exactly the date rows, completing the grid |
| XlsOutput.CreateDataFileXls | file_generator_xls.py:116-191 | a fresh `DATA` sheet showing exactly the DATA grid over the ascending distinct dates, and the stamped path |
| XlsOutput.ZipEntries | file_generator_xls.py:219-222 | two member names without separators |
| XlsOutput.CreateZipPackage | file_generator_xls.py:198-232 | the stamped archive path, then the META and DATA member names in that order |
| XlsOutput.ZipHoldsBothFiles | file_generator_xls.py:212-222 | the archive holds the formatted META name, then the formatted DATA name |
| XlsOutput.FileNamesDistinct | file_generator_xls.py:183-185 | equal DATA paths mean the same identifier and the same stamp |
| XlsOutput.StampedNameRelative | file_generator_xls.py:101-103 | a formatted name is relative, so the join keeps the output directory |
| XlsOutput.GenerateFilesForIsin | file_generator_xls.py:239-266 | the three paths of one identifier, or `None` when the month has no stamp |
| XlsOutput.Collect | file_generator_xls.py:286-302 | when there is a result, it has one pair per key |
| XlsOutput.CollectStep | file_generator_xls.py:296-302 | one more round appends the key with its files |
| XlsOutput.CollectNoneSticks | file_generator_xls.py:288-302 | once a round raises, the run stays failed |
| XlsOutput.CollectFails | file_generator_xls.py:288-302 | a raising round fails every longer run |
| XlsOutput.CollectPerKey | file_generator_xls.py:288-302 | the run fails exactly when some round raises, and otherwise pairs each key with its files in order |
| XlsOutput.FilesOf | file_generator_xls.py:288-296 | one result per entry |
| XlsOutput.GenerateEntryFiles | file_generator_xls.py:290-296 | the loop body chooses the identifier and generates its files |
| XlsOutput.GenerateAllFiles | file_generator_xls.py:269-310 | the loop's result is the collection over all entries, in order |
| XlsOutput.FilesForSome | file_generator_xls.py:239-266 | an identifier's files exist exactly when its month has a stamp, and record that identifier |
| XlsOutput.FilesOfEntries | file_generator_xls.py:288-302 | each entry's files exist exactly when its month has a stamp, and record its `isin` field or its key |
| XlsOutput.AllFilesFail | file_generator_xls.py:288-302 | the run raises exactly when some entry's month has no stamp |
| XlsOutput.AllFilesPerKey | file_generator_xls.py:288-302 | on success, one result per key, in order, holding that entry's files |
| XlsOutput.UndatedEntryFails | file_generator_xls.py:288-302 | an entry whose month string is empty makes the run raise |
| LegacyOutput.MonthStamp | file_generator.py:58 | the stamp has no dash and is no longer than the month string |
| LegacyOutput.MonthStampOfLabel | file_generator.py:58 | a period label stamps `YYYYMM` |
| LegacyOutput.StampsAgreeOnMonth | file_generator.py:58 | the `.xls` stamp is the legacy stamp followed by the month's last day |
| LegacyOutput.MonthPathInjective | file_generator.py:58-60 | equal legacy paths mean the same identifier and month |
| LegacyOutput.FixedPairInjective | file_generator.py:58 | a year field and a month field side by side determine both |
| LegacyOutput.SixDigitsRelative | file_generator.py:59-60 | a formatted legacy name is relative |
| LegacyOutput.BuildCodeRow | file_generator.py:94-98 | the appending loop builds the code row |
| LegacyOutput.BuildDescriptionRow | file_generator.py:101-105 | the appending loop builds the description row |
| LegacyOutput.BuildDateRow | file_generator.py:108-123 | the inner loop builds the date row |
| LegacyOutput.BuildDataRows | file_generator.py:91-123 | `data_rows` is the shared DATA grid |
| LegacyOutput.DataColumns | file_generator.py:126 | `DATE` then each metric's code, in order |
| LegacyOutput.DataSheet | file_generator.py:126-127 | the column row plus two header rows plus one row per date |
| LegacyOutput.CreateDataFile | file_generator.py:69-138 | the sheet over the ascending distinct dates and the `YYYYMM`-stamped path |
| LegacyOutput.DataSheetLayout | file_generator.py:126-135 | a `DATE` and codes column row above exactly the `.xls` DATA grid |
| LegacyOutput.CodesRepeated | file_generator.py:94-98 | the column row's codes are repeated in the first data row |
| LegacyOutput.KeysOf | file_generator.py:47 | the DataFrame's columns are the keys of any row |
| LegacyOutput.MetaTable | file_generator.py:47-55 | one row per record, one cell per listed column |
| LegacyOutput.MetaFrame.constructor | file_generator.py:47 | the union of the keys as columns; a missing key is NaN |
| LegacyOutput.MetaFrame.AddColumn | file_generator.py:52 | adds the column with `""` in every row |
| LegacyOutput.MetaFrame.Select | file_generator.py:55 | selects the listed columns in order |
| LegacyOutput.CreateMetaFile | file_generator.py:34-66 | the body of the META table (the rows `to_excel` writes below its column-name row, which is `cfg.metaColumns`) and the `YYYYMM`-stamped path |
| LegacyOutput.MetaTableByCells | file_generator.py:47-55 | a table with the expected value in every cell is the META table |
| LegacyOutput.AddMissingColumns | file_generator.py:50-52 | the loop adds the listed columns and keeps every row at its expected values |
| LegacyOutput.AddedColumnExpected | file_generator.py:52 | a column no record has is expected to hold `""` |
| LegacyOutput.CompleteRecordsUnchanged | file_generator.py:47-55 | complete records are written unchanged |
| LegacyOutput.MetaTableGaps | file_generator.py:47-55 | a cell is NaN exactly when its row lacks a column some row has, and `""` when no row has it |
| LegacyOutput.MetaLayoutsAgree | file_generator.py:47-63 | for complete records both META layouts hold the same values |
| LegacyOutput.GenerateFilesForIsin | file_generator.py:141-165 | the META and DATA paths of one key |
| LegacyOutput.AllPaths | file_generator.py:184-191 | one pair per key |
| LegacyOutput.GenerateAllFiles | file_generator.py:168-198 | each key with its paths, in order |
| LegacyOutput.AllPathsPerKey | file_generator.py:186-191 | each key's paths are named after the key and never fail |
| LegacyOutput.LegacyNamesFollowKey | file_generator.py:186-191 | the legacy names follow the dictionary key, while the `.xls` names follow the `isin` field |

## Left out

- Reading the workbook (`pd.read_excel`), writing files (`to_excel`, `wb.save`, the ZIP bytes), creating directories, logging and printing are I/O. The model starts from the table that was read and ends at the cell grids and paths.
- The downloader, `main.py` and `main_fixed.py` are not part of this model.
- Parsing text into dates (`pd.to_datetime(..., dayfirst=True)`) is not modelled. Only a cell that already holds a valid timestamp counts as a date, and any other cell becomes NaT.
- Numbers in cells and metadata are opaque values carried with their `str()` form. Floating-point arithmetic and number formatting are not modelled.
- `str.lower()` is modelled for ASCII letters only.
- Months.AsDate: does not model the `is_datetime64_any_dtype` shortcut. Coercion is applied in both cases, and its result is the same for cells that already hold timestamps.
- Series.SortByDate: `sort_values` is not stable by default, and the model sorts stably. Rows that tie on their date may be ordered differently in the source.
- Months.OneMonthTarget: models `pd.Period` as accepting years 1000 to 9999 and months 1 to 12. Other forms pandas may parse are not modelled.
- Duplicate column labels, NaN compared with itself and NaT in value columns are not modelled. A frame's labels are strings, and a missing value is one `Blank` cell.
- `ZIP_FILE_PATTERN`, `FILENAME_DATE_FORMAT`, `TARGET_MONTH` and `PROCESS_ALL_MONTHS` are imported from `config.py` but not defined there. The ZIP pattern and the target are parameters, and the file stamp is taken to be `%Y%m%d`.
- LegacyOutput.MetaFrame.constructor: the column order pandas gives the frame is not kept. It does not matter, because the frame is only read through the final column selection.
- LegacyOutput.CreateMetaFile: what `to_excel` writes for a NaN cell is not modelled. A NaN cell stays `None` in the table.
- Parse.SingleMonthLookup: needs distinct identifiers to print differently. Otherwise one entry overwrites the other, as in the source.
- XlsOutput.FileNamesDistinct: needs patterns and identifiers without `/`, because `os.path.join` and a separator inside a name can make different names collide.
- LegacyOutput.MonthPathInjective: needs patterns and identifiers without `/`, for the same reason.
- XlsOutput.AllFilesPerKey: states each key's files through `FilesFor`. The `isin` field of those files is stated by XlsOutput.FilesOfEntries.
- Calendar.ParseNat: models `int()` on runs of ASCII digits only. Surrounding whitespace, a sign, underscores between digits and non-ASCII decimal digits, which `int()` accepts, give `None` here. The month labels the parser produces are canonical `str(Period)` labels (Calendar.ParseLabel), which never hold them.
- Calendar.LastDayStamp: inherits the narrowing of Calendar.ParseNat. A label such as `2024- 03` or `2024-+3`, for which the source returns `20240331`, gives `None` here.
- IsinFilter.IsStrict: reads `\d` as an ASCII digit. Python's `re` also matches other Unicode decimal digits there.
- IsinFilter.IsRelaxed: reads `\d` as an ASCII digit, as IsinFilter.IsStrict does.
- `xlwt` limits are not modelled: a sheet past 256 columns or 65536 rows, and a cell value `xlwt` cannot write (such as a `Period`), raise in the source and are written here.
- The meaning of exceptions is lost beyond "the call raised". Every caught or uncaught exception of the modelled code is a `None` result.
