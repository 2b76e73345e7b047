# covid-globe core, modelled in Dafny

covid-globe shows daily COVID-19 reports from the Johns Hopkins CSSE repository on a
3-D globe. It has three parts:

- An ingestion job (`util/getData.ts`). It lists the daily-report directory on GitHub
  through a throttled client. It keeps the files whose names do not end in `2020.csv`,
  fetches each file's blob, and derives a date key `MM-DD-YYYY` from the file name.
  Then it inserts the `{date, data}` document, updates it when the data changed, or
  leaves it alone.
- Two Express routers (`routes/data.ts`, `routes/data.js`). They serve every record,
  yesterday's record, the earliest and latest stored day, and the record of one
  requested day. `routes/data.ts` reads the `csv` collection that the job writes
  (models/Csv.ts). `routes/data.js` reads the `newcsv` collection of models/Csv.js,
  whose documents also carry a required `lastUpdate`; nothing in this core writes that
  collection, so its records are taken as given.
- Client helpers (`client/src/App.jsx`). These are:
  - the thousands separator used in the tooltips;
  - the half-open date-range guard of the date picker;
  - the country filter;
  - the loading flags behind the spinner.

Modules:

- `Wrappers`: `Option` and `Result`.
- `Calendar`: the proleptic Gregorian days that moment works with at day granularity,
  the day before a day, and the `MM-DD-YYYY` format and its strict reading.
- `Moments`: valid and invalid moments, `moment.max`/`moment.min` (`pickBy`),
  `isAfter`/`isBefore`, and `isBetween` with an inclusivity argument.
- `CsvStore`: the `csv` collection as a sequence of `{date, data}` records in collection
  order, with `findOne` as "first record with that date".
- `Seqs`: order-preserving subsequences, the contract of `Array.prototype.filter`.
- `GetData`: the throttled request, the listing filter, the date key, and the upsert
  decision. It also holds the batch, as functions, and the job itself: the imperative
  method `GetAllFiles` over the class `CsvCollection`, proved equal to those functions.
- `Http`, `DataRoutes`, `DataRoutesJs`: response bodies and the routes of the two routers.
  A store query that throws is a `Failure` snapshot, which answers 500.
- `App`: the client helpers. `NumberWithCommas` is the source's rewriting loop, proved
  against a reference grouping of the digits.

The current time (`moment()`), the GitHub server's answers and which store operations
throw are parameters of the model. The listing request gets one answer per attempt. The
blob requests get one list of answers, one per attempt, per blob sha, so two listed files
with the same sha always get the same fetch outcome.

## Model

| member | source | states |
|---|---|---|
| GetData.OnRateLimit | util/getData.ts:9-18 | A rate-limited request is retried only when it has not been retried yet. |
| GetData.OnAbuseLimit | util/getData.ts:19-23 | The abuse handler asks for no retry. |
| GetData.SendFrom | util/getData.ts:7-23 | An attempt and the retries the handlers ask for after it take at least one attempt. A value it returns is the body of the success answer to the last attempt. |
| GetData.Send | util/getData.ts:7-23 | A request through the throttled client takes at least one attempt. A value it returns is the body of a success answer the server gave, to the request's last attempt. |
| GetData.SendRetriesAtMostOnce | util/getData.ts:9-23 | A request takes one or two attempts. It takes two exactly when the first answer is a rate limit. It succeeds exactly when the first answer, or the single retry after a rate limit, is a success, and then carries that answer's body. An abuse signal ends the request after one attempt, with no value. |
| GetData.ReportFiles | util/getData.ts:40-44 | A listed entry is kept iff its name does not end in "2020.csv", as many times as it is listed. The kept entries keep the listing's order. |
| GetData.ReportFilesExamples | util/getData.ts:44 | "01-22-2020.csv" is dropped; "01-01-2021.csv" and "README.md" are kept. |
| GetData.IndexOf | util/getData.ts:57 | Finds the first occurrence of the pattern at or after a position, or None iff there is none. |
| GetData.DateKey | util/getData.ts:57 | `replace('.csv', "")` removes the first ".csv" only, and only when there is one; otherwise the name is unchanged. |
| GetData.DateKeyStripsExtension | util/getData.ts:57 | For a name `d + ".csv"` where `d` contains no ".csv", the key is `d`. |
| GetData.DateKeyNotInjective | util/getData.ts:57 | Two different names can share a key ("x.csvy" and "xy"). |
| GetData.ToLower | util/getData.ts:33 | An upper-case letter becomes the lower-case letter at the same place in the alphabet; every other character is unchanged. |
| GetData.LowercaseFirstLetter | util/getData.ts:32-34 | With the ASCII-only `ToLower`: keeps the length, lower-cases the first character and keeps the rest; "" gives "". |
| GetData.LowercaseFirstLetterIdempotent | util/getData.ts:32-34 | Applying it twice is the same as applying it once. |
| GetData.Upsert | util/getData.ts:64-78 | Afterwards the key holds the fetched data and no other key changed. It inserts iff the key was absent. It updates iff the key held different data. It writes nothing, and leaves the collection as it was, iff the key already held that data. |
| GetData.Fetch | util/getData.ts:48-55 | `getBlob` through the throttled client: a content it returns is one the server sent for that file's sha. |
| GetData.ProcessFile | util/getData.ts:47-81 | One file inside its try/catch. A file whose blob request fails, or whose key's store operations throw, changes nothing and writes nothing. A stored file leaves its fetched data under its key. It writes at most once. |
| GetData.Fold | util/getData.ts:46-83 | The files handled one after the other: at most one write per file. |
| GetData.RunBatch | util/getData.ts:36-89 | One run of the job: nothing is written when the listing fails, and at most one write per kept report file otherwise. |
| GetData.Expected | util/getData.ts:46-83 | The reference value of a key after the batch. It differs from the key's old value only when some file with that key was fetched and stored, and then it is that file's data. |
| GetData.FoldLookup | util/getData.ts:46-83 | After the batch each key holds the reference value `Expected`: the data of the last file with that key that was fetched and stored, else its old value. |
| GetData.FailureIsolation | util/getData.ts:47-81 | A key for which no file was fetched and stored keeps its old value, whatever happened to the failing files. |
| GetData.StoredFileKept | util/getData.ts:47-81 | A file that was fetched and stored, with no later stored file for the same key, leaves its data under its key. A failing file does not stop the others. |
| GetData.ExpectedFromSomeFile | util/getData.ts:46-83 | When a file with that key was stored, a key's new value is the data of some stored file with that key. |
| GetData.FoldUpToDate | util/getData.ts:64-78 | When every stored file's key already holds its data, the batch writes nothing and changes nothing. |
| GetData.FoldIdempotent | util/getData.ts:46-83 | When listed files that share a key and are both stored carry the same data, running the files a second time over the same remote contents writes nothing and changes nothing. |
| GetData.RunBatchIdempotent | util/getData.ts:36-89 | When listed files that share a key and are both stored carry the same data, a second run of the whole job over unchanged remote contents writes nothing. |
| GetData.ListingFailureKeepsStore | util/getData.ts:39-45 | When the listing request fails (after its one retry), the collection is unchanged and nothing is written. |
| GetData.WritesComeFromStoredFiles | util/getData.ts:64-78 | Every write of a batch is for the key of a file that was fetched and stored. |
| GetData.CsvCollection.constructor | models/Csv.ts:1-13 | A collection with the given records, the given failing keys and no writes. |
| GetData.CsvCollection.FindOne | util/getData.ts:64-66 | Throws iff the key's store operations fail. Otherwise it returns the first record with that date, or none. It changes nothing. |
| GetData.CsvCollection.FindOneAndUpdate | util/getData.ts:70-72 | Throws iff the key's store operations fail. Otherwise it replaces the first record with that date, if there is one, and logs an update. |
| GetData.CsvCollection.Save | util/getData.ts:75-77 | Throws iff the key's store operations fail. Otherwise it appends the document and logs an insert. |
| GetData.HandleFile | util/getData.ts:46-83 | The callback for one file changes the collection and the write log exactly as `ProcessFile` says. A failed blob request or a store operation that throws leaves both unchanged. |
| GetData.HandleFiles | util/getData.ts:46-83 | Handling the files one after the other leaves the collection and the write log as the fold `Fold` over the files says. |
| GetData.GetAllFiles | util/getData.ts:36-89 | The collection and the write log end up exactly as the batch `RunBatch` says, so every lemma above applies to the job. |
| CsvStore.FindIndex | util/getData.ts:64-66 | Returns the index of the first record with that date, or None iff no record has it. |
| CsvStore.FindOne | routes/data.ts:32 | Returns a record of the collection with that date, or None iff there is none. |
| CsvStore.Dates | routes/data.ts:44-50 | The projection `{date: 1, _id: 0}`: one date per record, in order. |
| Calendar.DaysInMonth | routes/data.ts:29 | Every month has 28 to 31 days. February has 29 exactly in leap years. |
| Calendar.Yesterday | routes/data.ts:29 | `subtract(1, 'days')` gives a valid day earlier than the given day. |
| Calendar.YesterdayIsImmediatePredecessor | routes/data.ts:29 | No day lies strictly between the day before `d` and `d`. |
| Calendar.YesterdayTomorrowInverse | routes/data.ts:29 | Stepping back a day and forward a day are inverse. |
| Calendar.YesterdayDayNumber | routes/data.ts:29 | The day before is exactly one day number earlier. |
| Calendar.YesterdayExamples | routes/data.ts:29 | The day before 03-01-2020 is 02-29-2020; the day before 03-01-2021 is 02-28-2021; the day before 01-01-2021 is 12-31-2020. |
| Calendar.BeforeIsDayNumberOrder | routes/data.ts:52-53 | Comparing days field by field is the same as comparing their day numbers. |
| Calendar.BeforeIsStrictTotalOrder | routes/data.ts:52-53 | The order of days is irreflexive, total, asymmetric and transitive. |
| Calendar.FormatKey | routes/data.ts:29 | `format('MM-DD-YYYY')` is ten characters with dashes at positions 2 and 5. |
| Calendar.ParseKey | routes/data.js:30 | The `MM-DD-YYYY` reading of a key: a result is always a day whose year fits four digits. |
| Calendar.ParseFormatKey | routes/data.ts:52-53 | Formatting a day and reading it back gives the same day. |
| Calendar.FormatParseKey | routes/data.js:30 | A string that reads as a day is exactly that day's formatted key. |
| Calendar.KeyOrderIsNotLexical | routes/data.ts:50-53 | Keys do not sort chronologically as strings, which is why the route compares moments. |
| Moments.FromKey | routes/data.js:30 | A key gives a valid moment iff it reads as a day. A valid moment formats back to the same key. |
| Moments.IsAfter | routes/data.ts:52 | `a.isAfter(b)`: false when either moment is invalid, otherwise `b`'s day is strictly before `a`'s. |
| Moments.IsBefore | routes/data.ts:53 | `a.isBefore(b)`: false when either moment is invalid, otherwise `a`'s day is strictly before `b`'s. |
| Moments.Format | routes/data.ts:52-53 | `format('MM-DD-YYYY')` of a valid moment reads back as its day. An invalid moment gives "Invalid date", which reads as no day. |
| Moments.PickFrom | routes/data.ts:52-53 | The loop of moment's `pickBy` returns its starting moment or one of the moments it scans. |
| Moments.Max | routes/data.ts:52 | `moment.max` of no moments is the current moment; otherwise it is one of the given moments. |
| Moments.Min | routes/data.ts:53 | `moment.min` of no moments is the current moment; otherwise it is one of the given moments. |
| Moments.IsBetween | client/src/App.jsx:195 | `isBetween(from, to, undefined, incl)` holds iff all three moments are valid and the day lies between the ends, each end included or excluded as `incl` says. |
| Moments.PickFromExtreme | routes/data.ts:52-53 | Over valid moments, `moment.max` picks one of them and it is not earlier than any of them; `moment.min` picks one not later than any of them. |
| Moments.PickFromInvalid | routes/data.ts:52-53 | One invalid moment makes `moment.max` and `moment.min` invalid. |
| Moments.MaxMinExtreme | routes/data.ts:52-53 | Over a non-empty list of valid days, `moment.max` is an element not earlier than any other, and `moment.min` an element not later than any other. |
| DataRoutes.ListAll | routes/data.ts:8-24 | Answers 200 with every record as `{data, date}`, in collection order; 500 "Server Error" when the query throws. |
| DataRoutes.Project | routes/data.ts:11-16 | One `{data, date}` per record, with that record's data and date, in collection order. |
| DataRoutes.FoundBody | routes/data.ts:32-34 | `findOne(...) \|\| {}`: a date and data come back together, the date is the requested key, and the record is in the collection. Both are absent iff no record has the key. |
| DataRoutes.TodayKey | routes/data.ts:29 | Yesterday's key reads back as the day before `now`. |
| DataRoutes.Today | routes/data.ts:27-39 | Answers 200 with the record of the day before `now`, or empty; 500 when the query throws. |
| DataRoutes.ByDate | routes/data.ts:62-72 | Answers 200 with the record whose key is the requested string, or empty; 500 when the query throws. |
| DataRoutes.KeyMoments | routes/data.ts:50 | Reads every key as a moment, in order. |
| DataRoutes.Range | routes/data.ts:41-60 | Answers 200 with `{max, min}` when the query succeeds, and 500 when it throws. |
| DataRoutes.MomentsAreKeyDates | routes/data.ts:50-53 | A valid max or min is a day that can be formatted as `MM-DD-YYYY`. |
| DataRoutes.RangeIsChronological | routes/data.ts:41-60 | Over a non-empty store whose keys all read as days, `max` and `min` are stored keys. `max` is not earlier than any stored day, `min` not later than any, and `min` is not after `max`. |
| DataRoutes.RangeWithInvalidKey | routes/data.ts:50-53 | One key that does not read as a day makes both ends "Invalid date". |
| DataRoutes.RangeOfEmptyStore | routes/data.ts:50-53 | An empty store gives today's key for both ends. |
| DataRoutes.RangeExample | routes/data.ts:41-60 | The keys 01-15-2021, 03-01-2022 and 02-20-2021 give max 03-01-2022 and min 01-15-2021. |
| Http.ServerError | routes/data.ts:20-23 | A thrown query answers status 500 with the message "Server Error". |
| DataRoutesJs.Today | routes/data.js:8-19 | Answers 200 with only the data of yesterday's record, or nothing; 500 when the query throws. |
| DataRoutesJs.Range | routes/data.js:22-40 | Answers 200 with the two moments when the query succeeds, and 500 when it throws. |
| DataRoutesJs.RangeIsChronological | routes/data.js:22-40 | Over a non-empty store whose keys all read as days, both moments are valid and both are stored days. Max is not earlier than any stored day, min not later than any, and min is not after max. |
| DataRoutesJs.ByDate | routes/data.js:43-64 | Answers 200 with the parsed rows of the record with exactly that key. When there is no such record, parsing `undefined` throws and the answer is 500, as it is when the query throws. |
| DataRoutesJs.ByDateIsExactKey | routes/data.js:43-64 | A 200 answer holds the parsed CSV of a stored record whose key equals the request. |
| App.NatDigits | client/src/App.jsx:38 | The decimal digits of a natural number: non-empty, all digits, and no leading zero except for 0 itself. |
| App.NatDigitsValue | client/src/App.jsx:38 | The digits of `n`, read back from the left, give `n`. |
| App.IntToString | client/src/App.jsx:38 | `toString()` of an integer: a non-empty string with no leading zero (except "0" itself). The digits of a non-negative number spell it; a negative number is `-` followed by digits that spell its absolute value. |
| App.MatchAt | client/src/App.jsx:39 | Where `/(-?\d+)(\d{3})/` matches at one position: an optional `-`, then a run of at least four digits, with the greedy `\d+` giving back exactly the run's last three digits to `\d{3}`; group 1 ends three digits before the run's end. |
| App.FirstMatch | client/src/App.jsx:39-40 | `/(-?\d+)(\d{3})/` finds a match iff it matches at some position. |
| App.FirstMatchLeftmost | client/src/App.jsx:39-41 | The match found is the one at a position where the pattern matches, and it matches at no earlier position: the leftmost match, which `test` and `replace` use. |
| App.Groups | client/src/App.jsx:39-41 | The digits split from the right: the first group has one to three digits, every later group has exactly three, and together they are the digits. |
| App.NumberWithCommas | client/src/App.jsx:37-43 | The loop prints the sign followed by the digit groups joined by commas. Deleting the commas gives back `toString()`. Numbers between -999 and 999 come back unchanged. A leading `-` is kept, and only negative numbers get one. |
| App.GroupedRoundTrip | client/src/App.jsx:37-43 | Deleting every comma from the grouped text gives back `n.toString()`. |
| App.GroupedSmall | client/src/App.jsx:37-43 | Numbers with at most three digits are printed unchanged. |
| App.Grouped | client/src/App.jsx:37-43 | What the function is meant to print: the sign, then the digit groups of `Groups` joined by commas. Its meaning is stated by the two lemmas above. |
| App.FirstMatchOnShape | client/src/App.jsx:39-41 | On text of the form sign, head digits, then comma groups: the pattern matches iff the head has four or more digits, and then it matches at the last three digits of the head. |
| App.LoopStep | client/src/App.jsx:40-41 | One `replace` inserts the comma before the last three digits of the ungrouped head. That moves those digits into the comma groups and keeps the invariant. |
| App.CheckDateInRange | client/src/App.jsx:194-196 | True iff the range is loaded, the date and both ends are valid, and min ≤ date < max. Before the range loads, nothing is in range. |
| App.ChangeDate | client/src/App.jsx:198-208 | A date out of range leaves the selection unchanged and fetches nothing. A date in range becomes the selection and fetches `/data/MM-DD-YYYY`, whose key reads back as that same day. |
| App.StoredDaySelectable | client/src/App.jsx:194-196 | Over a store whose keys all read as days, with the range served by `/range`, a stored day can be picked exactly when it is not the latest stored day. |
| App.KeepCountry | client/src/App.jsx:160 | The filtered rows appear in the data in the same order, all have the country, and there are as many as the data has rows of that country. |
| App.CountBound | client/src/App.jsx:160 | No ordered selection of rows of one country has more rows than the data has for it. |
| App.KeepCountryUnique | client/src/App.jsx:160 | The filter's contract has exactly one solution: the filter's result. |
| App.FilterByCountry | client/src/App.jsx:160 | With a non-empty active country: exactly that country's rows, in their original order. With none, or an empty name: all the data. |
| App.FilterByCountryIdempotent | client/src/App.jsx:160 | Filtering the filtered data again by the same country changes nothing. |
| App.StartLoading | client/src/App.jsx:106-111 | Sets the named flag and keeps every other flag of the snapshot. |
| App.StopLoading | client/src/App.jsx:113-118 | Clears the named flag and keeps every other flag of the snapshot. |
| App.IsLoading | client/src/App.jsx:251 | `Object.values(loading).some(i => i)`: loading iff some flag is true. |
| App.InitiallyLoading | client/src/App.jsx:59-64 | The initial flags already show the spinner, because the data is loading. |
| App.StartedIsLoading | client/src/App.jsx:251 | After `startLoading` the app is loading. |
| App.StoppedIsLoading | client/src/App.jsx:251 | After `stopLoading(val)` the app is loading iff some other flag of the snapshot is set. |

## Left out

- Network I/O is not modelled. The GitHub API calls, their authentication and the waiting time a
  rate limit announces are out. The answers to each attempt are a parameter, and an attempt
  past the given answers is a transport failure.
- Concurrency is not modelled. The blobs are handled in parallel under `Promise.all`; the model
  handles them one after the other, in listing order. Two files with the same key can race
  between `findOne` and `save`; with a sequential model that race cannot occur.
- Store faults are modelled as a set of keys whose operations throw, the same on every call.
  Transient faults are not modelled.
- The mongoose `required` validation on `date` and `data` is not modelled. It rejects an
  empty string on `save`, so an empty blob would make `save` throw.
- CSV parsing by `d3-dsv` is not modelled: the parser is a function parameter, and rows are
  reduced to the `country` and `fullLocation` columns. The `+` coercions to floating point
  are not modelled either.
- `DataRoutes.KeyMoments`: `moment(date)` without a format, in routes/data.ts:50, falls back to
  the JavaScript `Date` parser. `moment(date, "MM-DD-YYYY")` in routes/data.js:30 passes no
  strict flag, so it parses in forgiving mode ("1-5-2022" and "01-05-2022x" give valid
  moments there). Both routers are modelled with a strict `MM-DD-YYYY` reading
  (`Calendar.ParseKey`). That agrees with both parsers on keys that name a calendar day. It
  does not capture how they treat other strings: single-digit fields, trailing text, or
  overflowing days such as "02-30-2021", which the `Date` fallback rolls over to March 2.
- Time of day, time zones (the client's default zone) and millisecond granularity are not
  modelled; the model works with whole days. For `isBetween(min, max, undefined, '[)')` with
  ends at midnight this gives the same answer for any time on the picked day.
- `Calendar.FormatKey`: years outside 0..9999 are not modelled; their `YYYY` is not four digits.
- `App.NatDigits`: `toString()` of non-integers, of numbers of 1e21 and above (exponent form),
  of `NaN` and of `undefined` is not modelled; the model takes an integer.
- `GetData.ToLower` handles only the ASCII letters, not the rest of Unicode. JavaScript's
  `toLowerCase` can change the length ("İ" becomes two code units), so the length clause of
  `GetData.LowercaseFirstLetter` holds for this ASCII model only.
- The client's `data` before the first load (`undefined`), `setMaxNumber`, the altitude and
  colour scale arithmetic, the globe, the window and the rest of the UI are not modelled.
- React's batching is not modelled. Several `startLoading`/`stopLoading` calls made from one
  render all start from that render's snapshot, and the last one wins. The model states what
  each call computes from its snapshot.
- `getDateRange` and `getConfirmed` are not modelled beyond the fetch that `ChangeDate` issues.
  They are network calls whose outcome only sets state.
- `util/getData.ts` neither normalises the CSV column names nor keeps a `lastUpdate` field.
  The model follows the code, which stores the raw blob unchanged.
