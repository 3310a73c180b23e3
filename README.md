# ContestHub backend: the contest aggregator, modelled in Dafny

The backend is one script, `main.py`. It asks six programming-contest
platforms for their contests: CodeChef, Codeforces, GeeksforGeeks,
LeetCode, HackerEarth and AtCoder. It turns each platform's contests into
records of the same shape:

- platform
- title
- url
- start time
- duration in seconds

It concatenates the six lists in that fixed order and writes them out.
Finally it stamps the repository README with a "Last updated:" line.

This project models the deterministic rules under the network and file
plumbing:

- each adapter's per-item normalisation and its loop that drops items
  with `continue`;
- the "ongoing or upcoming only" filter of Codeforces and LeetCode;
- the duration arithmetic of a `timedelta`;
- AtCoder's "H:MM" durations;
- HackerEarth's event slug, URL and title whitespace clean-up;
- the six-way concatenation;
- `format_date`'s ordinal suffix;
- the replace-or-append update of the "Last updated:" line.

Modules:

- `Text` (text.dfy): the Python string operations the adapters use,
  written out on `seq<char>`:
  - `str.isspace`;
  - `' '.join(s.split())`;
  - `strip`;
  - `split(sep)`;
  - `startswith`;
  - `s[:-1]`;
  - `int(s)`;
  - `str(n)`.
- `Contest` (contest.dfy): the record, the platform, and the `timedelta`
  normal form behind the `duration` field. Instants are integer seconds
  since the epoch.
- `Adapter` (adapter.dfy): the generic loop of every `fetch_*` function.
  Each item *emits* a record, is *skipped* with `continue`, or *raises*
  out of the adapter.
- `Platforms` (platforms.dfy): the six adapters' item rules, and what
  each does with its primary request.
- `Aggregation` (aggregation.dfy): the top-level concatenation.
- `DateFormat` (format_date.dfy): `format_date`.
- `LastUpdated` (readme_stamp.dfy): the README stamp block, and the
  README's lines as `readlines` reads them and `writelines` writes them.

The code isolates failures only in parts:

- The HackerEarth and AtCoder adapters catch every failure of their
  primary request and of each item. The model returns a list for them
  (`Page`).
- CodeChef catches per-item failures: a bad item is skipped.
- Codeforces, GeeksforGeeks and LeetCode have no `try` around the loop
  body. A missing key or an unparsable number there raises out of the
  adapter (`Step.Raise`).
- The four JSON adapters catch nothing around `requests.get`,
  `response.json()` or the top-level keys of the body. A connection
  error, a body that is not JSON, or a missing top-level key therefore
  escapes (`Response.Unhandled`).
- The script has no handler either. Any such raise ends the run with no
  list written (`Outcome.Raised`, `Aggregation.Combine`).
- A response that is not `ok` does give that adapter's `[]`.

## Model

| member | source | states |
|---|---|---|
| `Contest.Difference` | main.py:32 | `later - earlier` as a timedelta: days and a seconds part in `0 <= seconds < 86400` |
| `Contest.DurationIsElapsed` | main.py:41 | the duration field `seconds + days * 86400` equals `end - start` exactly, and is non-negative iff the end is not before the start |
| `Adapter.CollectItems` | main.py:21-43 | the `for`/`continue`/`append` loop returns exactly the emitted records in item order, or raises iff some item raises |
| `Adapter.EmittedInOrder` | main.py:52-67 | the output is an order-preserving subsequence of the items: the k-th record comes from the k-th emitting item, positions increase, and an item emits iff its position is listed |
| `Adapter.EmittedAppend` | main.py:25-26 | looping over `a + b` yields a's records followed by b's |
| `Adapter.SkippedItemIsolated` | main.py:33-34 | a skipped item removes only itself; the records before and after it are those the neighbours give alone |
| `Text.Collapse` | main.py:156 | the cleaned-up title has no leading or trailing whitespace, no whitespace other than single plain spaces, and the same non-whitespace characters in the same order |
| `Text.CollapseWords` | main.py:156 | the cleaned-up title has exactly the words of the original, so each run of whitespace between two words becomes one space |
| `Text.WordsOfJoin` | main.py:156 | splitting words joined by single spaces gives the same words back |
| `Text.CollapseIdempotent` | main.py:156 | cleaning a title twice gives the same result as cleaning it once |
| `Text.CollapseFixpoints` | main.py:156 | a text is left unchanged by the clean-up iff it already has the collapsed shape |
| `Text.Trim` | main.py:163 | `strip(chars)` is no longer than its input and starts and ends with no stripped character |
| `Text.TrimWindow` | main.py:163 | `strip(chars)` is a slice of its input with only stripped characters before and after it, so the middle is kept unchanged |
| `Text.TrimKeeps` | main.py:163 | `strip` leaves a text unchanged when its ends are not stripped characters |
| `Text.Split` | main.py:224 | `split(sep)` gives at least one part, more than one iff `sep` occurs, and no part contains `sep` |
| `Text.JoinSplit` | main.py:224 | joining the parts of `split(sep)` with `sep` gives the text back |
| `Text.SplitAtFirst` | main.py:224 | splitting `a + sep + b` with `sep` not in `a` gives `a` followed by the parts of `b` |
| `Text.LastPartIsSuffix` | main.py:163 | `split(sep)[-1]` is the suffix after the last separator, or the whole text when there is none |
| `Text.DropLast` | main.py:175-176 | `s[:-1]` followed by the last character gives `s` back, and is empty for an empty `s` |
| `Text.ParseDigits` | main.py:225 | `int()` (`ParseInt`: surrounding whitespace, a sign, digits with single underscores) reads a plain decimal digit string as its value |
| `Text.SeparatorNotSkipped` | main.py:225 | `int()` does not skip the ASCII separators 0x1C..0x1F that `str.strip` removes: `int("5\x1c")` is an error |
| `Text.ParseShow` | main.py:269 | `int(str(n)) == n` (`Show` is `str()` of a natural number) for every natural number, with no limit on the number of digits |
| `Platforms.CodeChefStep` | main.py:27-42 | a CodeChef entry never raises; it gives a record iff its name, code and both dates are present, with url `https://www.codechef.com/` + code and duration end minus start |
| `Platforms.FetchCodeChef` | main.py:21-43 | the adapter raises on an unhandled request, returns `[]` on a bad status, else loops over present then future contests |
| `Platforms.CodeChefPresentThenFuture` | main.py:25-26 | CodeChef's list is the present contests' records followed by the future ones', each in order |
| `Platforms.CodeChefItemIsolated` | main.py:26-35 | a CodeChef entry that fails leaves the records of the entries around it unchanged |
| `Platforms.CodeforcesStep` | main.py:52-67 | a Codeforces entry raises iff a field is missing; it is kept iff `start + duration > now`, and its record keeps the given duration |
| `Platforms.FetchCodeforces` | main.py:45-68 | the adapter's result for each kind of response |
| `Platforms.CodeforcesOnlyRunning` | main.py:52-58 | the adapter raises iff some entry is incomplete, and every record it returns is a Codeforces contest that ends after `now` |
| `Platforms.CodeforcesEndedIsolated` | main.py:57-58 | a contest that has already ended drops out without disturbing the others |
| `Platforms.GeeksforGeeksStep` | main.py:81-94 | a GeeksforGeeks entry raises iff a field is missing, is never skipped, and its record has duration end minus start |
| `Platforms.FetchGeeksforGeeks` | main.py:70-95 | the adapter's result for each kind of response |
| `Platforms.GeeksforGeeksRaises` | main.py:80-94 | the adapter raises iff some entry is incomplete |
| `Platforms.GeeksforGeeksOnePerItem` | main.py:80-94 | with complete entries the adapter returns exactly one record per entry, in order |
| `Platforms.LeetCodeStep` | main.py:115-130 | a LeetCode entry raises iff a field is missing; it is kept iff `start + duration > now`, and its record keeps the given duration |
| `Platforms.FetchLeetCode` | main.py:98-131 | the adapter's result for each kind of response |
| `Platforms.LeetCodeOnlyRunning` | main.py:118-121 | the adapter raises iff some entry is incomplete, and every record it returns is a LeetCode contest that ends after `now` |
| `Platforms.EventSlugIsLastSegment` | main.py:163 | the slug `EventSlug(href)` is the last `/`-free segment of the href once its leading and trailing `/` are removed |
| `Platforms.HackerEarthStep` | main.py:150-195 | a card never raises; it gives a record iff it has a title span, a link and detail dates that parse (`DetailTimes`: each date loses its last character before parsing, main.py:175-176); the title is whitespace-collapsed, the url is `https://www.hackerearth.com` + the unmodified href, the duration is end minus start |
| `Platforms.FetchHackerEarth` | main.py:134-197 | the adapter returns `[]` when the listing request fails, else the cards' records in order |
| `Platforms.HackerEarthCardIsolated` | main.py:150-195 | a card that gives no record leaves the others' records unchanged |
| `Platforms.ClockParts` | main.py:224 | a cell `H:MM` of digits strips and splits into exactly its two fields |
| `Platforms.DurationMinutesOfClock` | main.py:224-225 | a cell `H:MM` of decimal digits reads (`DurationMinutes`, which strips and splits the cell, then `ClockMinutes`) as `H * 60 + MM` minutes |
| `Platforms.AtCoderStep` | main.py:215-237 | a row never raises; it gives a record iff its time parses, its link and href exist and its length reads as minutes; the duration is those minutes times 60, so a multiple of 60 |
| `Platforms.AtCoderClockRow` | main.py:224-233 | a readable row whose length cell is `H:MM` gives a record of `(H * 60 + MM) * 60` seconds |
| `Platforms.AtCoderRowIsolated` | main.py:215-237 | a row that gives no record leaves the records of the rows around it unchanged |
| `Platforms.FetchAtCoder` | main.py:200-239 | the adapter returns `[]` when the listing request fails, else the rows' records in order |
| `Aggregation.FetchAll` | main.py:242-249 | calling the six adapters in order gives their concatenation, or raises as soon as one raises |
| `Aggregation.ScriptRaises` | main.py:242-249 | the script raises iff a JSON request is unhandled or a Codeforces, GeeksforGeeks or LeetCode body holds an incomplete entry |
| `Aggregation.CodeChefRaises` | main.py:21-43 | CodeChef raises iff its request is unhandled |
| `Aggregation.CodeforcesRaises` | main.py:45-68 | Codeforces raises iff its request is unhandled or some entry is incomplete |
| `Aggregation.GeeksforGeeksFailsRaises` | main.py:70-95 | GeeksforGeeks raises iff its request is unhandled or some entry is incomplete |
| `Aggregation.LeetCodeRaises` | main.py:98-131 | LeetCode raises iff its request is unhandled or some entry is incomplete |
| `Aggregation.CombineLength` | main.py:242-249 | the combined list is as long as the six lists together |
| `Aggregation.CombineKeepsEach` | main.py:242-249 | each platform's records in the combined list are exactly its adapter's list in its own order, so an empty adapter result disturbs no other |
| `Aggregation.AdaptersLabel` | main.py:37 | every adapter labels each of its records with its own platform |
| `Aggregation.AllContestsKeepsEach` | main.py:242-249 | in the script's list, each platform's records are exactly what that adapter returned |
| `DateFormat.SuffixIsEnglish` | main.py:262-269 | for the days 1 to 31 the chosen suffix (`OrdinalSuffix`) agrees with the English ordinal rule |
| `DateFormat.SuffixTable` | main.py:262-269 | among days 1 to 31: "st" iff 1, 21, 31; "nd" iff 2, 22; "rd" iff 3, 23; "th" otherwise |
| `DateFormat.FormatDateFields` | main.py:258-269 | the text `FormatDate` builds splits at spaces into day plus suffix, month and year, and day and year read back as numbers |
| `DateFormat.Examples` | main.py:258-269 | the 1st and the 12th render as "1st Jan 2024" and "12th Feb 2024" |
| `DateFormat.LateExamples` | main.py:258-269 | the 22nd and the 23rd render as "22nd Mar 2024" and "23rd Sep 2024" |
| `LastUpdated.StampLine` | main.py:284 | the written line starts with the "Last updated:" marker |
| `LastUpdated.FirstStamp` | main.py:282-286 | the position of the first line starting with "Last updated:", or the number of lines when there is none |
| `LastUpdated.UpdateStamp` | main.py:281-289 | the loop with its `break` and the final append produce exactly the replace-first-or-append result |
| `LastUpdated.StampShape` | main.py:281-289 | in the lines written back (`WithStamp`): with a stamp line, only the first is replaced and the length is unchanged; without one, exactly one line is appended after the unchanged lines |
| `LastUpdated.FirstStampAfter` | main.py:281-289 | after an update the first stamp line is where it was, or is the appended line |
| `LastUpdated.StampRerun` | main.py:281-289 | applying the update twice to one list of lines equals applying only the second: the second update replaces the first update's line and no line is added |
| `LastUpdated.ReadWritten` | main.py:277-278 | reading back (`ReadLines`, `readlines`) lines that each end with a newline, after `WriteLines` (`writelines`, main.py:291-292), gives the same lines |
| `LastUpdated.RunTwice` | main.py:277-292 | for a README that is empty or ends with a newline, running the script twice (`Run`) leaves the file the second run alone would write: the first run's stamp line is replaced and no line is added |
| `LastUpdated.GluedNotStamp` | main.py:282-283 | a line that is not a stamp line is still not one with a stamp line glued onto its end |
| `LastUpdated.GluedStamp` | main.py:277-292 | for a one-line README with no final newline that is not itself a stamp line, the stamp is glued onto that line, and the next run appends a second stamp |

## Left out

- Network requests. HTTP, query parameters, timeouts and status checks
  are left out. A primary request is an input: `Response` for the JSON
  adapters, `Page` for the two scrapers. HackerEarth's detail request
  is a function `details` from URL to `Details`.
- HTML parsing. BeautifulSoup and the CSS selectors are left out. The
  selected elements are inputs with optional fields (`Card`, `Row`).
- JSON decoding. Bodies are given already decoded into items with
  optional fields.
- Library date and time handling is left out: `fromisoformat`,
  `strptime`, `fromtimestamp`, `ZoneInfo`, `astimezone`, `isoformat` and
  `strftime`. Instants are integer seconds.
  - The HackerEarth and AtCoder parsers are parameters
    (`parseIso`, `parseTime`). The string operations before them are
    modelled: `[:-1]` and `strip`.
  - For CodeChef, GeeksforGeeks, Codeforces and LeetCode, an item field
    holding a time is `None` when the parser or number conversion rejects
    it.
- `Platforms.CodeChefStep`: two dates of which one carries a UTC offset
  and the other not make `end_time - start_time` raise `TypeError`
  (main.py:32), and the bare `except` skips the entry. The model parses
  each date to an instant and emits the record.
- `Platforms.HackerEarthStep`: the same naive-minus-aware `TypeError` at
  main.py:177 skips the card through `except Exception`; the model emits.
- `Platforms.CodeforcesStep`: a timestamp or duration outside the range
  of `datetime` makes `fromtimestamp` or `+ timedelta` raise
  (main.py:55-56), ending the adapter; the model has unbounded instants
  and emits or skips the entry.
- `Platforms.LeetCodeStep`: the same out-of-range errors at
  main.py:118-119 are not modelled.
  - The `start_time` text is not modelled; a record holds the instant.
- Floating point. Codeforces' `float(...)` conversions are modelled as
  whole seconds. The sub-second part of a time is not modelled.
- The random `uuid4` id of a record is not modelled.
- Record ids as text. Codeforces' `data['id']` is modelled as the text
  that f-string formatting produces.
- Output files. `json.dump` to `contests` and `contests.json`, the README
  read and write, and `print` diagnostics are I/O.
  - The README's text is an input. `readlines` and `writelines` are
    modelled on it (`LastUpdated.ReadLines`, `LastUpdated.WriteLines`);
    text mode's newline translation (`"\r\n"` read as `"\n"`) is not.
- The stamp text `date_time_str` is a parameter: it needs the wall clock,
  a time zone and `strftime`.
  - `format_date` takes the month text that `strftime("%b")` gives.
  - `datetime.now` for the Codeforces and LeetCode filter is the
    parameter `now`.
- `Platforms.FetchCodeforces`: the source reads the clock again for each
  item (main.py:57); the model compares every item with the one instant
  `now`, so a contest ending while the loop runs is not modelled.
- `Platforms.FetchLeetCode`: the same for main.py:120.
- `Aggregation.FetchAll`: Codeforces and LeetCode see the same `now`,
  although the source reads the clock separately in each adapter.
- `Text.ParseShow`: CPython refuses `str(n)` and `int(s)` beyond 4300
  decimal digits by default (a `ValueError`; the limit is configurable).
  The model has no such limit, so this round trip is stated for every
  natural number.
- `Text.ParseInt`: the same digit limit is not modelled; it also bounds
  the LeetCode times (main.py:118-119) and the Codeforces id formatted
  into the URL (main.py:54), which the model takes as already converted.
- `Text.ParseDigits`: `int()` also accepts non-ASCII decimal digits, and
  these are not modelled. Underscores between digits, a sign and
  surrounding whitespace are.
- Order of effects. The six adapters' side effects (requests made before
  a later adapter raises) are not modelled, only the resulting list.
