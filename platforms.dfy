/** The six `fetch_*` adapters: how one item of each platform becomes a
    record, and what each adapter does with the outcome of its primary
    request. Fetched payloads are inputs; where a library parser stands
    between the text and an instant (`fromisoformat`, `strptime`), the
    parser is a parameter and the string operations before it are kept. */
module Platforms {
  import opened Text
  import opened Contest
  import opened Adapter

  /** The primary request of a JSON adapter. `Unhandled` is everything the
      source lets escape: `requests.get` raising, a body that is not JSON,
      or JSON without the expected top-level keys. `NotOk` is a response
      whose status is not a success: the adapter then returns `[]`. */
  datatype Response<B> = Unhandled | NotOk | Ok(body: B)

  /** The primary request of an HTML-scraping adapter. Every
      `RequestException` is caught there and the adapter returns `[]`. */
  datatype Page<T> = RequestFailed | Fetched(items: seq<T>)

  /** The "ongoing or upcoming" rule: a contest is kept unless its end
      time is at or before `now`. */
  predicate EndsAfter(start: int, duration: int, now: int) {
    start + duration > now
  }

  // ---------------------------------------------------------------------
  // CodeChef
  // ---------------------------------------------------------------------

  const CODECHEF_URL := "https://www.codechef.com/"

  /** One CodeChef contest object. A field is `None` when its key is
      missing; a date is also `None` when `fromisoformat` rejects it. */
  datatype CodeChefItem = CodeChefItem(name: Option<string>, code: Option<string>,
                                       start: Option<int>, end: Option<int>)

  /** The "present_contests" and "future_contests" lists of the body. */
  datatype CodeChefLists = CodeChefLists(present: seq<CodeChefItem>, future: seq<CodeChefItem>)

  /** The body of the CodeChef loop: every failure inside its `try` skips
      the item; a complete item gives a record whose duration is the time
      between its two dates. */
  function CodeChefStep(item: CodeChefItem): (s: Step)
    ensures !s.Raise?
    ensures s.Emit? <==> item.name.Some? && item.code.Some? && item.start.Some? && item.end.Some?
    ensures s.Emit? ==> s.contest == Contest(CodeChef, item.name.value, CODECHEF_URL + item.code.value,
                                             item.start.value, item.end.value - item.start.value)
  {
    if item.name.None? || item.code.None? || item.start.None? || item.end.None? then Skip
    else
      var start, end := item.start.value, item.end.value;
      DurationIsElapsed(start, end);
      Emit(Contest(CodeChef, item.name.value, CODECHEF_URL + item.code.value,
                   start, DurationField(Difference(end, start))))
  }

  function CodeChefContests(response: Response<CodeChefLists>): Outcome {
    match response
    case Unhandled => Raised
    case NotOk => Returned([])
    case Ok(lists) => Collect(lists.present + lists.future, CodeChefStep)
  }

  /** The executable form of `CodeChefContests`: the adapter's loop itself. */
  method FetchCodeChef(response: Response<CodeChefLists>) returns (out: Outcome)
    ensures out == CodeChefContests(response)
  {
    match response
    case Unhandled => out := Raised;
    case NotOk => out := Returned([]);
    case Ok(lists) => out := CollectItems(lists.present + lists.future, CodeChefStep);
  }

  /** A CodeChef body never makes the adapter raise; the running contests
      come out before the future ones, each list in its own order. */
  lemma CodeChefPresentThenFuture(lists: CodeChefLists)
    ensures CodeChefContests(Ok(lists))
            == Returned(Emitted(lists.present, CodeChefStep) + Emitted(lists.future, CodeChefStep))
  {
    EmittedAppend(lists.present, lists.future, CodeChefStep);
  }

  // ---------------------------------------------------------------------
  // Codeforces
  // ---------------------------------------------------------------------

  const CODEFORCES_URL := "https://codeforces.com/contests/"

  /** One entry of "result"; `None` is a missing key (or, for the numbers,
      a value `float()` rejects). */
  datatype CodeforcesItem = CodeforcesItem(name: Option<string>, id: Option<string>,
                                           startTimeSeconds: Option<int>, durationSeconds: Option<int>)

  predicate CodeforcesComplete(item: CodeforcesItem) {
    item.name.Some? && item.id.Some? && item.startTimeSeconds.Some? && item.durationSeconds.Some?
  }

  /** The body of the Codeforces loop. It has no `try`, so an incomplete
      item raises; a complete one is kept exactly when it ends after
      `now`, and its duration is the one the platform gave. */
  function CodeforcesStep(item: CodeforcesItem, now: int): (s: Step)
    ensures s.Raise? <==> !CodeforcesComplete(item)
    ensures s.Emit? <==> CodeforcesComplete(item)
                         && EndsAfter(item.startTimeSeconds.value, item.durationSeconds.value, now)
    ensures s.Emit? ==> s.contest == Contest(Codeforces, item.name.value, CODEFORCES_URL + item.id.value,
                                             item.startTimeSeconds.value, item.durationSeconds.value)
  {
    if !CodeforcesComplete(item) then Raise
    else
      var start := item.startTimeSeconds.value;
      var end := start + item.durationSeconds.value;
      if end <= now then Skip
      else
        DurationIsElapsed(start, end);
        Emit(Contest(Codeforces, item.name.value, CODEFORCES_URL + item.id.value,
                     start, DurationField(Difference(end, start))))
  }

  function CodeforcesSteps(now: int): CodeforcesItem -> Step {
    item => CodeforcesStep(item, now)
  }

  function CodeforcesContests(response: Response<seq<CodeforcesItem>>, now: int): Outcome {
    match response
    case Unhandled => Raised
    case NotOk => Returned([])
    case Ok(items) => Collect(items, CodeforcesSteps(now))
  }

  /** The executable form of `CodeforcesContests`: the adapter's loop itself. */
  method FetchCodeforces(response: Response<seq<CodeforcesItem>>, now: int) returns (out: Outcome)
    ensures out == CodeforcesContests(response, now)
  {
    match response
    case Unhandled => out := Raised;
    case NotOk => out := Returned([]);
    case Ok(items) => out := CollectItems(items, CodeforcesSteps(now));
  }

  /** The Codeforces adapter raises exactly when some entry is incomplete,
      and otherwise returns only contests that end after `now`. */
  lemma CodeforcesOnlyRunning(items: seq<CodeforcesItem>, now: int)
    ensures CodeforcesContests(Ok(items), now).Raised?
            <==> exists i :: 0 <= i < |items| && !CodeforcesComplete(items[i])
    ensures forall c :: c in Emitted(items, CodeforcesSteps(now)) ==>
              c.platform == Codeforces && EndsAfter(c.start, c.duration, now)
  {
    var step := CodeforcesSteps(now);
    if exists i :: 0 <= i < |items| && !CodeforcesComplete(items[i]) {
      var i :| 0 <= i < |items| && !CodeforcesComplete(items[i]);
      assert step(items[i]).Raise?;
    }
    EmittedSatisfy(items, step, (c: Contest) => c.platform == Codeforces && EndsAfter(c.start, c.duration, now));
  }

  // ---------------------------------------------------------------------
  // GeeksforGeeks
  // ---------------------------------------------------------------------

  const GEEKSFORGEEKS_URL := "https://practice.geeksforgeeks.org/contest/"

  /** One entry of "results"/"upcoming". */
  datatype GeeksforGeeksItem = GeeksforGeeksItem(name: Option<string>, slug: Option<string>,
                                                 startTime: Option<int>, endTime: Option<int>)

  predicate GeeksforGeeksComplete(item: GeeksforGeeksItem) {
    item.name.Some? && item.slug.Some? && item.startTime.Some? && item.endTime.Some?
  }

  /** The body of the GeeksforGeeks loop: no `try` and no filter. */
  function GeeksforGeeksStep(item: GeeksforGeeksItem): (s: Step)
    ensures s.Raise? <==> !GeeksforGeeksComplete(item)
    ensures !s.Skip?
    ensures s.Emit? ==> s.contest == Contest(GeeksforGeeks, item.name.value, GEEKSFORGEEKS_URL + item.slug.value,
                                             item.startTime.value, item.endTime.value - item.startTime.value)
  {
    if !GeeksforGeeksComplete(item) then Raise
    else
      var start, end := item.startTime.value, item.endTime.value;
      DurationIsElapsed(start, end);
      Emit(Contest(GeeksforGeeks, item.name.value, GEEKSFORGEEKS_URL + item.slug.value,
                   start, DurationField(Difference(end, start))))
  }

  function GeeksforGeeksContests(response: Response<seq<GeeksforGeeksItem>>): Outcome {
    match response
    case Unhandled => Raised
    case NotOk => Returned([])
    case Ok(items) => Collect(items, GeeksforGeeksStep)
  }

  /** The executable form of `GeeksforGeeksContests`: the adapter's loop itself. */
  method FetchGeeksforGeeks(response: Response<seq<GeeksforGeeksItem>>) returns (out: Outcome)
    ensures out == GeeksforGeeksContests(response)
  {
    match response
    case Unhandled => out := Raised;
    case NotOk => out := Returned([]);
    case Ok(items) => out := CollectItems(items, GeeksforGeeksStep);
  }

  /** With every entry complete, GeeksforGeeks returns one record per
      entry, in order. */
  lemma {:induction false} GeeksforGeeksOnePerItem(items: seq<GeeksforGeeksItem>)
    requires forall i :: 0 <= i < |items| ==> GeeksforGeeksComplete(items[i])
    ensures GeeksforGeeksContests(Ok(items)) == Returned(Emitted(items, GeeksforGeeksStep))
    ensures |Emitted(items, GeeksforGeeksStep)| == |items|
    ensures forall k :: 0 <= k < |items| ==>
              Emitted(items, GeeksforGeeksStep)[k] == GeeksforGeeksStep(items[k]).contest
  {
    if items != [] {
      var front := items[..|items| - 1];
      GeeksforGeeksOnePerItem(front);
      assert forall k :: 0 <= k < |front| ==> front[k] == items[k];
    }
  }

  /** The GeeksforGeeks adapter raises exactly when some entry is incomplete. */
  lemma GeeksforGeeksRaises(items: seq<GeeksforGeeksItem>)
    ensures GeeksforGeeksContests(Ok(items)).Raised?
            <==> exists i :: 0 <= i < |items| && !GeeksforGeeksComplete(items[i])
  {
    if exists i :: 0 <= i < |items| && !GeeksforGeeksComplete(items[i]) {
      var i :| 0 <= i < |items| && !GeeksforGeeksComplete(items[i]);
      assert GeeksforGeeksStep(items[i]).Raise?;
    }
  }

  // ---------------------------------------------------------------------
  // LeetCode
  // ---------------------------------------------------------------------

  const LEETCODE_URL := "https://leetcode.com/contest/"

  /** One entry of "data"/"allContests". */
  datatype LeetCodeItem = LeetCodeItem(title: Option<string>, titleSlug: Option<string>,
                                       startTime: Option<int>, duration: Option<int>)

  predicate LeetCodeComplete(item: LeetCodeItem) {
    item.title.Some? && item.titleSlug.Some? && item.startTime.Some? && item.duration.Some?
  }

  /** The body of the LeetCode loop: no `try`; kept exactly when the
      contest ends after `now`. */
  function LeetCodeStep(item: LeetCodeItem, now: int): (s: Step)
    ensures s.Raise? <==> !LeetCodeComplete(item)
    ensures s.Emit? <==> LeetCodeComplete(item) && EndsAfter(item.startTime.value, item.duration.value, now)
    ensures s.Emit? ==> s.contest == Contest(LeetCode, item.title.value, LEETCODE_URL + item.titleSlug.value,
                                             item.startTime.value, item.duration.value)
  {
    if !LeetCodeComplete(item) then Raise
    else
      var start := item.startTime.value;
      var end := start + item.duration.value;
      if end <= now then Skip
      else
        DurationIsElapsed(start, end);
        Emit(Contest(LeetCode, item.title.value, LEETCODE_URL + item.titleSlug.value,
                     start, DurationField(Difference(end, start))))
  }

  function LeetCodeSteps(now: int): LeetCodeItem -> Step {
    item => LeetCodeStep(item, now)
  }

  function LeetCodeContests(response: Response<seq<LeetCodeItem>>, now: int): Outcome {
    match response
    case Unhandled => Raised
    case NotOk => Returned([])
    case Ok(items) => Collect(items, LeetCodeSteps(now))
  }

  /** The executable form of `LeetCodeContests`: the adapter's loop itself. */
  method FetchLeetCode(response: Response<seq<LeetCodeItem>>, now: int) returns (out: Outcome)
    ensures out == LeetCodeContests(response, now)
  {
    match response
    case Unhandled => out := Raised;
    case NotOk => out := Returned([]);
    case Ok(items) => out := CollectItems(items, LeetCodeSteps(now));
  }

  /** The LeetCode adapter raises exactly when some entry is incomplete,
      and otherwise returns only contests that end after `now`. */
  lemma LeetCodeOnlyRunning(items: seq<LeetCodeItem>, now: int)
    ensures LeetCodeContests(Ok(items), now).Raised?
            <==> exists i :: 0 <= i < |items| && !LeetCodeComplete(items[i])
    ensures forall c :: c in Emitted(items, LeetCodeSteps(now)) ==>
              c.platform == LeetCode && EndsAfter(c.start, c.duration, now)
  {
    var step := LeetCodeSteps(now);
    if exists i :: 0 <= i < |items| && !LeetCodeComplete(items[i]) {
      var i :| 0 <= i < |items| && !LeetCodeComplete(items[i]);
      assert step(items[i]).Raise?;
    }
    EmittedSatisfy(items, step, (c: Contest) => c.platform == LeetCode && EndsAfter(c.start, c.duration, now));
  }

  // ---------------------------------------------------------------------
  // HackerEarth
  // ---------------------------------------------------------------------

  const HACKEREARTH_URL := "https://www.hackerearth.com"
  const EVENTS_API := "https://www.hackerearth.com/challengesapp/api/events/"
  const EVENTS_QUERY := "/?only_meta=false"

  /** One `div.challenge-card-modern` of the upcoming section: the text of
      its title span and the `href` of its card link, `None` when the
      element or the attribute is missing. */
  datatype Card = Card(titleText: Option<string>, href: Option<string>)

  /** The per-contest detail request: failed (any `RequestException`, a
      bad status or a body that is not JSON), or the body's "start_date"
      and "end_date" values (`None` when the key is missing or the value
      is not a string). */
  datatype Details = DetailsFailed | Details(startDate: Option<string>, endDate: Option<string>)

  predicate IsSlash(c: char) { c == '/' }

  /** `href.strip('/').split('/')[-1]`: the last path segment. */
  function EventSlug(href: string): string {
    LastPart(Trim(href, IsSlash), '/')
  }

  /** The slug is the last segment of the href once its leading and
      trailing slashes are stripped. */
  lemma EventSlugIsLastSegment(href: string)
    ensures EndSegment(EventSlug(href), Trim(href, IsSlash), '/')
  {
    LastPartIsSuffix(Trim(href, IsSlash), '/');
  }

  function DetailsUrl(slug: string): string {
    EVENTS_API + slug + EVENTS_QUERY
  }

  /** The start and end instants of a detail body: each date loses its
      last character (`[:-1]`, the zone letter) before it is parsed. */
  function DetailTimes(d: Details, parseIso: string -> Option<int>): Option<(int, int)> {
    if d.DetailsFailed? || d.startDate.None? || d.endDate.None? then None
    else
      match (parseIso(DropLast(d.startDate.value)), parseIso(DropLast(d.endDate.value)))
      case (Some(start), Some(end)) => Some((start, end))
      case _ => None
  }

  /** The body of the HackerEarth loop: a missing title span or link skips
      the card, so does any failure of the detail request for its slug;
      nothing raises. */
  function HackerEarthStep(card: Card, details: string -> Details, parseIso: string -> Option<int>): (s: Step)
    ensures !s.Raise?
    ensures s.Emit? <==> card.titleText.Some? && card.href.Some?
                         && DetailTimes(details(DetailsUrl(EventSlug(card.href.value))), parseIso).Some?
    ensures s.Emit? ==>
              var times := DetailTimes(details(DetailsUrl(EventSlug(card.href.value))), parseIso).value;
              s.contest == Contest(HackerEarth, Collapse(card.titleText.value), HACKEREARTH_URL + card.href.value,
                                   times.0, times.1 - times.0)
  {
    if card.titleText.None? then Skip
    else
      var title := Collapse(card.titleText.value);
      if card.href.None? then Skip
      else
        var href := card.href.value;
        var slug := EventSlug(href);
        var url := HACKEREARTH_URL + href;
        match DetailTimes(details(DetailsUrl(slug)), parseIso)
        case None => Skip
        case Some((start, end)) =>
          DurationIsElapsed(start, end);
          Emit(Contest(HackerEarth, title, url, start, DurationField(Difference(end, start))))
  }

  function HackerEarthSteps(details: string -> Details, parseIso: string -> Option<int>): Card -> Step {
    card => HackerEarthStep(card, details, parseIso)
  }

  /** The HackerEarth adapter: `details` answers the detail request made
      for each URL. */
  function HackerEarthContests(page: Page<Card>, details: string -> Details,
                               parseIso: string -> Option<int>): seq<Contest>
  {
    match page
    case RequestFailed => []
    case Fetched(cards) => Emitted(cards, HackerEarthSteps(details, parseIso))
  }

  /** The executable form of `HackerEarthContests`: the adapter's loop itself. */
  method FetchHackerEarth(page: Page<Card>, details: string -> Details, parseIso: string -> Option<int>)
    returns (contests: seq<Contest>)
    ensures contests == HackerEarthContests(page, details, parseIso)
  {
    match page
    case RequestFailed => contests := [];
    case Fetched(cards) =>
      var step := HackerEarthSteps(details, parseIso);
      var out := CollectItems(cards, step);
      CollectReturns(cards, step);
      contests := out.contests;
  }

  // ---------------------------------------------------------------------
  // AtCoder
  // ---------------------------------------------------------------------

  const ATCODER_URL := "https://atcoder.jp"

  /** The contest link of a row: its text and its `href`. */
  datatype Link = Link(text: string, href: Option<string>)

  /** One row of `#contest-table-upcoming`: the text of its `time`
      element, its contest link, and the text of its third cell, each
      `None` when the element is missing. */
  datatype Row = Row(time: Option<string>, link: Option<Link>, length: Option<string>)

  /** `int(parts[0]) * 60 + int(parts[1])`: `None` when there are fewer
      than two parts (`IndexError`) or one of them is not an integer. */
  function ClockMinutes(parts: seq<string>): Option<int> {
    if |parts| < 2 then None else HoursAndMinutes(ParseInt(parts[0]), ParseInt(parts[1]))
  }

  function HoursAndMinutes(hours: Option<int>, minutes: Option<int>): Option<int> {
    match (hours, minutes)
    case (Some(h), Some(m)) => Some(h * 60 + m)
    case _ => None
  }

  /** The third cell's `text.strip().split(':')` read as hours and
      minutes, in minutes. */
  function DurationMinutes(text: string): Option<int> {
    ClockMinutes(Split(Strip(text), ':'))
  }

  lemma ClockParts(a: string, b: string)
    requires |a| > 0 && forall i :: 0 <= i < |a| ==> IsDigit(a[i])
    requires |b| > 0 && forall i :: 0 <= i < |b| ==> IsDigit(b[i])
    ensures Split(Strip(a + ":" + b), ':') == [a, b]
  {
    var text := a + ":" + b;
    assert ':' !in a && ':' !in b;
    SplitAtFirst(a, b, ':');
    SplitOfPlain(b, ':');
    assert text[0] == a[0] && text[|text| - 1] == b[|b| - 1];
    TrimKeeps(text, IsSpace);
  }

  /** A cell "H:MM" whose two fields are decimal digit strings of values
      h and m reads as h hours and m minutes. */
  lemma DurationMinutesOfClock(hours: string, minutes: string, h: nat, m: nat)
    requires |hours| > 0 && forall i :: 0 <= i < |hours| ==> IsDigit(hours[i])
    requires |minutes| > 0 && forall i :: 0 <= i < |minutes| ==> IsDigit(minutes[i])
    requires Value(hours) == h && Value(minutes) == m
    ensures DurationMinutes(hours + ":" + minutes) == Some(h * 60 + m)
  {
    ParseDigits(hours);
    ParseDigits(minutes);
    ClockParts(hours, minutes);
    DurationOfParts(hours + ":" + minutes, hours, minutes);
    ClockOfParsed(hours, minutes, h, m);
  }

  lemma DurationOfParts(text: string, a: string, b: string)
    requires Split(Strip(text), ':') == [a, b]
    ensures DurationMinutes(text) == ClockMinutes([a, b])
  {
  }

  lemma ClockOfParsed(a: string, b: string, h: int, m: int)
    requires ParseInt(a) == Some(h) && ParseInt(b) == Some(m)
    ensures ClockMinutes([a, b]) == Some(h * 60 + m)
  {
    var parts := [a, b];
    assert parts[0] == a && parts[1] == b;
    assert ClockMinutes(parts) == HoursAndMinutes(ParseInt(a), ParseInt(b));
  }

  /** Kept apart from `AtCoderStep`, whose context is too large for this
      non-linear step. */
  lemma WholeMinutes(minutes: int)
    ensures (minutes * 60) % 60 == 0
  {
  }

  /** The body of the AtCoder loop: a missing element, an unparsable time
      or an unreadable duration skips the row; nothing raises. */
  function AtCoderStep(row: Row, parseTime: string -> Option<int>): (s: Step)
    ensures !s.Raise?
    ensures s.Emit? <==> row.time.Some? && parseTime(Strip(row.time.value)).Some?
                         && row.link.Some? && row.link.value.href.Some?
                         && row.length.Some? && DurationMinutes(row.length.value).Some?
    ensures s.Emit? ==>
              s.contest == Contest(AtCoder, Strip(row.link.value.text), ATCODER_URL + row.link.value.href.value,
                                   parseTime(Strip(row.time.value)).value,
                                   DurationMinutes(row.length.value).value * 60)
    ensures s.Emit? ==> s.contest.duration % 60 == 0
  {
    if row.time.None? then Skip
    else
      match parseTime(Strip(row.time.value))
      case None => Skip
      case Some(start) =>
        if row.link.None? then Skip
        else
          var title := Strip(row.link.value.text);
          if row.link.value.href.None? then Skip
          else
            var url := ATCODER_URL + row.link.value.href.value;
            if row.length.None? then Skip
            else
              match DurationMinutes(row.length.value)
              case None => Skip
              case Some(minutes) =>
                WholeMinutes(minutes);
                Emit(Contest(AtCoder, title, url, start, minutes * 60))
  }

  function AtCoderSteps(parseTime: string -> Option<int>): Row -> Step {
    row => AtCoderStep(row, parseTime)
  }

  function AtCoderContests(page: Page<Row>, parseTime: string -> Option<int>): seq<Contest> {
    match page
    case RequestFailed => []
    case Fetched(rows) => Emitted(rows, AtCoderSteps(parseTime))
  }

  /** The executable form of `AtCoderContests`: the adapter's loop itself. */
  method FetchAtCoder(page: Page<Row>, parseTime: string -> Option<int>) returns (contests: seq<Contest>)
    ensures contests == AtCoderContests(page, parseTime)
  {
    match page
    case RequestFailed => contests := [];
    case Fetched(rows) =>
      var step := AtCoderSteps(parseTime);
      var out := CollectItems(rows, step);
      CollectReturns(rows, step);
      contests := out.contests;
  }

  /** A row whose third cell is "H:MM" and whose time and link are
      readable gives a record of (H * 60 + MM) * 60 seconds. */
  lemma AtCoderClockRow(row: Row, parseTime: string -> Option<int>, hours: string, minutes: string, h: nat, m: nat)
    requires row.time.Some? && parseTime(Strip(row.time.value)).Some?
    requires row.link.Some? && row.link.value.href.Some?
    requires row.length == Some(hours + ":" + minutes)
    requires |hours| > 0 && forall i :: 0 <= i < |hours| ==> IsDigit(hours[i])
    requires |minutes| > 0 && forall i :: 0 <= i < |minutes| ==> IsDigit(minutes[i])
    requires Value(hours) == h && Value(minutes) == m
    ensures AtCoderStep(row, parseTime).Emit?
    ensures AtCoderStep(row, parseTime).contest.duration == (h * 60 + m) * 60
  {
    DurationMinutesOfClock(hours, minutes, h, m);
  }

  /** An AtCoder row that fails to give a record leaves the records of
      the rows around it as they would be without it. */
  lemma AtCoderRowIsolated(before: seq<Row>, row: Row, after: seq<Row>, parseTime: string -> Option<int>)
    requires !AtCoderStep(row, parseTime).Emit?
    ensures AtCoderContests(Fetched(before + [row] + after), parseTime)
            == AtCoderContests(Fetched(before), parseTime) + AtCoderContests(Fetched(after), parseTime)
  {
    SkippedItemIsolated(before, row, after, AtCoderSteps(parseTime));
  }

  /** A HackerEarth card without a title span or link, or whose detail
      request fails, leaves the records of the other cards unchanged. */
  lemma HackerEarthCardIsolated(before: seq<Card>, card: Card, after: seq<Card>,
                                details: string -> Details, parseIso: string -> Option<int>)
    requires !HackerEarthStep(card, details, parseIso).Emit?
    ensures HackerEarthContests(Fetched(before + [card] + after), details, parseIso)
            == HackerEarthContests(Fetched(before), details, parseIso)
               + HackerEarthContests(Fetched(after), details, parseIso)
  {
    SkippedItemIsolated(before, card, after, HackerEarthSteps(details, parseIso));
  }

  /** A CodeChef entry with a missing key or an unreadable date leaves the
      records of the other entries unchanged. */
  lemma CodeChefItemIsolated(lists: CodeChefLists, before: seq<CodeChefItem>, item: CodeChefItem,
                             after: seq<CodeChefItem>)
    requires lists.present + lists.future == before + [item] + after
    requires !CodeChefStep(item).Emit?
    ensures CodeChefContests(Ok(lists)) == Returned(Emitted(before, CodeChefStep) + Emitted(after, CodeChefStep))
  {
    SkippedItemIsolated(before, item, after, CodeChefStep);
  }

  /** A complete Codeforces entry that has already ended drops out without
      disturbing the entries around it. */
  lemma CodeforcesEndedIsolated(before: seq<CodeforcesItem>, item: CodeforcesItem, after: seq<CodeforcesItem>,
                                now: int)
    requires CodeforcesComplete(item)
    requires !EndsAfter(item.startTimeSeconds.value, item.durationSeconds.value, now)
    ensures Emitted(before + [item] + after, CodeforcesSteps(now))
            == Emitted(before, CodeforcesSteps(now)) + Emitted(after, CodeforcesSteps(now))
  {
    SkippedItemIsolated(before, item, after, CodeforcesSteps(now));
  }
}
