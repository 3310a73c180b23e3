/** The normalised contest record every adapter produces, and the
    timedelta arithmetic behind its `duration` field. Instants are whole
    seconds since the Unix epoch, so time zones do not appear. */
module Contest {

  datatype Platform = CodeChef | Codeforces | GeeksforGeeks | LeetCode | HackerEarth | AtCoder

  /** The text written into a record's "platform" field. */
  function PlatformName(p: Platform): string {
    match p
    case CodeChef => "CodeChef"
    case Codeforces => "Codeforces"
    case GeeksforGeeks => "GeeksforGeeks"
    case LeetCode => "LeetCode"
    case HackerEarth => "HackerEarth"
    case AtCoder => "AtCoder"
  }

  /** One output record. `start` is the instant the record's `start_time`
      denotes; the random `id` is not modelled. */
  datatype Contest = Contest(platform: Platform, title: string, url: string, start: int, duration: int)

  const SECONDS_PER_DAY: int := 24 * 60 * 60

  /** A Python `timedelta` of whole seconds, in its normal form:
      any number of days and `0 <= seconds < SECONDS_PER_DAY`. */
  datatype TimeDelta = TimeDelta(days: int, seconds: int)

  /** `later - earlier` for two datetimes. Python normalises with floor
      division by a positive divisor, which Dafny's `/` and `%` agree with. */
  function Difference(later: int, earlier: int): (d: TimeDelta)
    ensures 0 <= d.seconds < SECONDS_PER_DAY
  {
    TimeDelta((later - earlier) / SECONDS_PER_DAY, (later - earlier) % SECONDS_PER_DAY)
  }

  /** The `duration` field: `d.seconds + d.days * SECONDS_PER_DAY`. */
  function DurationField(d: TimeDelta): int {
    d.seconds + d.days * SECONDS_PER_DAY
  }

  /** The duration field is exactly the elapsed time, non-negative exactly
      when the end is not before the start. */
  lemma DurationIsElapsed(start: int, end: int)
    ensures DurationField(Difference(end, start)) == end - start
    ensures DurationField(Difference(end, start)) >= 0 <==> end >= start
  {
  }
}
