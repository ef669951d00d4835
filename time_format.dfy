/** The relative timestamps shown beside messages (`formatTime`, written
    twice in the source with different suffixes): a millisecond difference
    between now and the creation time, bucketed into now / minutes / hours,
    or a calendar label for anything a day old or more. */
module TimeFormat {
  import opened Text

  const MINUTE_MS := 60000
  const HOUR_MS := 3600000
  const DAY_MS := 86400000

  datatype Bucket = JustNow | MinutesAgo(minutes: nat) | HoursAgo(hours: nat) | OlderThanADay

  /** Which label a difference gets. Minutes and hours are rounded down:
      `minutes` is the largest whole number of minutes not exceeding the
      difference. Negative differences (clock skew) count as now. */
  function BucketOf(diff: int): (b: Bucket)
    ensures b == JustNow <==> diff < MINUTE_MS
    ensures b.MinutesAgo? <==> MINUTE_MS <= diff < HOUR_MS
    ensures b.HoursAgo? <==> HOUR_MS <= diff < DAY_MS
    ensures b == OlderThanADay <==> DAY_MS <= diff
    ensures b.MinutesAgo? ==>
              1 <= b.minutes <= 59 && b.minutes * MINUTE_MS <= diff < (b.minutes + 1) * MINUTE_MS
    ensures b.HoursAgo? ==>
              1 <= b.hours <= 23 && b.hours * HOUR_MS <= diff < (b.hours + 1) * HOUR_MS
  {
    if diff < MINUTE_MS then JustNow
    else if diff < HOUR_MS then MinutesAgo(diff / MINUTE_MS)
    else if diff < DAY_MS then HoursAgo(diff / HOUR_MS)
    else OlderThanADay
  }

  /** A later moment never shows a younger label. */
  lemma BucketMonotone(d1: int, d2: int)
    requires d1 <= d2
    ensures Rank(BucketOf(d1)) <= Rank(BucketOf(d2))
  {
  }

  /** Orders the buckets from youngest to oldest, minute by minute. */
  function Rank(b: Bucket): (rank: int) {
    match b
    case JustNow => 0
    case MinutesAgo(m) => m * MINUTE_MS
    case HoursAgo(h) => h * HOUR_MS
    case OlderThanADay => DAY_MS
  }

  /** `formatTime` in the direct-message view: "now", "<m>m", "<h>h", or
      the calendar label (month and day) supplied by the caller. */
  function ShortLabel(diff: int, dateLabel: string): (text: string) {
    match BucketOf(diff)
    case JustNow => "now"
    case MinutesAgo(m) => NatToString(m) + "m"
    case HoursAgo(h) => NatToString(h) + "h"
    case OlderThanADay => dateLabel
  }

  /** `formatTime` in a public message: "now", "<m>m ago", "<h>h ago", or
      the calendar label (month, day and time) supplied by the caller. */
  function AgoLabel(diff: int, dateLabel: string): (text: string) {
    match BucketOf(diff)
    case JustNow => "now"
    case MinutesAgo(m) => NatToString(m) + "m ago"
    case HoursAgo(h) => NatToString(h) + "h ago"
    case OlderThanADay => dateLabel
  }

  /** The minute label of the direct-message view reads back as the
      whole number of minutes elapsed, between 1 and 59. */
  lemma {:induction false} ShortMinutesLabel(diff: int, dateLabel: string)
    requires MINUTE_MS <= diff < HOUR_MS
    ensures var text := ShortLabel(diff, dateLabel);
            && |text| >= 2 && text[|text| - 1] == 'm'
            && (forall i :: 0 <= i < |text| - 1 ==> IsDigit(text[i]))
            && var n := DecimalValue(text[..|text| - 1]);
               1 <= n <= 59 && n == diff / MINUTE_MS
  {
    var m := BucketOf(diff).minutes;
    var text := ShortLabel(diff, dateLabel);
    assert text[..|text| - 1] == NatToString(m);
    DecimalRoundTrip(m);
  }

  /** The hour label of the direct-message view reads back as the whole
      number of hours elapsed, between 1 and 23. */
  lemma {:induction false} ShortHoursLabel(diff: int, dateLabel: string)
    requires HOUR_MS <= diff < DAY_MS
    ensures var text := ShortLabel(diff, dateLabel);
            && |text| >= 2 && text[|text| - 1] == 'h'
            && (forall i :: 0 <= i < |text| - 1 ==> IsDigit(text[i]))
            && var n := DecimalValue(text[..|text| - 1]);
               1 <= n <= 23 && n == diff / HOUR_MS
  {
    var h := BucketOf(diff).hours;
    var text := ShortLabel(diff, dateLabel);
    assert text[..|text| - 1] == NatToString(h);
    DecimalRoundTrip(h);
  }

  /** The two views use the same thresholds: below a minute both say "now",
      from a minute to a day the public label is the direct-message label
      followed by " ago", and from a day on both show their calendar label. */
  lemma AgoExtendsShort(diff: int, shortDate: string, agoDate: string)
    ensures diff < MINUTE_MS ==> ShortLabel(diff, shortDate) == AgoLabel(diff, agoDate) == "now"
    ensures MINUTE_MS <= diff < DAY_MS ==> AgoLabel(diff, agoDate) == ShortLabel(diff, shortDate) + " ago"
    ensures DAY_MS <= diff ==> ShortLabel(diff, shortDate) == shortDate && AgoLabel(diff, agoDate) == agoDate
  {
  }
}
