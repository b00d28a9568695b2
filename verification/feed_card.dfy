/**
 * The feed card's relative time stamp ("Just now", "5h ago", "1 day ago",
 * "3 days ago"). Times are milliseconds since the epoch; the current time
 * is a parameter.
 */
module FeedCard {
  import opened Wrappers
  import opened Text

  const MsPerHour: nat := 1000 * 60 * 60
  const MsPerDay: nat := 24 * MsPerHour

  /**
   * `Math.floor(diff / (1000 * 60 * 60))`. The divisor is positive, so
   * Dafny's Euclidean division rounds down like `Math.floor`, also for a
   * date in the future (negative `diff`).
   */
  function Hours(diff: int): int {
    diff / MsPerHour
  }

  /** `formatRelativeTime(date)` at time `now`. */
  function FormatRelativeTime(date: Option<int>, now: int): (r: string)
    ensures r == "" <==> date.None?
    ensures date.Some? ==> (r == "Just now" <==> now - date.value < MsPerHour)
  {
    if date.None? then ""
    else
      var hours := Hours(now - date.value);
      if hours < 1 then "Just now"
      else if hours < 24 then
        assert IsDigit(NatToString(hours)[0]);
        NatToString(hours) + "h ago"
      else
        var days := hours / 24;
        if days == 1 then "1 day ago"
        else
          assert IsDigit(NatToString(days)[0]);
          NatToString(days) + " days ago"
  }

  /** Whole days are whole hours grouped by 24: flooring twice is flooring once. */
  lemma DaysOfHours(diff: int)
    requires diff >= 0
    ensures Hours(diff) / 24 == diff / MsPerDay
  {
    var h := diff / MsPerHour;
    var q := h / 24;
    assert diff == MsPerHour * h + diff % MsPerHour;
    assert h == 24 * q + h % 24;
    assert diff == MsPerDay * q + (MsPerHour * (h % 24) + diff % MsPerHour);
    assert 0 <= MsPerHour * (h % 24) + diff % MsPerHour < MsPerDay;
  }

  /** Within the first day the stamp counts whole hours, from 1 to 23. */
  lemma WithinADay(date: int, now: int)
    requires MsPerHour <= now - date < MsPerDay
    ensures var h := (now - date) / MsPerHour;
      1 <= h < 24 && FormatRelativeTime(Some(date), now) == NatToString(h) + "h ago"
  {
  }

  /** After the first day it counts whole days, with "1 day ago" for the second day. */
  lemma AfterADay(date: int, now: int)
    requires now - date >= MsPerDay
    ensures var d := (now - date) / MsPerDay;
      d >= 1
      && FormatRelativeTime(Some(date), now) == (if d == 1 then "1 day ago" else NatToString(d) + " days ago")
      && (d == 1 <==> now - date < 2 * MsPerDay)
  {
    DayCount(now - date);
  }

  /** At least a day gives at least 24 hours and at least one whole day, exactly one below two days. */
  lemma DayCount(diff: int)
    requires diff >= MsPerDay
    ensures Hours(diff) >= 24 && Hours(diff) / 24 == diff / MsPerDay >= 1
    ensures diff / MsPerDay == 1 <==> diff < 2 * MsPerDay
  {
    DaysOfHours(diff);
  }

  /** Two stamps within the first day read the same exactly when they fall in the same hour. */
  lemma HourStampsDistinct(date1: int, date2: int, now: int)
    requires MsPerHour <= now - date1 < MsPerDay && MsPerHour <= now - date2 < MsPerDay
    ensures FormatRelativeTime(Some(date1), now) == FormatRelativeTime(Some(date2), now)
            <==> (now - date1) / MsPerHour == (now - date2) / MsPerHour
  {
    var h1, h2 := (now - date1) / MsPerHour, (now - date2) / MsPerHour;
    WithinADay(date1, now);
    WithinADay(date2, now);
    if NatToString(h1) + "h ago" == NatToString(h2) + "h ago" {
      var a, b := NatToString(h1), NatToString(h2);
      assert |a| == |b|;
      assert a == (a + "h ago")[..|a|] == (b + "h ago")[..|b|] == b;
      NatToStringInjective(h1, h2);
    }
  }
}
