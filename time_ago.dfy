/** `getTimeAgo`, the relative-time label shown for the last reading position. The
    same cascade of `Math.floor` divisions appears, letter for letter, in
    src/ui/components/quran/HistoryTab.tsx and src/ui/components/quran/ReadingHistory.tsx;
    it is defined once here. `Date.now()` is the parameter `now`, in milliseconds.
    Dafny's `/` by a positive divisor is the floor, as `Math.floor(a / b)` is for
    integral `a` and positive `b`, negative `a` included. */
module TimeAgo {
  import Decimal

  /** Which branch of the cascade answered, with the count it shows. */
  datatype Ago =
    | JustNow
    | MinutesAgo(minutes: int)
    | HoursAgo(hours: int)
    | DaysAgo(days: int)
    | WeeksAgo(weeks: int)
    | MonthsAgo(months: int)
    | YearsAgo(years: int)

  function GetTimeAgo(now: int, timestamp: int): (a: Ago)
    ensures a.JustNow? <==> (now - timestamp) / 1000 < 60
    ensures a.MinutesAgo? ==> 1 <= a.minutes <= 59
    ensures a.HoursAgo? ==> 1 <= a.hours <= 23
    ensures a.DaysAgo? ==> 1 <= a.days <= 6
    ensures a.WeeksAgo? ==> 1 <= a.weeks <= 3
    ensures a.MonthsAgo? ==> 0 <= a.months <= 11
    ensures a.YearsAgo? ==> a.years >= 0
  {
    var seconds := (now - timestamp) / 1000;
    if seconds < 60 then JustNow
    else
      var minutes := seconds / 60;
      if minutes < 60 then MinutesAgo(minutes)
      else
        var hours := minutes / 60;
        if hours < 24 then HoursAgo(hours)
        else
          var days := hours / 24;
          if days < 7 then DaysAgo(days)
          else
            var weeks := days / 7;
            if weeks < 4 then WeeksAgo(weeks)
            else
              var months := days / 30;
              if months < 12 then MonthsAgo(months)
              else YearsAgo(days / 365)
  }

  /** The label the component renders: "just now" for the first branch and for no
      other, and for every other branch the count followed by a unit and " ago". The
      unit's last letter (`m`, `h`, `d`, `w`, `o`, `y`) sits at the same place from
      the end of every counted label, which is what tells the branches apart. */
  function Label(a: Ago): (r: string)
    ensures r == "just now" <==> a.JustNow?
    ensures !a.JustNow? ==> |r| >= 5 && r[|r| - 4..] == " ago"
    ensures a.MinutesAgo? ==> r[|r| - 5] == 'm' && r[..|r| - 5] == Decimal.IntToString(a.minutes)
    ensures a.HoursAgo? ==> r[|r| - 5] == 'h' && r[..|r| - 5] == Decimal.IntToString(a.hours)
    ensures a.DaysAgo? ==> r[|r| - 5] == 'd' && r[..|r| - 5] == Decimal.IntToString(a.days)
    ensures a.WeeksAgo? ==> r[|r| - 5] == 'w' && r[..|r| - 5] == Decimal.IntToString(a.weeks)
    ensures a.MonthsAgo? ==> |r| >= 6 && r[|r| - 6] == 'm' && r[|r| - 5] == 'o' && r[..|r| - 6] == Decimal.IntToString(a.months)
    ensures a.YearsAgo? ==> r[|r| - 5] == 'y' && r[..|r| - 5] == Decimal.IntToString(a.years)
  {
    match a
    case JustNow => "just now"
    case MinutesAgo(n) => Counted(n, "m ago")
    case HoursAgo(n) => Counted(n, "h ago")
    case DaysAgo(n) => Counted(n, "d ago")
    case WeeksAgo(n) => Counted(n, "w ago")
    case MonthsAgo(n) => Counted(n, "mo ago")
    case YearsAgo(n) => Counted(n, "y ago")
  }

  /** A count followed by its suffix; it never reads "just now", whose last letter
      is not the `o` of " ago". */
  function Counted(n: int, suffix: string): (r: string)
    requires |suffix| >= 5 && suffix[|suffix| - 1] == 'o'
    ensures |r| == |Decimal.IntToString(n)| + |suffix|
    ensures r[..|Decimal.IntToString(n)|] == Decimal.IntToString(n) && r[|Decimal.IntToString(n)|..] == suffix
    ensures r != "just now"
  {
    var r := Decimal.IntToString(n) + suffix;
    assert r[|r| - 1] == 'o';
    r
  }

  /** Different branches, or different counts in one branch, give different labels. */
  lemma {:induction false} LabelInjective(a: Ago, b: Ago)
    ensures Label(a) == Label(b) <==> a == b
  {
    if Label(a) == Label(b) && !a.JustNow? && !b.JustNow? {
      var r := Label(a);
      match a
      case MinutesAgo(n) => Decimal.IntToStringInjective(n, b.minutes);
      case HoursAgo(n) => Decimal.IntToStringInjective(n, b.hours);
      case DaysAgo(n) => Decimal.IntToStringInjective(n, b.days);
      case WeeksAgo(n) => Decimal.IntToStringInjective(n, b.weeks);
      case MonthsAgo(n) => Decimal.IntToStringInjective(n, b.months);
      case YearsAgo(n) => Decimal.IntToStringInjective(n, b.years);
    }
  }

  /** "just now" is shown exactly when fewer than 60 whole seconds have passed. */
  lemma JustNowLabel(now: int, timestamp: int)
    ensures Label(GetTimeAgo(now, timestamp)) == "just now" <==> (now - timestamp) / 1000 < 60
  {
  }

  /** The label depends on the elapsed time only, not on the two instants. */
  lemma OnlyElapsedMatters(now1: int, ts1: int, now2: int, ts2: int)
    requires now1 - ts1 == now2 - ts2
    ensures GetTimeAgo(now1, ts1) == GetTimeAgo(now2, ts2)
  {
  }

  /** A timestamp in the future reads "just now". */
  lemma FutureIsJustNow(now: int, timestamp: int)
    requires timestamp > now
    ensures GetTimeAgo(now, timestamp) == JustNow
  {
  }

  /** Each count is the number of whole units elapsed: minutes of 60 000 ms, hours,
      days, weeks, 30-day months and 365-day years. */
  lemma WholeUnitsElapsed(now: int, timestamp: int)
    ensures var e, a := now - timestamp, GetTimeAgo(now, timestamp);
      && (a.MinutesAgo? ==> a.minutes == e / 60000)
      && (a.HoursAgo? ==> a.hours == e / 3600000)
      && (a.DaysAgo? ==> a.days == e / 86400000)
      && (a.WeeksAgo? ==> a.weeks == e / 604800000)
      && (a.MonthsAgo? ==> a.months == e / 2592000000)
      && (a.YearsAgo? ==> a.years == e / 31536000000)
  {
  }

  /** Between four weeks and thirty days the cascade shows "0mo ago". */
  lemma ZeroMonths(now: int, timestamp: int)
    requires 28 * 86400000 <= now - timestamp < 30 * 86400000
    ensures GetTimeAgo(now, timestamp) == MonthsAgo(0)
    ensures Label(GetTimeAgo(now, timestamp)) == "0mo ago"
  {
    WholeUnitsElapsed(now, timestamp);
    assert Decimal.IntToString(0) == "0";
  }

  /** Between 360 and 365 days the cascade shows "0y ago". */
  lemma ZeroYears(now: int, timestamp: int)
    requires 360 * 86400000 <= now - timestamp < 365 * 86400000
    ensures GetTimeAgo(now, timestamp) == YearsAgo(0)
    ensures Label(GetTimeAgo(now, timestamp)) == "0y ago"
  {
    WholeUnitsElapsed(now, timestamp);
    assert Decimal.IntToString(0) == "0";
  }
}
