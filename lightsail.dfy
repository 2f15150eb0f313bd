/**
 * The parts of the Lightsail usage report (telegram-aws/main.go) that are
 * not SDK calls or floating-point arithmetic: the start of the metric window
 * and the reply text built from the report.
 */
module Lightsail {

  /**
   * `NetworkUsageResponse`. The two byte counts are carried as the text
   * `%.1f` renders them to, and the total as the `%.1fG` text.
   */
  datatype NetworkUsage = NetworkUsage(name: string, networkIn: string, networkOut: string, total: string)

  /**
   * What the usage call ends in: a report, or the end of the process inside
   * it (`log.Fatal` on a configuration error, a panic when the instance list
   * is missing or empty).
   */
  datatype UsageOutcome = Report(usage: NetworkUsage) | Aborted

  /** The usage reply: name, inbound, outbound and total, one per line. */
  function UsageText(u: NetworkUsage): (text: string)
    ensures |text| == 45 + |u.name| + |u.networkIn| + |u.networkOut| + |u.total|
    ensures text[..7] == " Name: "
    ensures text[7..7 + |u.name|] == u.name
    ensures text[7 + |u.name|..20 + |u.name|] == "\n NetworkIn: "
    ensures text[20 + |u.name|..20 + |u.name| + |u.networkIn|] == u.networkIn
    ensures text[20 + |u.name| + |u.networkIn|..35 + |u.name| + |u.networkIn|] == " \n NetworkOut: "
    ensures text[35 + |u.name| + |u.networkIn|..35 + |u.name| + |u.networkIn| + |u.networkOut|] == u.networkOut
    ensures text[35 + |u.name| + |u.networkIn| + |u.networkOut|..45 + |u.name| + |u.networkIn| + |u.networkOut|]
            == " \n Total: "
    ensures text[|text| - |u.total|..] == u.total
  {
    " Name: " + u.name + "\n NetworkIn: " + u.networkIn + " \n NetworkOut: " + u.networkOut
    + " \n Total: " + u.total
  }

  /** A `time.Time` as its wall-clock fields and its location. */
  datatype WallTime = WallTime(
    year: int, month: int, day: int, hour: int, minute: int, second: int, nanosecond: int,
    zone: string)

  predicate ValidWallTime(t: WallTime)
  {
    1 <= t.month <= 12 && 1 <= t.day <= 31 && 0 <= t.hour < 24 && 0 <= t.minute < 60
    && 0 <= t.second < 60 && 0 <= t.nanosecond < 1_000_000_000
  }

  /** The wall-clock fields, most significant first. */
  function Fields(t: WallTime): seq<int>
  {
    [t.year, t.month, t.day, t.hour, t.minute, t.second, t.nanosecond]
  }

  /** Lexicographic order on equally long field lists. */
  predicate LexNotAfter(a: seq<int>, b: seq<int>)
    requires |a| == |b|
  {
    a == [] || a[0] < b[0] || (a[0] == b[0] && LexNotAfter(a[1..], b[1..]))
  }

  /** `a` is not later than `b` on the wall clock of one location. */
  predicate NotAfter(a: WallTime, b: WallTime)
  {
    a.zone == b.zone && LexNotAfter(Fields(a), Fields(b))
  }

  /**
   * `GetCurrentMonthFirstDayZeroTime`, with the current time passed in:
   * midnight of the first day of the current month, in the current location.
   */
  function MonthStart(now: WallTime): (r: WallTime)
    ensures r.year == now.year && r.month == now.month && r.zone == now.zone
    ensures r.day == 1 && r.hour == 0 && r.minute == 0 && r.second == 0 && r.nanosecond == 0
  {
    WallTime(now.year, now.month, 1, 0, 0, 0, 0, now.zone)
  }

  /**
   * The month start is a valid time no later than the current time, so the
   * metric window `[MonthStart(now), now]` is never empty; and any two times
   * of one month in one location share it.
   */
  lemma MonthStartWindow(now: WallTime, other: WallTime)
    requires ValidWallTime(now)
    ensures ValidWallTime(MonthStart(now)) && NotAfter(MonthStart(now), now)
    ensures MonthStart(MonthStart(now)) == MonthStart(now)
    ensures other.year == now.year && other.month == now.month && other.zone == now.zone
            ==> MonthStart(other) == MonthStart(now)
  {
    var f, g := Fields(MonthStart(now)), Fields(now);
    ZerosFirst(f[3..], g[3..]);
    assert f[1..][1..][1..] == f[3..] && g[1..][1..][1..] == g[3..];
    if now.day == 1 {
      assert LexNotAfter(f[1..][1..], g[1..][1..]);
    }
  }

  /** All-zero fields come no later than any non-negative fields. */
  lemma {:induction false} ZerosFirst(a: seq<int>, b: seq<int>)
    requires |a| == |b|
    requires forall i :: 0 <= i < |a| ==> a[i] == 0 && b[i] >= 0
    ensures LexNotAfter(a, b)
  {
    if a != [] && a[0] == b[0] {
      ZerosFirst(a[1..], b[1..]);
    }
  }
}
