/** The dashboard's pure helpers: the pagination strip and the formatters for uptime,
    CPU colour, "time ago" and byte or bandwidth figures. Markup is abstracted to the
    pieces it shows; numbers stay numbers. */
module Components {
  import opened Optional
  import opened Text

  function Max(a: int, b: int): int {
    if a >= b then a else b
  }

  function Min(a: int, b: int): int {
    if a <= b then a else b
  }

  // ===================== pagination =====================

  /** What a button's onclick passes to the page handler: a page number, or a bare
      identifier that the page evaluates when the button is clicked. */
  datatype Arg = PageArg(page: int) | Identifier(name: string)

  /** One element of the strip. */
  datatype Piece =
    | Prev(target: Arg, disabled: bool)
    | PageButton(number: int, target: Arg, active: bool)
    | Gap
    | Next(target: Arg, disabled: bool)

  /** The pages shown on either side of the current one. */
  const Range := 2

  /** The first page of the numbered window. */
  function WindowStart(current: int): int {
    Max(1, current - Range)
  }

  /** The last page of the numbered window. */
  function WindowEnd(current: int, total: int): int {
    Min(total, current + Range)
  }

  /** The numbered buttons lo..hi, the current one active. */
  function Window(lo: int, hi: int, current: int): (w: seq<Piece>)
    decreases hi - lo
    ensures |w| == Max(0, hi - lo + 1)
  {
    if hi < lo then [] else Window(lo, hi - 1, current) + [PageButton(hi, PageArg(hi), hi == current)]
  }

  /** The k-th button of the window shows page lo + k and passes it; only the current
      page is active. */
  lemma {:induction false} WindowAt(lo: int, hi: int, current: int)
    decreases hi - lo
    ensures forall k :: 0 <= k < |Window(lo, hi, current)| ==>
      Window(lo, hi, current)[k] == PageButton(lo + k, PageArg(lo + k), lo + k == current)
  {
    if lo <= hi {
      WindowAt(lo, hi - 1, current);
    }
  }

  /** Before the window: a first-page button when the window starts past page 1, and a
      gap after it when it starts past page 2. */
  function Lead(start: int): (l: seq<Piece>)
    ensures |l| == (if start > 2 then 2 else if start > 1 then 1 else 0)
    ensures |l| >= 1 ==> l[0] == PageButton(1, PageArg(1), false)
    ensures |l| == 2 ==> l[1] == Gap
  {
    if start > 1 then [PageButton(1, PageArg(1), false)] + (if start > 2 then [Gap] else []) else []
  }

  /** After the window: a gap when it ends before the last page but one, and a last-page
      button passing `last` when it ends before the last page. */
  function Trail(end: int, total: int, last: Arg): (t: seq<Piece>)
    ensures |t| == (if end < total - 1 then 2 else if end < total then 1 else 0)
    ensures |t| >= 1 ==> t[|t| - 1] == PageButton(total, last, false)
    ensures |t| == 2 ==> t[0] == Gap
  {
    if end < total then (if end < total - 1 then [Gap] else []) + [PageButton(total, last, false)] else []
  }

  /** The strip for the given current and total page counts, the last-page button
      passing `last`: prev, the lead, the window, the trail, next. Nothing when there is
      at most one page. */
  function StripWith(current: int, total: int, last: Arg): seq<Piece> {
    if total <= 1 then []
    else
      var start := WindowStart(current);
      var end := WindowEnd(current, total);
      [Prev(PageArg(current - 1), current <= 1)] + Lead(start) + Window(start, end, current)
        + Trail(end, total, last) + [Next(PageArg(current + 1), current >= total)]
  }

  /** The strip as the dashboard builds it: the last-page button passes the identifier
      `totalPages`, which names no variable where the markup runs. */
  function Strip(current: int, total: int): seq<Piece> {
    StripWith(current, total, Identifier("totalPages"))
  }

  /** The strip with the last-page button passing the last page number. */
  function CorrectedStrip(current: int, total: int): seq<Piece> {
    StripWith(current, total, PageArg(total))
  }

  /** The loop of `pagination`: one numbered button per page from start to end. */
  method AppendWindow(pieces: seq<Piece>, start: int, end: int, current: int) returns (r: seq<Piece>)
    ensures r == pieces + Window(start, end, current)
  {
    r := pieces;
    var i := start;
    while i <= end
      invariant start <= i <= Max(start, end + 1)
      invariant r == pieces + Window(start, i - 1, current)
    {
      r := r + [PageButton(i, PageArg(i), i == current)];
      i := i + 1;
    }
    assert Window(start, i - 1, current) == Window(start, end, current);
  }

  /** `pagination`: the strip built piece by piece. */
  method Pagination(current: int, total: int) returns (pieces: seq<Piece>)
    ensures pieces == Strip(current, total)
  {
    if total <= 1 {
      return [];
    }
    pieces := [Prev(PageArg(current - 1), current <= 1)];
    var start := Max(1, current - Range);
    var end := Min(total, current + Range);
    if start > 1 {
      pieces := pieces + [PageButton(1, PageArg(1), false)];
      if start > 2 {
        pieces := pieces + [Gap];
      }
    }
    assert pieces == [Prev(PageArg(current - 1), current <= 1)] + Lead(start);
    pieces := AppendWindow(pieces, start, end, current);
    ghost var body := pieces;
    if end < total {
      if end < total - 1 {
        pieces := pieces + [Gap];
      }
      pieces := pieces + [PageButton(total, Identifier("totalPages"), false)];
    }
    assert pieces == body + Trail(end, total, Identifier("totalPages"));
    pieces := pieces + [Next(PageArg(current + 1), current >= total)];
    assert start == WindowStart(current) && end == WindowEnd(current, total);
  }

  /** A page button exists with number p. */
  ghost predicate HasButton(s: seq<Piece>, p: int) {
    exists k :: 0 <= k < |s| && s[k].PageButton? && s[k].number == p
  }

  /** Prev comes first and Next last; prev is disabled iff the current page is at most 1
      and next iff it is at least the total; only the current page is marked active. */
  lemma StripEnds(current: int, total: int, last: Arg)
    requires total > 1
    ensures var s := StripWith(current, total, last);
      && |s| >= 2
      && s[0] == Prev(PageArg(current - 1), current <= 1)
      && s[|s| - 1] == Next(PageArg(current + 1), current >= total)
      && forall k :: 0 <= k < |s| && s[k].PageButton? && s[k].active ==> s[k].number == current
  {
    var s := StripWith(current, total, last);
    var start := WindowStart(current);
    var end := WindowEnd(current, total);
    StripIndex(current, total, last);
  }

  /** Where each part of the strip sits: the lead from position 1, the window from
      position 1 + |lead|, the trail after it, next at the end. */
  lemma StripIndex(current: int, total: int, last: Arg)
    requires total > 1
    ensures var s := StripWith(current, total, last);
      var l := Lead(WindowStart(current));
      var w := Window(WindowStart(current), WindowEnd(current, total), current);
      var t := Trail(WindowEnd(current, total), total, last);
      && |s| == 2 + |l| + |w| + |t|
      && s[0] == Prev(PageArg(current - 1), current <= 1)
      && s[|s| - 1] == Next(PageArg(current + 1), current >= total)
      && (forall k :: 1 <= k < 1 + |l| ==> s[k] == l[k - 1])
      && (forall k :: 1 + |l| <= k < 1 + |l| + |w| ==>
            s[k] == PageButton(WindowStart(current) + (k - 1 - |l|), PageArg(WindowStart(current) + (k - 1 - |l|)),
                               WindowStart(current) + (k - 1 - |l|) == current))
      && (forall k :: 1 + |l| + |w| <= k < 1 + |l| + |w| + |t| ==> s[k] == t[k - 1 - |l| - |w|])
  {
    var s := StripWith(current, total, last);
    var l := Lead(WindowStart(current));
    var w := Window(WindowStart(current), WindowEnd(current, total), current);
    WindowAt(WindowStart(current), WindowEnd(current, total), current);
    assert forall k :: 1 + |l| <= k < 1 + |l| + |w| ==> s[k] == w[k - 1 - |l|];
  }

  /** For a current page within range, the strip has a button for page p (1 <= p <= total)
      iff p is the first page, the last page, or within two of the current page; the page
      numbers increase strictly from left to right, so no page appears twice. */
  lemma StripPages(current: int, total: int, last: Arg, p: int)
    requires 1 <= current <= total && 1 <= p <= total && total > 1
    ensures HasButton(StripWith(current, total, last), p) <==> p == 1 || p == total || current - Range <= p <= current + Range
    ensures var s := StripWith(current, total, last);
      forall j, k :: 0 <= j < k < |s| && s[j].PageButton? && s[k].PageButton? ==> s[j].number < s[k].number
  {
    var s := StripWith(current, total, last);
    var start := WindowStart(current);
    var end := WindowEnd(current, total);
    StripIndex(current, total, last);
    StripNumbers(current, total, last);
    if p == 1 || p == total || current - Range <= p <= current + Range {
      if start <= p <= end {
        assert s[1 + |Lead(start)| + (p - start)].number == p;
      } else if p == 1 {
        assert s[1].number == p;
      } else {
        assert s[|s| - 2].number == p;
      }
    }
  }

  /** The number of the page button at position k, by the part it falls in. */
  lemma StripNumbers(current: int, total: int, last: Arg)
    requires 1 <= current <= total && total > 1
    ensures var s := StripWith(current, total, last);
      var a := 1 + |Lead(WindowStart(current))|;
      var b := a + |Window(WindowStart(current), WindowEnd(current, total), current)|;
      forall k :: 0 <= k < |s| && s[k].PageButton? ==>
        && (k < a ==> s[k].number == 1 && WindowStart(current) > 1)
        && (a <= k < b ==> s[k].number == WindowStart(current) + (k - a))
        && (b <= k ==> s[k].number == total && WindowEnd(current, total) < total)
  {
    StripIndex(current, total, last);
  }

  /** Two neighbouring page buttons show consecutive pages. */
  lemma StripAdjacent(current: int, total: int, last: Arg)
    requires 1 <= current <= total
    ensures var s := StripWith(current, total, last);
      forall k :: 0 <= k < |s| - 1 && s[k].PageButton? && s[k + 1].PageButton? ==> s[k + 1].number == s[k].number + 1
  {
    if total > 1 {
      var s := StripWith(current, total, last);
      var start := WindowStart(current);
      var end := WindowEnd(current, total);
      var l := Lead(start);
      var w := Window(start, end, current);
      var t := Trail(end, total, last);
      var a := 1 + |l|;
      var b := a + |w|;
      StripIndex(current, total, last);
      forall k | 0 <= k < |s| - 1 && s[k].PageButton? && s[k + 1].PageButton?
        ensures s[k + 1].number == s[k].number + 1
      {
        if k < a {
          assert k == 1 && s[k] == l[0] && |l| == 1 && start == 2;
        } else if k + 1 >= b {
          assert k + 1 == b && s[k + 1] == t[0] && |t| == 1;
        }
      }
    }
  }

  /** A gap stands between two page buttons whose pages are further apart than one. */
  lemma StripGaps(current: int, total: int, last: Arg)
    requires 1 <= current <= total
    ensures var s := StripWith(current, total, last);
      forall k :: 0 < k < |s| - 1 && s[k].Gap? ==>
        s[k - 1].PageButton? && s[k + 1].PageButton? && s[k + 1].number > s[k - 1].number + 1
  {
    if total > 1 {
      var s := StripWith(current, total, last);
      var start := WindowStart(current);
      var end := WindowEnd(current, total);
      var l := Lead(start);
      var w := Window(start, end, current);
      var t := Trail(end, total, last);
      var a := 1 + |l|;
      var b := a + |w|;
      StripIndex(current, total, last);
      forall k | 0 < k < |s| - 1 && s[k].Gap?
        ensures s[k - 1].PageButton? && s[k + 1].PageButton? && s[k + 1].number > s[k - 1].number + 1
      {
        if k < a {
          assert k == 2 && s[1] == l[0] && k + 1 == a;
        } else {
          assert k == b && s[k] == t[0] && s[k + 1] == t[1];
        }
      }
    }
  }

  /** In the corrected strip every page button passes its own page number. */
  lemma CorrectedStripTargets(current: int, total: int)
    ensures var s := CorrectedStrip(current, total);
      forall k :: 0 <= k < |s| && s[k].PageButton? ==> s[k].target == PageArg(s[k].number)
  {
    if total > 1 {
      StripIndex(current, total, PageArg(total));
    }
  }

  /** As built, on page 1 of 5 the last-page button passes no page number. */
  lemma StripLastButtonUnbound()
    ensures var s := Strip(1, 5);
      |s| == 7 && s[5] == PageButton(5, Identifier("totalPages"), false) && !s[5].target.PageArg?
  {
    StripIndex(1, 5, Identifier("totalPages"));
  }

  // ===================== uptime =====================

  /** JavaScript's `%` on integers: the remainder takes the sign of the dividend. */
  function JsRem(a: int, b: int): (r: int)
    requires b > 0
    ensures a >= 0 ==> r == a % b
    ensures -b < r < b && (a < 0 ==> r <= 0)
    ensures (a - r) % b == 0
  {
    var q := if a >= 0 then a / b else -((-a) / b);
    var rem := if a >= 0 then a % b else -((-a) % b);
    assert a - rem == q * b;
    MultipleRem(q, b);
    rem
  }

  /** A multiple of `b` leaves no remainder. */
  lemma MultipleRem(q: int, b: int)
    requires b > 0
    ensures (q * b) % b == 0
  {
    var d := q - (q * b) / b;
    assert (q * b) % b == d * b;
  }

  /** What `formatUptime` shows. */
  datatype UptimeText = NoUptime | DaysHours(days: int, hours: int) | HoursMins(hours: int, mins: int) | Mins(mins: int)

  /** `formatUptime` on a whole number of seconds; 0 shows as "-". */
  function UptimeParts(seconds: int): UptimeText {
    if seconds == 0 then NoUptime
    else
      var days := seconds / 86400;
      var hours := JsRem(seconds, 86400) / 3600;
      var mins := JsRem(seconds, 3600) / 60;
      if days > 0 then DaysHours(days, hours)
      else if hours > 0 then HoursMins(hours, mins)
      else Mins(mins)
  }

  /** The text of `formatUptime`. */
  function FormatUptime(seconds: int): string {
    match UptimeParts(seconds)
    case NoUptime => "-"
    case DaysHours(d, h) => IntToString(d) + "d " + IntToString(h) + "h"
    case HoursMins(h, m) => IntToString(h) + "h " + IntToString(m) + "m"
    case Mins(m) => IntToString(m) + "m"
  }

  /** For a positive uptime the two largest non-zero units are shown, the rest truncated:
      days and hours from a day on, hours and minutes from an hour on, else minutes. */
  lemma UptimeTruncates(seconds: int)
    requires seconds > 0
    ensures match UptimeParts(seconds)
      case DaysHours(d, h) =>
        seconds >= 86400 && d >= 1 && 0 <= h < 24 && d * 86400 + h * 3600 <= seconds < d * 86400 + h * 3600 + 3600
      case HoursMins(h, m) =>
        3600 <= seconds < 86400 && 1 <= h < 24 && 0 <= m < 60 && h * 3600 + m * 60 <= seconds < h * 3600 + m * 60 + 60
      case Mins(m) =>
        seconds < 3600 && 0 <= m < 60 && m * 60 <= seconds < m * 60 + 60
      case NoUptime => false
  {
    var d := seconds / 86400;
    var r := seconds % 86400;
    assert seconds == d * 86400 + r;
    var h := r / 3600;
    assert r == h * 3600 + r % 3600;
    if d == 0 {
      assert r == seconds;
      var m := (seconds % 3600) / 60;
      assert seconds % 3600 == m * 60 + (seconds % 3600) % 60;
    }
  }

  /** A negative uptime falls through to minutes, between -60 and 0. */
  lemma UptimeNegative(seconds: int)
    requires seconds < 0
    ensures UptimeParts(seconds).Mins? && -60 <= UptimeParts(seconds).mins <= 0
  {
  }

  // ===================== CPU colour =====================

  datatype Colour = Red | Orange | Yellow | Green

  /** The CSS colour each band is drawn in. */
  function Hex(c: Colour): string {
    match c
    case Red => "#ff4757"
    case Orange => "#ffa502"
    case Yellow => "#ffd93d"
    case Green => "#00ff88"
  }

  /** `cpuColor`. */
  function CpuColour(value: real): Colour {
    if value > 80.0 then Red
    else if value > 60.0 then Orange
    else if value > 40.0 then Yellow
    else Green
  }

  function Severity(c: Colour): nat {
    match c
    case Green => 0
    case Yellow => 1
    case Orange => 2
    case Red => 3
  }

  /** The bands: red above 80, orange in (60, 80], yellow in (40, 60], green up to 40;
      a higher load never gets a milder colour. */
  lemma CpuColourBands(a: real, b: real)
    ensures CpuColour(a) == Red <==> a > 80.0
    ensures CpuColour(a) == Orange <==> 60.0 < a <= 80.0
    ensures CpuColour(a) == Yellow <==> 40.0 < a <= 60.0
    ensures CpuColour(a) == Green <==> a <= 40.0
    ensures a <= b ==> Severity(CpuColour(a)) <= Severity(CpuColour(b))
  {
  }

  // ===================== time ago =====================

  datatype Ago = Never | JustNow | MinutesAgo(n: int) | HoursAgo(n: int) | DaysAgo(n: int)

  /** `timeAgo` with the clock as a parameter; whole seconds are floored. */
  function TimeAgo(last: Option<int>, now: int): Ago {
    if last.None? then Never
    else
      var secs := (now - last.value) / 1000;
      if secs < 60 then JustNow
      else if secs < 3600 then MinutesAgo(secs / 60)
      else if secs < 86400 then HoursAgo(secs / 3600)
      else DaysAgo(secs / 86400)
  }

  /** The buckets: each count is the elapsed whole seconds floored to its unit and lies
      below the next unit; a future or under-a-minute time is "just now". */
  lemma TimeAgoBuckets(last: int, now: int)
    ensures var secs := (now - last) / 1000;
      match TimeAgo(Some(last), now)
      case JustNow => secs < 60
      case MinutesAgo(n) => 1 <= n < 60 && n * 60 <= secs < n * 60 + 60
      case HoursAgo(n) => 1 <= n < 24 && n * 3600 <= secs < n * 3600 + 3600
      case DaysAgo(n) => n >= 1 && n * 86400 <= secs < n * 86400 + 86400
      case Never => false
  {
  }

  // ===================== bytes and bandwidth =====================

  datatype ByteUnit = B | KB | MB | GB

  function UnitSize(u: ByteUnit): real {
    match u
    case B => 1.0
    case KB => 1024.0
    case MB => 1048576.0
    case GB => 1073741824.0
  }

  /** A figure and the unit it is shown in. */
  datatype Scaled = Scaled(value: real, unit: ByteUnit)

  /** `formatBytes` before rounding to one decimal. */
  function FormatBytes(bytes: real): Scaled {
    if bytes >= 1073741824.0 then Scaled(bytes / 1073741824.0, GB)
    else if bytes >= 1048576.0 then Scaled(bytes / 1048576.0, MB)
    else if bytes >= 1024.0 then Scaled(bytes / 1024.0, KB)
    else Scaled(bytes, B)
  }

  /** The shown figure times its unit is the input; the unit is the largest one not
      above the input, so below GB the figure lies in [1, 1024). */
  lemma FormatBytesUnit(bytes: real)
    ensures var r := FormatBytes(bytes);
      && r.value * UnitSize(r.unit) == bytes
      && (r.unit == B <==> bytes < 1024.0)
      && (r.unit != B ==> r.value >= 1.0)
      && (r.unit != GB ==> r.value < 1024.0)
  {
  }

  datatype RateUnit = KBps | MBps

  /** `formatBandwidth` before rounding: KB/s switch to MB/s from 1024 on. */
  function FormatBandwidth(kbps: real): (r: (real, RateUnit)) {
    if kbps >= 1024.0 then (kbps / 1024.0, MBps) else (kbps, KBps)
  }

  lemma FormatBandwidthUnit(kbps: real)
    ensures var (v, u) := FormatBandwidth(kbps);
      && (u == MBps <==> kbps >= 1024.0)
      && (if u == MBps then v * 1024.0 == kbps && v >= 1.0 else v == kbps && v < 1024.0)
  {
  }
}
