/** The analytics overview: daily buckets and totals over an account's calls, video
    sessions and messages. Instants are microseconds; minutes are exact reals. */
module Analytics {
  import opened Seqs
  import opened Rounding

  const MAX_RANGE_DAYS := 90
  const DAY := 86_400_000_000

  datatype Call = Call(accountId: string, createdAt: int, duration: Option<int>)

  datatype Participant = Participant(accountId: string, joinedAt: int, leftAt: Option<int>)

  datatype Message = Message(accountId: string, createdAt: int)

  datatype Stats = Stats(calls: nat, callMinutes: real, videoMinutes: real, messages: nat)

  datatype Point = Point(date: int, stats: Stats)

  datatype Overview = Overview(
    rangeDays: int, totalCalls: nat, totalCallMinutes: real, totalVideoMinutes: real, totalMessages: nat,
    activeNumbers: nat, aiSummaries: nat, daily: seq<Point>)

  const ZERO := Stats(0, 0.0, 0.0, 0)

  /** The number of days in the range 1 to 90 that is closest to the one asked for. */
  function ClampDays(days: int): (r: int)
    ensures 1 <= r <= MAX_RANGE_DAYS
    ensures r != days ==> (days < r == 1) || (days > r == MAX_RANGE_DAYS)
  {
    var small := if days < MAX_RANGE_DAYS then days else MAX_RANGE_DAYS;
    if small < 1 then 1 else small
  }

  /** The calendar date of an instant, as a day number. */
  function DateOf(t: int): int {
    t / DAY
  }

  function CallDate(c: Call): int { DateOf(c.createdAt) }

  function ParticipantDate(p: Participant): int { DateOf(p.joinedAt) }

  function MessageDate(m: Message): int { DateOf(m.createdAt) }

  /** `(call.duration or 0) / 60` */
  function CallMinutes(c: Call): real {
    (if c.duration.Some? then c.duration.value else 0) as real / 60.0
  }

  /** A participant who has not left is counted up to now. */
  function VideoMinutes(now: int): Participant -> real {
    (p: Participant) => ((if p.leftAt.Some? then p.leftAt.value else now) - p.joinedAt) as real / 60_000_000.0
  }

  // ----- sums -----

  function Sum<T>(weight: T -> real, rows: seq<T>): real {
    if rows == [] then 0.0 else Sum(weight, rows[..|rows| - 1]) + weight(rows[|rows| - 1])
  }

  function SumOn<T>(weight: T -> real, date: T -> int, rows: seq<T>, d: int): real {
    if rows == [] then 0.0
    else
      var last := rows[|rows| - 1];
      SumOn(weight, date, rows[..|rows| - 1], d) + if date(last) == d then weight(last) else 0.0
  }

  function CountOn<T>(date: T -> int, rows: seq<T>, d: int): nat {
    if rows == [] then 0 else CountOn(date, rows[..|rows| - 1], d) + if date(rows[|rows| - 1]) == d then 1 else 0
  }

  /** The unrounded figures of one date. */
  function StatsOn(calls: seq<Call>, participants: seq<Participant>, messages: seq<Message>, now: int, d: int): Stats {
    Stats(CountOn(CallDate, calls, d), SumOn(CallMinutes, CallDate, calls, d),
          SumOn(VideoMinutes(now), ParticipantDate, participants, d), CountOn(MessageDate, messages, d))
  }

  function Dates<T>(date: T -> int, rows: seq<T>): set<int> {
    set i | 0 <= i < |rows| :: date(rows[i])
  }

  function AllDates(calls: seq<Call>, participants: seq<Participant>, messages: seq<Message>): set<int> {
    Dates(CallDate, calls) + Dates(ParticipantDate, participants) + Dates(MessageDate, messages)
  }

  lemma SumAppend<T>(weight: T -> real, date: T -> int, rows: seq<T>, x: T, d: int)
    ensures Sum(weight, rows + [x]) == Sum(weight, rows) + weight(x)
    ensures SumOn(weight, date, rows + [x], d) == SumOn(weight, date, rows, d) + if date(x) == d then weight(x) else 0.0
    ensures CountOn(date, rows + [x], d) == CountOn(date, rows, d) + if date(x) == d then 1 else 0
  {
    assert (rows + [x])[..|rows|] == rows;
  }

  lemma DatesAppend<T>(date: T -> int, rows: seq<T>, x: T)
    ensures Dates(date, rows + [x]) == Dates(date, rows) + {date(x)}
  {
    var s := rows + [x];
    forall d ensures d in Dates(date, s) <==> d in Dates(date, rows) + {date(x)} {
      if d in Dates(date, rows) {
        var i :| 0 <= i < |rows| && date(rows[i]) == d;
        assert date(s[i]) == d;
      }
      if d == date(x) { assert date(s[|rows|]) == d; }
    }
  }

  // ----- what an overview is -----

  ghost predicate DatesIncrease(points: seq<Point>) {
    forall i, j :: 0 <= i < j < |points| ==> points[i].date < points[j].date
  }

  ghost predicate HasDate(points: seq<Point>, d: int) {
    exists i :: 0 <= i < |points| && points[i].date == d
  }

  function RoundStats(s: Stats): Stats {
    s.(callMinutes := Round2(s.callMinutes), videoMinutes := Round2(s.videoMinutes))
  }

  /** One point per date that has any row, dates increasing, each with the rounded
      figures of its date; and the rounded totals. */
  ghost predicate IsOverview(calls: seq<Call>, participants: seq<Participant>, messages: seq<Message>, now: int, o: Overview) {
    && DatesIncrease(o.daily)
    && (forall d :: d in AllDates(calls, participants, messages) <==> HasDate(o.daily, d))
    && (forall i :: 0 <= i < |o.daily| ==>
          o.daily[i].stats == RoundStats(StatsOn(calls, participants, messages, now, o.daily[i].date)))
    && o.totalCalls == |calls| && o.totalMessages == |messages|
    && o.totalCallMinutes == Round2(Sum(CallMinutes, calls))
    && o.totalVideoMinutes == Round2(Sum(VideoMinutes(now), participants))
  }

  // ----- conservation and the rounding bound -----

  /** The unrounded figures of several dates together. */
  function SumOverDates<T>(weight: T -> real, date: T -> int, rows: seq<T>, ds: seq<int>): real {
    if ds == [] then 0.0 else SumOn(weight, date, rows, ds[0]) + SumOverDates(weight, date, rows, ds[1..])
  }

  ghost predicate Distinct(ds: seq<int>) {
    forall i, j :: 0 <= i < j < |ds| ==> ds[i] != ds[j]
  }

  lemma {:induction false} SumOverDatesAppend<T>(weight: T -> real, date: T -> int, rows: seq<T>, x: T, ds: seq<int>)
    requires Distinct(ds)
    ensures SumOverDates(weight, date, rows + [x], ds) ==
            SumOverDates(weight, date, rows, ds) + if date(x) in ds then weight(x) else 0.0
  {
    if ds != [] {
      SumOverDatesAppend(weight, date, rows, x, ds[1..]);
      SumAppend(weight, date, rows, x, ds[0]);
      assert ds == [ds[0]] + ds[1..];
    }
  }

  lemma {:induction false} NothingOnAnyDate<T>(weight: T -> real, date: T -> int, ds: seq<int>)
    ensures SumOverDates(weight, date, [], ds) == 0.0
  {
    if ds != [] { NothingOnAnyDate(weight, date, ds[1..]); }
  }

  /** Before rounding, the days add up to the total exactly. */
  lemma {:induction false} DaysAddUp<T>(weight: T -> real, date: T -> int, rows: seq<T>, ds: seq<int>)
    requires Distinct(ds) && forall i :: 0 <= i < |rows| ==> date(rows[i]) in ds
    ensures SumOverDates(weight, date, rows, ds) == Sum(weight, rows)
  {
    if rows == [] {
      NothingOnAnyDate(weight, date, ds);
    } else {
      var rest, last := rows[..|rows| - 1], rows[|rows| - 1];
      DaysAddUp(weight, date, rest, ds);
      SumOverDatesAppend(weight, date, rest, last, ds);
      assert rows == rest + [last];
    }
  }

  function Figures<T>(f: Stats -> T, points: seq<Point>): seq<T> {
    if points == [] then [] else [f(points[0].stats)] + Figures(f, points[1..])
  }

  function SumReals(xs: seq<real>): real {
    if xs == [] then 0.0 else xs[0] + SumReals(xs[1..])
  }

  function SumNats(xs: seq<nat>): nat {
    if xs == [] then 0 else xs[0] + SumNats(xs[1..])
  }

  function DatesOf(points: seq<Point>): (ds: seq<int>)
    ensures |ds| == |points| && forall i :: 0 <= i < |points| ==> ds[i] == points[i].date
  {
    if points == [] then [] else [points[0].date] + DatesOf(points[1..])
  }

  /** Rounding each of n figures moves their sum by at most 0.005 n. */
  lemma {:induction false} RoundedFiguresAreNear<T>(weight: T -> real, date: T -> int, rows: seq<T>, f: Stats -> real, points: seq<Point>)
    requires forall i :: 0 <= i < |points| ==> f(points[i].stats) == Round2(SumOn(weight, date, rows, points[i].date))
    ensures -0.005 * |points| as real
            <= SumReals(Figures(f, points)) - SumOverDates(weight, date, rows, DatesOf(points))
            <= 0.005 * |points| as real
  {
    if points != [] {
      RoundedFiguresAreNear(weight, date, rows, f, points[1..]);
      Round2IsNear(SumOn(weight, date, rows, points[0].date));
    }
  }

  lemma {:induction false} CountsAddUp<T>(date: T -> int, rows: seq<T>, f: Stats -> nat, points: seq<Point>)
    requires forall i :: 0 <= i < |points| ==> f(points[i].stats) == CountOn(date, rows, points[i].date)
    ensures SumNats(Figures(f, points)) as real == SumOverDates((x: T) => 1.0, date, rows, DatesOf(points))
  {
    if points != [] {
      CountsAddUp(date, rows, f, points[1..]);
      CountIsSumOfOnes(date, rows, points[0].date);
    }
  }

  lemma {:induction false} CountIsSumOfOnes<T>(date: T -> int, rows: seq<T>, d: int)
    ensures CountOn(date, rows, d) as real == SumOn((x: T) => 1.0, date, rows, d)
    ensures |rows| as real == Sum((x: T) => 1.0, rows)
  {
    if rows != [] { CountIsSumOfOnes(date, rows[..|rows| - 1], d); }
  }

  lemma PointsCoverRows<T>(date: T -> int, rows: seq<T>, points: seq<Point>)
    requires DatesIncrease(points)
    requires forall d :: d in Dates(date, rows) ==> HasDate(points, d)
    ensures Distinct(DatesOf(points)) && forall i :: 0 <= i < |rows| ==> date(rows[i]) in DatesOf(points)
  {
    forall i | 0 <= i < |rows| ensures date(rows[i]) in DatesOf(points) {
      assert date(rows[i]) in Dates(date, rows) && HasDate(points, date(rows[i]));
      var k :| 0 <= k < |points| && points[k].date == date(rows[i]);
      assert DatesOf(points)[k] == date(rows[i]);
    }
  }

  function CallsOf(s: Stats): nat { s.calls }

  function MessagesOf(s: Stats): nat { s.messages }

  function CallMinutesOf(s: Stats): real { s.callMinutes }

  function VideoMinutesOf(s: Stats): real { s.videoMinutes }

  lemma CountsOfPointsAddUp<T>(date: T -> int, rows: seq<T>, f: Stats -> nat, points: seq<Point>)
    requires DatesIncrease(points)
    requires forall d :: d in Dates(date, rows) ==> HasDate(points, d)
    requires forall i :: 0 <= i < |points| ==> f(points[i].stats) == CountOn(date, rows, points[i].date)
    ensures SumNats(Figures(f, points)) == |rows|
  {
    PointsCoverRows(date, rows, points);
    CountsAddUp(date, rows, f, points);
    DaysAddUp((x: T) => 1.0, date, rows, DatesOf(points));
    CountIsSumOfOnes(date, rows, 0);
  }

  lemma MinutesOfPointsAreNear<T>(weight: T -> real, date: T -> int, rows: seq<T>, f: Stats -> real, points: seq<Point>)
    requires DatesIncrease(points)
    requires forall d :: d in Dates(date, rows) ==> HasDate(points, d)
    requires forall i :: 0 <= i < |points| ==> f(points[i].stats) == Round2(SumOn(weight, date, rows, points[i].date))
    ensures var n := |points| as real;
            -0.005 * (n + 1.0) <= SumReals(Figures(f, points)) - Round2(Sum(weight, rows)) <= 0.005 * (n + 1.0)
  {
    PointsCoverRows(date, rows, points);
    RoundedFiguresAreNear(weight, date, rows, f, points);
    DaysAddUp(weight, date, rows, DatesOf(points));
    Round2IsNear(Sum(weight, rows));
  }

  /** In every overview the daily counts add up to the totals, and the reported daily
      minutes differ from the reported total by at most 0.005 (n + 1). */
  lemma OverviewConserves(calls: seq<Call>, participants: seq<Participant>, messages: seq<Message>, now: int, o: Overview)
    requires IsOverview(calls, participants, messages, now, o)
    ensures SumNats(Figures(CallsOf, o.daily)) == o.totalCalls
    ensures SumNats(Figures(MessagesOf, o.daily)) == o.totalMessages
    ensures var bound := 0.005 * (|o.daily| as real + 1.0);
            && -bound <= SumReals(Figures(CallMinutesOf, o.daily)) - o.totalCallMinutes <= bound
            && -bound <= SumReals(Figures(VideoMinutesOf, o.daily)) - o.totalVideoMinutes <= bound
  {
    CountsOfPointsAddUp(CallDate, calls, CallsOf, o.daily);
    CountsOfPointsAddUp(MessageDate, messages, MessagesOf, o.daily);
    MinutesOfPointsAreNear(CallMinutes, CallDate, calls, CallMinutesOf, o.daily);
    MinutesOfPointsAreNear(VideoMinutes(now), ParticipantDate, participants, VideoMinutesOf, o.daily);
  }

  // ----- how many points there can be -----

  lemma {:induction false} IncreasingDatesSpread(points: seq<Point>, i: nat)
    requires DatesIncrease(points) && i < |points|
    ensures points[i].date >= points[0].date + i
  {
    if i > 0 { IncreasingDatesSpread(points, i - 1); }
  }

  function Since(firstClock: int, days: int): int {
    firstClock - ClampDays(days) * DAY
  }

  lemma WholeDaysShiftDate(t: int, days: nat)
    ensures DateOf(t - days * DAY) == DateOf(t) - days
  {
  }

  ghost predicate InWindow(calls: seq<Call>, participants: seq<Participant>, messages: seq<Message>, since: int, now: int) {
    && (forall c :: c in calls ==> since <= c.createdAt <= now)
    && (forall p :: p in participants ==> since <= p.joinedAt <= now)
    && (forall m :: m in messages ==> since <= m.createdAt <= now)
  }

  /** The window start is computed from one clock reading and `now` is another: one
      point more than the days asked for, and another for each midnight between them. */
  function MaxPoints(firstClock: int, now: int, days: int): int {
    ClampDays(days) + 1 + (DateOf(now) - DateOf(firstClock))
  }

  /** When no row is dated after now, the days of the range bound the number of points. */
  lemma PointsPerRange(calls: seq<Call>, participants: seq<Participant>, messages: seq<Message>,
                       firstClock: int, now: int, days: int, o: Overview)
    requires IsOverview(calls, participants, messages, now, o) && firstClock <= now
    requires InWindow(calls, participants, messages, Since(firstClock, days), now)
    ensures |o.daily| <= MaxPoints(firstClock, now, days)
  {
    if o.daily != [] {
      var n := |o.daily|;
      IncreasingDatesSpread(o.daily, n - 1);
      WholeDaysShiftDate(firstClock, ClampDays(days));
      forall d | d in AllDates(calls, participants, messages)
        ensures DateOf(firstClock) - ClampDays(days) <= d <= DateOf(now)
      {
      }
      assert HasDate(o.daily, o.daily[0].date) && HasDate(o.daily, o.daily[n - 1].date);
    }
  }

  /** An account with one call a day, and one now. */
  function CallEachDay(account: string, from: int, now: int): seq<Call>
    decreases now - from
  {
    if from >= now then [Call(account, now, None)]
    else [Call(account, from, None)] + CallEachDay(account, from + DAY, now)
  }

  lemma {:induction false} CallEachDayCovers(account: string, from: int, now: int, d: int)
    requires from <= now || d == DateOf(now)
    requires DateOf(from) <= d <= DateOf(now) || d == DateOf(now)
    ensures d in Dates(CallDate, CallEachDay(account, from, now))
    decreases now - from
  {
    var calls := CallEachDay(account, from, now);
    if from >= now || d == DateOf(from) {
      assert CallDate(calls[0]) == d;
    } else {
      CallEachDayCovers(account, from + DAY, now, d);
      var i :| 0 <= i < |calls| - 1 && CallDate(calls[1..][i]) == d;
      assert CallDate(calls[i + 1]) == d;
    }
  }

  lemma {:induction false} CallEachDayIsInWindow(account: string, from: int, since: int, now: int)
    requires since <= from && since <= now
    ensures InWindow(CallEachDay(account, from, now), [], [], since, now)
    decreases now - from
  {
    if from < now { CallEachDayIsInWindow(account, from + DAY, since, now); }
  }

  lemma {:induction false} DatesNeedPoints(points: seq<Point>, first: int, d: int, i: nat)
    requires DatesIncrease(points) && first <= d && i < |points| && points[i].date == d
    requires forall e :: first <= e <= d ==> HasDate(points, e)
    ensures i >= d - first
    decreases d - first
  {
    if first < d {
      assert HasDate(points, d - 1);
      var j :| 0 <= j < |points| && points[j].date == d - 1;
      DatesNeedPoints(points, first, d - 1, j);
    }
  }

  /** The bound is reached by an account with a call a day, so `days + 1` alone bounds
      the points only when both clock readings fall on one date. */
  lemma PointsReachBound(account: string, firstClock: int, now: int, days: int, o: Overview)
    requires firstClock <= now
    requires IsOverview(CallEachDay(account, Since(firstClock, days), now), [], [], now, o)
    ensures InWindow(CallEachDay(account, Since(firstClock, days), now), [], [], Since(firstClock, days), now)
    ensures |o.daily| == MaxPoints(firstClock, now, days)
    ensures |o.daily| <= ClampDays(days) + 1 <==> DateOf(firstClock) == DateOf(now)
  {
    var from := Since(firstClock, days);
    CallEachDayIsInWindow(account, from, from, now);
    PointsPerRange(CallEachDay(account, from, now), [], [], firstClock, now, days, o);
    WholeDaysShiftDate(firstClock, ClampDays(days));
    forall d | DateOf(from) <= d <= DateOf(now) ensures HasDate(o.daily, d) {
      CallEachDayCovers(account, from, now, d);
    }
    assert HasDate(o.daily, DateOf(now));
    var i :| 0 <= i < |o.daily| && o.daily[i].date == DateOf(now);
    DatesNeedPoints(o.daily, DateOf(from), DateOf(now), i);
  }

  /** The points of the dates from a to b. */
  function PointsBetween(calls: seq<Call>, now: int, a: int, b: int): seq<Point>
    decreases b - a
  {
    if a > b then [] else [Point(a, RoundStats(StatsOn(calls, [], [], now, a)))] + PointsBetween(calls, now, a + 1, b)
  }

  lemma {:induction false} PointsBetweenAt(calls: seq<Call>, now: int, a: int, b: int)
    ensures |PointsBetween(calls, now, a, b)| == if a > b then 0 else b - a + 1
    ensures forall i :: 0 <= i < |PointsBetween(calls, now, a, b)| ==>
              PointsBetween(calls, now, a, b)[i] == Point(a + i, RoundStats(StatsOn(calls, [], [], now, a + i)))
    decreases b - a
  {
    if a <= b { PointsBetweenAt(calls, now, a + 1, b); }
  }

  /** An account with a call a day has an overview. */
  lemma DenseOverview(account: string, from: int, now: int) returns (o: Overview)
    requires from <= now
    ensures IsOverview(CallEachDay(account, from, now), [], [], now, o)
  {
    var calls := CallEachDay(account, from, now);
    var daily := PointsBetween(calls, now, DateOf(from), DateOf(now));
    PointsBetweenAt(calls, now, DateOf(from), DateOf(now));
    o := Overview(1, |calls|, Round2(Sum(CallMinutes, calls)), Round2(Sum(VideoMinutes(now), [])), 0, 0, 0, daily);
    DatesOfDenseCalls(account, from, now);
    forall d ensures d in AllDates(calls, [], []) <==> HasDate(daily, d) {
      if DateOf(from) <= d <= DateOf(now) { assert daily[d - DateOf(from)].date == d; }
    }
  }

  lemma DatesOfDenseCalls(account: string, from: int, now: int)
    requires from <= now
    ensures forall d :: d in AllDates(CallEachDay(account, from, now), [], []) <==> DateOf(from) <= d <= DateOf(now)
  {
    var calls := CallEachDay(account, from, now);
    CallEachDayIsInWindow(account, from, from, now);
    forall d | DateOf(from) <= d <= DateOf(now) ensures d in Dates(CallDate, calls) {
      CallEachDayCovers(account, from, now, d);
    }
    assert Dates(ParticipantDate, []) == {} && Dates(MessageDate, []) == {};
    forall d | d in Dates(CallDate, calls) ensures DateOf(from) <= d <= DateOf(now) {
      var i :| 0 <= i < |calls| && CallDate(calls[i]) == d;
      assert calls[i] in calls;
    }
  }

  /** No overview over rows of the window has more points than days + 1. */
  ghost predicate DaysBoundPoints(firstClock: int, now: int, days: int) {
    forall calls, participants, messages, o ::
      IsOverview(calls, participants, messages, now, o) ==>
        InWindow(calls, participants, messages, Since(firstClock, days), now) ==>
          |o.daily| <= ClampDays(days) + 1
  }

  /** Every account, whatever its rows, gets at most days + 1 points exactly when both
      clock readings fall on one date. */
  lemma DaysBoundPointsExactly(firstClock: int, now: int, days: int)
    requires firstClock <= now
    ensures DaysBoundPoints(firstClock, now, days) <==> DateOf(firstClock) == DateOf(now)
  {
    if DateOf(firstClock) == DateOf(now) {
      forall calls, participants, messages, o
        | IsOverview(calls, participants, messages, now, o)
          && InWindow(calls, participants, messages, Since(firstClock, days), now)
        ensures |o.daily| <= ClampDays(days) + 1
      {
        PointsPerRange(calls, participants, messages, firstClock, now, days, o);
      }
    } else {
      var from := Since(firstClock, days);
      var o := DenseOverview("", from, now);
      PointsReachBound("", firstClock, now, days, o);
    }
  }

  // ----- what an overview tells of the tables -----

  /** The sum of a figure over all rows; rows that do not count have the figure 0. */
  function Tally<T>(figure: T -> int, rows: seq<T>): int {
    if rows == [] then 0 else Tally(figure, rows[..|rows| - 1]) + figure(rows[|rows| - 1])
  }

  /** The seconds of a call that counts. */
  function CallSeconds(account: string, during: int -> bool): Call -> int {
    (c: Call) => if c.accountId == account && during(c.createdAt) && c.duration.Some? then c.duration.value else 0
  }

  /** The microseconds of a session that counts, up to now if it is still open. */
  function SessionMicros(account: string, during: int -> bool, now: int): Participant -> int {
    (p: Participant) =>
      if p.accountId != account || !during(p.joinedAt) then 0
      else if p.leftAt.Some? then p.leftAt.value - p.joinedAt
      else now - p.joinedAt
  }

  function From(since: int): int -> bool {
    (t: int) => t >= since
  }

  function OnDay(since: int, d: int): int -> bool {
    (t: int) => t >= since && d * 86_400_000_000 <= t < (d + 1) * 86_400_000_000
  }

  ghost predicate ActiveOn(account: string, during: int -> bool, calls: seq<Call>, participants: seq<Participant>, messages: seq<Message>) {
    || (exists i :: 0 <= i < |calls| && calls[i].accountId == account && during(calls[i].createdAt))
    || (exists i :: 0 <= i < |participants| && participants[i].accountId == account && during(participants[i].joinedAt))
    || (exists i :: 0 <= i < |messages| && messages[i].accountId == account && during(messages[i].createdAt))
  }

  /** The figures are those of the account's own rows during a time. */
  ghost predicate Figured(s: Stats, account: string, during: int -> bool, now: int, calls: seq<Call>, participants: seq<Participant>, messages: seq<Message>) {
    && s.calls == |set i | 0 <= i < |calls| && calls[i].accountId == account && during(calls[i].createdAt)|
    && s.messages == |set i | 0 <= i < |messages| && messages[i].accountId == account && during(messages[i].createdAt)|
    && s.callMinutes == Round2(Tally(CallSeconds(account, during), calls) as real / 60.0)
    && s.videoMinutes == Round2(Tally(SessionMicros(account, during, now), participants) as real / 60_000_000.0)
  }

  /** The totals are the account's own since the window began, there is a point for each
      day on which the account has a row, and it holds that day's figures. */
  ghost predicate TellsTables(account: string, since: int, now: int, calls: seq<Call>, participants: seq<Participant>, messages: seq<Message>, o: Overview) {
    && Figured(Stats(o.totalCalls, o.totalCallMinutes, o.totalVideoMinutes, o.totalMessages), account, From(since), now, calls, participants, messages)
    && DatesIncrease(o.daily)
    && (forall d :: HasDate(o.daily, d) <==> ActiveOn(account, OnDay(since, d), calls, participants, messages))
    && (forall k :: 0 <= k < |o.daily| ==>
          Figured(o.daily[k].stats, account, OnDay(since, o.daily[k].date), now, calls, participants, messages))
  }

  function Masked<T>(p: T -> bool, weight: T -> real): T -> real {
    x => if p(x) then weight(x) else 0.0
  }

  lemma {:induction false} SumIsMasked<T>(weight: T -> real, p: T -> bool, rows: seq<T>)
    ensures Sum(weight, Filter(p, rows)) == Sum(Masked(p, weight), rows)
  {
    if rows != [] {
      var rest, last := rows[..|rows| - 1], rows[|rows| - 1];
      assert rows == rest + [last];
      SumIsMasked(weight, p, rest);
      FilterConcat(p, rest, [last]);
      if p(last) {
        SumAppend(weight, (x: T) => 0, Filter(p, rest), last, 0);
      } else {
        assert Filter(p, rest) + [] == Filter(p, rest);
      }
    }
  }

  ghost predicate Additive(unit: int -> real) {
    unit(0) == 0.0 && forall a, b :: unit(a + b) == unit(a) + unit(b)
  }

  /** Figures in whole small units, summed and converted, or converted and summed. */
  lemma {:induction false} SumIsTally<T(!new)>(unit: int -> real, weight: T -> real, figure: T -> int, rows: seq<T>)
    requires Additive(unit) && forall x :: weight(x) == unit(figure(x))
    ensures Sum(weight, rows) == unit(Tally(figure, rows))
  {
    if rows != [] {
      var rest, last := rows[..|rows| - 1], rows[|rows| - 1];
      SumIsTally(unit, weight, figure, rest);
      assert unit(Tally(figure, rest) + figure(last)) == unit(Tally(figure, rest)) + unit(figure(last));
    }
  }

  lemma {:induction false} SumOnIsSum<T(!new)>(weight: T -> real, date: T -> int, rows: seq<T>, d: int)
    ensures SumOn(weight, date, rows, d) == Sum(weight, Filter(Dated(date, d), rows))
    ensures CountOn(date, rows, d) == |Filter(Dated(date, d), rows)|
  {
    if rows != [] {
      var rest, last := rows[..|rows| - 1], rows[|rows| - 1];
      assert rows == rest + [last];
      SumOnIsSum(weight, date, rest, d);
      FilterConcat(Dated(date, d), rest, [last]);
      if date(last) == d {
        SumAppend(weight, date, Filter(Dated(date, d), rest), last, d);
      } else {
        assert Filter(Dated(date, d), rest) + [] == Filter(Dated(date, d), rest);
      }
    }
  }

  function Dated<T>(date: T -> int, d: int): T -> bool {
    x => date(x) == d
  }

  function CallDuring(account: string, during: int -> bool): Call -> bool {
    (c: Call) => c.accountId == account && during(c.createdAt)
  }

  function SessionDuring(account: string, during: int -> bool): Participant -> bool {
    (p: Participant) => p.accountId == account && during(p.joinedAt)
  }

  function MessageDuring(account: string, during: int -> bool): Message -> bool {
    (m: Message) => m.accountId == account && during(m.createdAt)
  }

  function SecondsAsMinutes(): int -> real {
    (n: int) => n as real / 60.0
  }

  function MicrosAsMinutes(): int -> real {
    (n: int) => n as real / 60_000_000.0
  }

  lemma MinutesAreAdditive()
    ensures Additive(SecondsAsMinutes()) && Additive(MicrosAsMinutes())
  {
    forall a, b ensures SecondsAsMinutes()(a + b) == SecondsAsMinutes()(a) + SecondsAsMinutes()(b) {
      assert (a + b) as real / 60.0 == a as real / 60.0 + b as real / 60.0;
    }
    forall a, b ensures MicrosAsMinutes()(a + b) == MicrosAsMinutes()(a) + MicrosAsMinutes()(b) {
      assert (a + b) as real / 60_000_000.0 == a as real / 60_000_000.0 + b as real / 60_000_000.0;
    }
  }

  lemma CallsInSeconds(account: string, during: int -> bool, calls: seq<Call>)
    ensures Sum(CallMinutes, Filter(CallDuring(account, during), calls)) == Tally(CallSeconds(account, during), calls) as real / 60.0
  {
    var own, seconds := Masked(CallDuring(account, during), CallMinutes), CallSeconds(account, during);
    SumIsMasked(CallMinutes, CallDuring(account, during), calls);
    MinutesAreAdditive();
    forall c: Call ensures own(c) == SecondsAsMinutes()(seconds(c)) {
      assert CallMinutes(c) == (if c.duration.Some? then c.duration.value else 0) as real / 60.0;
    }
    SumIsTally(SecondsAsMinutes(), own, seconds, calls);
  }

  lemma SessionsInMicros(account: string, during: int -> bool, now: int, participants: seq<Participant>)
    ensures Sum(VideoMinutes(now), Filter(SessionDuring(account, during), participants)) ==
            Tally(SessionMicros(account, during, now), participants) as real / 60_000_000.0
  {
    var own, micros := Masked(SessionDuring(account, during), VideoMinutes(now)), SessionMicros(account, during, now);
    SumIsMasked(VideoMinutes(now), SessionDuring(account, during), participants);
    MinutesAreAdditive();
    forall p: Participant ensures own(p) == MicrosAsMinutes()(micros(p)) {
      assert VideoMinutes(now)(p) == ((if p.leftAt.Some? then p.leftAt.value else now) - p.joinedAt) as real / 60_000_000.0;
    }
    SumIsTally(MicrosAsMinutes(), own, micros, participants);
  }

  lemma CallsInNumber(account: string, during: int -> bool, calls: seq<Call>)
    ensures |Filter(CallDuring(account, during), calls)| ==
            |set i | 0 <= i < |calls| && calls[i].accountId == account && during(calls[i].createdAt)|
  {
    FilterCountsHits(CallDuring(account, during), calls);
    assert Hits(CallDuring(account, during), calls) ==
           set i | 0 <= i < |calls| && calls[i].accountId == account && during(calls[i].createdAt);
  }

  lemma MessagesInNumber(account: string, during: int -> bool, messages: seq<Message>)
    ensures |Filter(MessageDuring(account, during), messages)| ==
            |set i | 0 <= i < |messages| && messages[i].accountId == account && during(messages[i].createdAt)|
  {
    FilterCountsHits(MessageDuring(account, during), messages);
    assert Hits(MessageDuring(account, during), messages) ==
           set i | 0 <= i < |messages| && messages[i].accountId == account && during(messages[i].createdAt);
  }

  /** The figures of filtered rows. */
  lemma FiguredFromFilters(account: string, during: int -> bool, now: int, calls: seq<Call>, participants: seq<Participant>, messages: seq<Message>)
    ensures Figured(Stats(|Filter(CallDuring(account, during), calls)|,
                          Round2(Sum(CallMinutes, Filter(CallDuring(account, during), calls))),
                          Round2(Sum(VideoMinutes(now), Filter(SessionDuring(account, during), participants))),
                          |Filter(MessageDuring(account, during), messages)|),
                    account, during, now, calls, participants, messages)
  {
    CallsInNumber(account, during, calls);
    MessagesInNumber(account, during, messages);
    CallsInSeconds(account, during, calls);
    SessionsInMicros(account, during, now, participants);
  }

  lemma TotalsAreFigured(account: string, since: int, now: int, calls: seq<Call>, participants: seq<Participant>, messages: seq<Message>)
    ensures Figured(Stats(|Filter(OwnCall(account, since), calls)|, Round2(Sum(CallMinutes, Filter(OwnCall(account, since), calls))),
                          Round2(Sum(VideoMinutes(now), Filter(OwnParticipant(account, since), participants))),
                          |Filter(OwnMessage(account, since), messages)|),
                    account, From(since), now, calls, participants, messages)
  {
    FilterAgree(OwnCall(account, since), CallDuring(account, From(since)), calls);
    FilterAgree(OwnParticipant(account, since), SessionDuring(account, From(since)), participants);
    FilterAgree(OwnMessage(account, since), MessageDuring(account, From(since)), messages);
    FiguredFromFilters(account, From(since), now, calls, participants, messages);
  }

  lemma DateMeansDay(t: int, d: int)
    ensures DateOf(t) == d <==> d * 86_400_000_000 <= t < (d + 1) * 86_400_000_000
  {
  }

  lemma DayOfCalls(account: string, since: int, calls: seq<Call>, d: int)
    ensures CountOn(CallDate, Filter(OwnCall(account, since), calls), d) == |Filter(CallDuring(account, OnDay(since, d)), calls)|
    ensures SumOn(CallMinutes, CallDate, Filter(OwnCall(account, since), calls), d) ==
            Sum(CallMinutes, Filter(CallDuring(account, OnDay(since, d)), calls))
  {
    SumOnIsSum(CallMinutes, CallDate, Filter(OwnCall(account, since), calls), d);
    forall x: Call ensures CallDuring(account, OnDay(since, d))(x) <==> OwnCall(account, since)(x) && Dated(CallDate, d)(x) {
      DateMeansDay(x.createdAt, d);
      assert Dated(CallDate, d)(x) <==> CallDate(x) == d;
      assert CallDate(x) == DateOf(x.createdAt);
    }
    FilterTwice(OwnCall(account, since), Dated(CallDate, d), CallDuring(account, OnDay(since, d)), calls);
  }

  lemma DayOfSessions(account: string, since: int, now: int, participants: seq<Participant>, d: int)
    ensures SumOn(VideoMinutes(now), ParticipantDate, Filter(OwnParticipant(account, since), participants), d) ==
            Sum(VideoMinutes(now), Filter(SessionDuring(account, OnDay(since, d)), participants))
  {
    SumOnIsSum(VideoMinutes(now), ParticipantDate, Filter(OwnParticipant(account, since), participants), d);
    forall x: Participant ensures SessionDuring(account, OnDay(since, d))(x) <==> OwnParticipant(account, since)(x) && Dated(ParticipantDate, d)(x) {
      DateMeansDay(x.joinedAt, d);
      assert Dated(ParticipantDate, d)(x) <==> ParticipantDate(x) == d;
      assert ParticipantDate(x) == DateOf(x.joinedAt);
    }
    FilterTwice(OwnParticipant(account, since), Dated(ParticipantDate, d), SessionDuring(account, OnDay(since, d)), participants);
  }

  lemma DayOfMessages(account: string, since: int, messages: seq<Message>, d: int)
    ensures CountOn(MessageDate, Filter(OwnMessage(account, since), messages), d) == |Filter(MessageDuring(account, OnDay(since, d)), messages)|
  {
    SumOnIsSum((m: Message) => 0.0, MessageDate, Filter(OwnMessage(account, since), messages), d);
    forall x: Message ensures MessageDuring(account, OnDay(since, d))(x) <==> OwnMessage(account, since)(x) && Dated(MessageDate, d)(x) {
      DateMeansDay(x.createdAt, d);
      assert Dated(MessageDate, d)(x) <==> MessageDate(x) == d;
      assert MessageDate(x) == DateOf(x.createdAt);
    }
    FilterTwice(OwnMessage(account, since), Dated(MessageDate, d), MessageDuring(account, OnDay(since, d)), messages);
  }

  lemma DayIsFigured(account: string, since: int, now: int, calls: seq<Call>, participants: seq<Participant>, messages: seq<Message>, d: int)
    ensures Figured(RoundStats(StatsOn(Filter(OwnCall(account, since), calls), Filter(OwnParticipant(account, since), participants),
                                       Filter(OwnMessage(account, since), messages), now, d)),
                    account, OnDay(since, d), now, calls, participants, messages)
  {
    DayOfCalls(account, since, calls, d);
    DayOfSessions(account, since, now, participants, d);
    DayOfMessages(account, since, messages, d);
    FiguredFromFilters(account, OnDay(since, d), now, calls, participants, messages);
  }

  lemma DateOccursExactly<T(!new)>(p: T -> bool, date: T -> int, d: int, q: T -> bool, rows: seq<T>)
    requires forall x :: q(x) <==> p(x) && date(x) == d
    ensures d in Dates(date, Filter(p, rows)) <==> exists i :: 0 <= i < |rows| && q(rows[i])
  {
    FilterMembers(p, rows);
    var kept := Filter(p, rows);
    if d in Dates(date, kept) {
      var i :| 0 <= i < |kept| && date(kept[i]) == d;
      assert kept[i] in kept;
      var j :| 0 <= j < |rows| && rows[j] == kept[i];
      assert q(rows[j]);
    }
    if j :| 0 <= j < |rows| && q(rows[j]) {
      assert rows[j] in kept;
      var i :| 0 <= i < |kept| && kept[i] == rows[j];
      assert date(kept[i]) == d;
    }
  }

  lemma DaysAreActive(account: string, since: int, calls: seq<Call>, participants: seq<Participant>, messages: seq<Message>, d: int)
    ensures d in AllDates(Filter(OwnCall(account, since), calls), Filter(OwnParticipant(account, since), participants),
                          Filter(OwnMessage(account, since), messages)) <==>
            ActiveOn(account, OnDay(since, d), calls, participants, messages)
  {
    forall x: Call ensures CallDuring(account, OnDay(since, d))(x) <==> OwnCall(account, since)(x) && CallDate(x) == d {
      DateMeansDay(x.createdAt, d);
    }
    DateOccursExactly(OwnCall(account, since), CallDate, d, CallDuring(account, OnDay(since, d)), calls);
    forall x: Participant ensures SessionDuring(account, OnDay(since, d))(x) <==> OwnParticipant(account, since)(x) && ParticipantDate(x) == d {
      DateMeansDay(x.joinedAt, d);
    }
    DateOccursExactly(OwnParticipant(account, since), ParticipantDate, d, SessionDuring(account, OnDay(since, d)), participants);
    forall x: Message ensures MessageDuring(account, OnDay(since, d))(x) <==> OwnMessage(account, since)(x) && MessageDate(x) == d {
      DateMeansDay(x.createdAt, d);
    }
    DateOccursExactly(OwnMessage(account, since), MessageDate, d, MessageDuring(account, OnDay(since, d)), messages);
  }

  lemma OverviewTellsTables(account: string, since: int, now: int, calls: seq<Call>, participants: seq<Participant>, messages: seq<Message>, o: Overview)
    requires IsOverview(Filter(OwnCall(account, since), calls), Filter(OwnParticipant(account, since), participants),
                        Filter(OwnMessage(account, since), messages), now, o)
    ensures TellsTables(account, since, now, calls, participants, messages, o)
  {
    TotalsAreFigured(account, since, now, calls, participants, messages);
    forall k | 0 <= k < |o.daily|
      ensures Figured(o.daily[k].stats, account, OnDay(since, o.daily[k].date), now, calls, participants, messages)
    {
      DayIsFigured(account, since, now, calls, participants, messages, o.daily[k].date);
    }
    forall d ensures HasDate(o.daily, d) <==> ActiveOn(account, OnDay(since, d), calls, participants, messages) {
      DaysAreActive(account, since, calls, participants, messages, d);
    }
  }

  // ----- isolation -----

  lemma SameDatesSameSequence(a: seq<Point>, b: seq<Point>)
    requires DatesIncrease(a) && DatesIncrease(b) && forall d :: HasDate(a, d) <==> HasDate(b, d)
    ensures |a| == |b| && forall i :: 0 <= i < |a| ==> a[i].date == b[i].date
  {
    forall i | 0 <= i < |a| && i < |b| ensures a[i].date == b[i].date {
      SamePrefix(a, b, i);
    }
    NoFurtherDate(a, b);
    NoFurtherDate(b, a);
  }

  lemma {:induction false} SamePrefix(a: seq<Point>, b: seq<Point>, i: nat)
    requires DatesIncrease(a) && DatesIncrease(b) && (forall d :: HasDate(a, d) <==> HasDate(b, d))
    requires i < |a| && i < |b|
    ensures a[i].date == b[i].date
  {
    forall k | 0 <= k < i ensures a[k].date == b[k].date {
      SamePrefix(a, b, k);
    }
    assert HasDate(b, a[i].date) && HasDate(a, b[i].date);
    var j :| 0 <= j < |b| && b[j].date == a[i].date;
    var k :| 0 <= k < |a| && a[k].date == b[i].date;
  }

  lemma NoFurtherDate(a: seq<Point>, b: seq<Point>)
    requires DatesIncrease(b) && (forall d :: HasDate(a, d) <==> HasDate(b, d))
    requires forall i :: 0 <= i < |a| && i < |b| ==> a[i].date == b[i].date
    ensures |b| <= |a|
  {
    if b != [] {
      var last := |b| - 1;
      assert HasDate(b, b[last].date);
      var j :| 0 <= j < |a| && a[j].date == b[last].date;
      assert j >= last;
    }
  }

  /** Rows determine their overview. */
  lemma OverviewIsDetermined(calls: seq<Call>, participants: seq<Participant>, messages: seq<Message>, now: int, o: Overview, o': Overview)
    requires IsOverview(calls, participants, messages, now, o) && IsOverview(calls, participants, messages, now, o')
    ensures o.daily == o'.daily && o.totalCalls == o'.totalCalls && o.totalCallMinutes == o'.totalCallMinutes
    ensures o.totalVideoMinutes == o'.totalVideoMinutes && o.totalMessages == o'.totalMessages
  {
    SameDatesSameSequence(o.daily, o'.daily);
    forall i | 0 <= i < |o.daily| ensures o.daily[i] == o'.daily[i] {
      assert o.daily[i] == Point(o.daily[i].date, o.daily[i].stats);
    }
  }

  lemma OwnCallsAgree(account: string, since: int, calls: seq<Call>, calls': seq<Call>)
    requires Filter((c: Call) => c.accountId == account && c.createdAt >= since, calls) ==
             Filter((c: Call) => c.accountId == account && c.createdAt >= since, calls')
    ensures Filter(OwnCall(account, since), calls) == Filter(OwnCall(account, since), calls')
  {
    var own := (c: Call) => c.accountId == account && c.createdAt >= since;
    FilterAgree(own, OwnCall(account, since), calls);
    FilterAgree(own, OwnCall(account, since), calls');
  }

  lemma OwnSessionsAgree(account: string, since: int, participants: seq<Participant>, participants': seq<Participant>)
    requires Filter((p: Participant) => p.accountId == account && p.joinedAt >= since, participants) ==
             Filter((p: Participant) => p.accountId == account && p.joinedAt >= since, participants')
    ensures Filter(OwnParticipant(account, since), participants) == Filter(OwnParticipant(account, since), participants')
  {
    var own := (p: Participant) => p.accountId == account && p.joinedAt >= since;
    FilterAgree(own, OwnParticipant(account, since), participants);
    FilterAgree(own, OwnParticipant(account, since), participants');
  }

  lemma OwnMessagesAgree(account: string, since: int, messages: seq<Message>, messages': seq<Message>)
    requires Filter((m: Message) => m.accountId == account && m.createdAt >= since, messages) ==
             Filter((m: Message) => m.accountId == account && m.createdAt >= since, messages')
    ensures Filter(OwnMessage(account, since), messages) == Filter(OwnMessage(account, since), messages')
  {
    var own := (m: Message) => m.accountId == account && m.createdAt >= since;
    FilterAgree(own, OwnMessage(account, since), messages);
    FilterAgree(own, OwnMessage(account, since), messages');
  }

  /** An account's overview shows nothing of others: tables that agree, in order, on the
      account's rows since the window began give the same overview. */
  lemma OverviewIsIsolated(account: string, since: int, now: int,
                           calls: seq<Call>, participants: seq<Participant>, messages: seq<Message>, o: Overview,
                           calls': seq<Call>, participants': seq<Participant>, messages': seq<Message>, o': Overview)
    requires Filter((c: Call) => c.accountId == account && c.createdAt >= since, calls) ==
             Filter((c: Call) => c.accountId == account && c.createdAt >= since, calls')
    requires Filter((p: Participant) => p.accountId == account && p.joinedAt >= since, participants) ==
             Filter((p: Participant) => p.accountId == account && p.joinedAt >= since, participants')
    requires Filter((m: Message) => m.accountId == account && m.createdAt >= since, messages) ==
             Filter((m: Message) => m.accountId == account && m.createdAt >= since, messages')
    requires IsOverview(Filter(OwnCall(account, since), calls), Filter(OwnParticipant(account, since), participants),
                        Filter(OwnMessage(account, since), messages), now, o)
    requires IsOverview(Filter(OwnCall(account, since), calls'), Filter(OwnParticipant(account, since), participants'),
                        Filter(OwnMessage(account, since), messages'), now, o')
    ensures o.daily == o'.daily && o.totalCalls == o'.totalCalls && o.totalCallMinutes == o'.totalCallMinutes
    ensures o.totalVideoMinutes == o'.totalVideoMinutes && o.totalMessages == o'.totalMessages
  {
    OwnCallsAgree(account, since, calls, calls');
    OwnSessionsAgree(account, since, participants, participants');
    OwnMessagesAgree(account, since, messages, messages');
    OverviewIsDetermined(Filter(OwnCall(account, since), calls), Filter(OwnParticipant(account, since), participants),
                         Filter(OwnMessage(account, since), messages), now, o, o');
  }

  // ----- computing it -----

  function At(daily: map<int, Stats>, d: int): Stats {
    if d in daily then daily[d] else ZERO
  }

  ghost predicate Bucketed(daily: map<int, Stats>, calls: seq<Call>, participants: seq<Participant>, messages: seq<Message>, now: int) {
    && (forall d :: d in daily <==> d in AllDates(calls, participants, messages))
    && (forall d :: At(daily, d) == StatsOn(calls, participants, messages, now, d))
  }

  /** Adding one row to its date's entry is all that one accumulation step does. */
  lemma BucketCall(daily: map<int, Stats>, calls: seq<Call>, c: Call, participants: seq<Participant>, messages: seq<Message>, now: int)
    requires Bucketed(daily, calls, participants, messages, now)
    ensures var d := CallDate(c);
            var s := At(daily, d);
            Bucketed(daily[d := s.(calls := s.calls + 1, callMinutes := s.callMinutes + CallMinutes(c))],
                     calls + [c], participants, messages, now)
  {
    var s := At(daily, CallDate(c));
    var after := daily[CallDate(c) := s.(calls := s.calls + 1, callMinutes := s.callMinutes + CallMinutes(c))];
    DatesAppend(CallDate, calls, c);
    forall d ensures At(after, d) == StatsOn(calls + [c], participants, messages, now, d) {
      SumAppend(CallMinutes, CallDate, calls, c, d);
      assert At(daily, d) == StatsOn(calls, participants, messages, now, d);
    }
  }

  lemma BucketParticipant(daily: map<int, Stats>, calls: seq<Call>, participants: seq<Participant>, p: Participant, messages: seq<Message>, now: int)
    requires Bucketed(daily, calls, participants, messages, now)
    ensures var d := ParticipantDate(p);
            var s := At(daily, d);
            Bucketed(daily[d := s.(videoMinutes := s.videoMinutes + VideoMinutes(now)(p))], calls, participants + [p], messages, now)
  {
    var s := At(daily, ParticipantDate(p));
    var after := daily[ParticipantDate(p) := s.(videoMinutes := s.videoMinutes + VideoMinutes(now)(p))];
    DatesAppend(ParticipantDate, participants, p);
    forall d ensures At(after, d) == StatsOn(calls, participants + [p], messages, now, d) {
      SumAppend(VideoMinutes(now), ParticipantDate, participants, p, d);
      assert At(daily, d) == StatsOn(calls, participants, messages, now, d);
    }
  }

  lemma BucketMessage(daily: map<int, Stats>, calls: seq<Call>, participants: seq<Participant>, messages: seq<Message>, m: Message, now: int)
    requires Bucketed(daily, calls, participants, messages, now)
    ensures var d := MessageDate(m);
            var s := At(daily, d);
            Bucketed(daily[d := s.(messages := s.messages + 1)], calls, participants, messages + [m], now)
  {
    var s := At(daily, MessageDate(m));
    var after := daily[MessageDate(m) := s.(messages := s.messages + 1)];
    DatesAppend(MessageDate, messages, m);
    forall d ensures At(after, d) == StatsOn(calls, participants, messages + [m], now, d) {
      SumAppend((x: Message) => 0.0, MessageDate, messages, m, d);
      assert At(daily, d) == StatsOn(calls, participants, messages, now, d);
    }
  }

  lemma SumNext<T>(weight: T -> real, date: T -> int, rows: seq<T>, i: nat)
    requires i < |rows|
    ensures rows[..i + 1] == rows[..i] + [rows[i]]
    ensures Sum(weight, rows[..i + 1]) == Sum(weight, rows[..i]) + weight(rows[i])
  {
    assert rows[..i + 1] == rows[..i] + [rows[i]];
    SumAppend(weight, date, rows[..i], rows[i], 0);
  }

  method AddCalls(calls: seq<Call>, now: int) returns (daily: map<int, Stats>, total: real)
    ensures Bucketed(daily, calls, [], [], now) && total == Sum(CallMinutes, calls)
  {
    daily := map[];
    total := 0.0;
    for i := 0 to |calls|
      invariant Bucketed(daily, calls[..i], [], [], now) && total == Sum(CallMinutes, calls[..i])
    {
      var call := calls[i];
      BucketCall(daily, calls[..i], call, [], [], now);
      SumNext(CallMinutes, CallDate, calls, i);
      var d := CallDate(call);
      var s := At(daily, d);
      daily := daily[d := s.(calls := s.calls + 1, callMinutes := s.callMinutes + CallMinutes(call))];
      total := total + CallMinutes(call);
    }
    assert calls[..|calls|] == calls;
  }

  method AddParticipants(daily0: map<int, Stats>, ghost calls: seq<Call>, participants: seq<Participant>, now: int)
    returns (daily: map<int, Stats>, total: real)
    requires Bucketed(daily0, calls, [], [], now)
    ensures Bucketed(daily, calls, participants, [], now) && total == Sum(VideoMinutes(now), participants)
  {
    daily := daily0;
    total := 0.0;
    for i := 0 to |participants|
      invariant Bucketed(daily, calls, participants[..i], [], now) && total == Sum(VideoMinutes(now), participants[..i])
    {
      var row := participants[i];
      BucketParticipant(daily, calls, participants[..i], row, [], now);
      SumNext(VideoMinutes(now), ParticipantDate, participants, i);
      var d := ParticipantDate(row);
      var s := At(daily, d);
      daily := daily[d := s.(videoMinutes := s.videoMinutes + VideoMinutes(now)(row))];
      total := total + VideoMinutes(now)(row);
    }
    assert participants[..|participants|] == participants;
  }

  method AddMessages(daily0: map<int, Stats>, ghost calls: seq<Call>, ghost participants: seq<Participant>, messages: seq<Message>, ghost now: int)
    returns (daily: map<int, Stats>)
    requires Bucketed(daily0, calls, participants, [], now)
    ensures Bucketed(daily, calls, participants, messages, now)
  {
    daily := daily0;
    for i := 0 to |messages|
      invariant Bucketed(daily, calls, participants, messages[..i], now)
    {
      BucketMessage(daily, calls, participants, messages[..i], messages[i], now);
      assert messages[..i + 1] == messages[..i] + [messages[i]];
      var d := MessageDate(messages[i]);
      var s := At(daily, d);
      daily := daily[d := s.(messages := s.messages + 1)];
    }
    assert messages[..|messages|] == messages;
  }

  /** One point per key, in date order, with its two minute figures rounded. */
  method DailyPoints(daily: map<int, Stats>) returns (points: seq<Point>)
    ensures DatesIncrease(points)
    ensures forall d :: d in daily <==> HasDate(points, d)
    ensures forall i :: 0 <= i < |points| ==> points[i].stats == RoundStats(At(daily, points[i].date))
  {
    var items := SortItems(daily);
    points := [];
    for i := 0 to |items|
      invariant |points| == i
      invariant forall k :: 0 <= k < i ==> points[k] == Point(items[k].0, items[k].1)
    {
      points := points + [Point(items[i].0, items[i].1)];
    }
    for i := 0 to |points|
      invariant |points| == |items|
      invariant forall k :: 0 <= k < i ==> points[k] == Point(items[k].0, RoundStats(items[k].1))
      invariant forall k :: i <= k < |items| ==> points[k] == Point(items[k].0, items[k].1)
    {
      var s := points[i].stats;
      s := s.(callMinutes := Round2(s.callMinutes));
      s := s.(videoMinutes := Round2(s.videoMinutes));
      points := points[i := points[i].(stats := s)];
    }
    forall i | 0 <= i < |points| ensures points[i].date in daily && daily[points[i].date] == items[i].1 {
      assert items[i] == (items[i].0, items[i].1) && items[i] in items;
    }
    forall d | d in daily ensures HasDate(points, d) {
      assert (d, daily[d]) in items;
      var i :| 0 <= i < |items| && items[i] == (d, daily[d]);
      assert points[i].date == d;
    }
  }

  function OwnCall(account: string, since: int): Call -> bool {
    (c: Call) => c.accountId == account && c.createdAt >= since
  }

  function OwnParticipant(account: string, since: int): Participant -> bool {
    (p: Participant) => p.accountId == account && p.joinedAt >= since
  }

  function OwnMessage(account: string, since: int): Message -> bool {
    (m: Message) => m.accountId == account && m.createdAt >= since
  }

  ghost predicate NoneLater(calls: seq<Call>, participants: seq<Participant>, messages: seq<Message>, now: int) {
    && (forall c :: c in calls ==> c.createdAt <= now)
    && (forall p :: p in participants ==> p.joinedAt <= now)
    && (forall m :: m in messages ==> m.createdAt <= now)
  }

  method GetOverview(account: string, days: int, firstClock: int, now: int, allCalls: seq<Call>, allParticipants: seq<Participant>,
                     allMessages: seq<Message>, activeNumbers: nat, aiSummaries: nat) returns (o: Overview)
    ensures var since := Since(firstClock, days);
            IsOverview(Filter(OwnCall(account, since), allCalls), Filter(OwnParticipant(account, since), allParticipants),
                       Filter(OwnMessage(account, since), allMessages), now, o)
    ensures firstClock <= now && NoneLater(allCalls, allParticipants, allMessages, now) ==>
              |o.daily| <= MaxPoints(firstClock, now, days)
    ensures TellsTables(account, firstClock - o.rangeDays * 86_400_000_000, now, allCalls, allParticipants, allMessages, o)
    ensures o.rangeDays == ClampDays(days) && 1 <= o.rangeDays <= 90
    ensures o.activeNumbers == activeNumbers && o.aiSummaries == aiSummaries
  {
    var since := Since(firstClock, days);
    var calls := Filter(OwnCall(account, since), allCalls);
    var participants := Filter(OwnParticipant(account, since), allParticipants);
    var messages := Filter(OwnMessage(account, since), allMessages);
    var daily, callMinutes := AddCalls(calls, now);
    var videoMinutes;
    daily, videoMinutes := AddParticipants(daily, calls, participants, now);
    daily := AddMessages(daily, calls, participants, messages, now);
    var points := DailyPoints(daily);
    o := Overview(ClampDays(days), |calls|, Round2(callMinutes), Round2(videoMinutes), |messages|, activeNumbers, aiSummaries, points);
    forall i | 0 <= i < |points|
      ensures points[i].stats == RoundStats(StatsOn(calls, participants, messages, now, points[i].date))
    {
      assert At(daily, points[i].date) == StatsOn(calls, participants, messages, now, points[i].date);
    }
    OverviewTellsTables(account, since, now, allCalls, allParticipants, allMessages, o);
    if firstClock <= now && NoneLater(allCalls, allParticipants, allMessages, now) {
      FilterMembers(OwnCall(account, since), allCalls);
      FilterMembers(OwnParticipant(account, since), allParticipants);
      FilterMembers(OwnMessage(account, since), allMessages);
      PointsPerRange(calls, participants, messages, firstClock, now, days, o);
    }
  }
}
