/**
 Which study session a request means and when it is moved to.

 Instants are microseconds since 1970-01-01 UTC; a fixed offset turns them into local days and times of
 day. Days count from 1970-01-01, a Thursday; Monday is weekday 0.
 */
module PlanDates {
  import opened Wrappers

  const MINUTE := 60_000_000
  const DAY := 86_400_000_000

  function LocalDay(instant: int, offset: int): int { (instant + offset * MINUTE) / DAY }

  function TimeOfDay(instant: int, offset: int): (t: int)
    ensures 0 <= t < DAY
  {
    (instant + offset * MINUTE) % DAY
  }

  /** The instant of a local day and time of day: `astimezone(UTC)`. */
  function Instant(day: int, time: int, offset: int): int { day * DAY + time - offset * MINUTE }

  function Weekday(day: int): (w: int)
    ensures 0 <= w < 7
  {
    (day + 3) % 7
  }

  lemma InstantIsLocal(day: int, time: int, offset: int)
    requires 0 <= time < DAY
    ensures LocalDay(Instant(day, time, offset), offset) == day && TimeOfDay(Instant(day, time, offset), offset) == time
  {
    assert Instant(day, time, offset) + offset * MINUTE == day * DAY + time;
  }

  lemma LocalIsInstant(instant: int, offset: int)
    ensures Instant(LocalDay(instant, offset), TimeOfDay(instant, offset), offset) == instant
  {
  }

  /**
   What the numbers stand for: 1 January 1970 was a Thursday and 1 January 2024, 19723 days later, a Monday;
   east of Greenwich, where offsets are positive, the local clock is ahead, so that the day begins earlier.
   */
  lemma KnownDays()
    ensures Weekday(0) == 3 && Weekday(19_723) == 0
    ensures LocalDay(0, 480) == 0 && TimeOfDay(0, 480) == 8 * 60 * MINUTE
    ensures LocalDay(16 * 60 * MINUTE, 480) == 1 && LocalDay(16 * 60 * MINUTE - 1, 480) == 0
    ensures LocalDay(0, -300) == -1 && TimeOfDay(0, -300) == 19 * 60 * MINUTE
  {
  }

  /** Days until the next given weekday, a week when it is that weekday already: `(k - today) % 7 or 7`. */
  function DaysUntil(weekday: int, today: int): int {
    var days := (weekday - Weekday(today)) % 7;
    if days == 0 then 7 else days
  }

  /** The first day after today that has the weekday. */
  lemma NextWeekday(weekday: int, today: int)
    requires 0 <= weekday < 7
    ensures var d := DaysUntil(weekday, today);
            && 1 <= d <= 7 && Weekday(today + d) == weekday
            && forall day | today < day < today + d :: Weekday(day) != weekday
  {
    var d, w := DaysUntil(weekday, today), Weekday(today);
    assert d == if weekday > w then weekday - w else weekday - w + 7;
    ShiftedWeekday(today, d);
    forall day | today < day < today + d ensures Weekday(day) != weekday {
      ShiftedWeekday(today, day - today);
    }
  }

  lemma ShiftedWeekday(day: int, e: int)
    requires 0 <= e <= 7
    ensures Weekday(day + e) == if Weekday(day) + e < 7 then Weekday(day) + e else Weekday(day) + e - 7
  {
  }

  // ---------------------------------------------------------------- the home page's move

  /** What the text asks for, in the order it is looked for. */
  datatype HomeTarget = Tomorrow | DayAfterTomorrow | OnWeekday(weekday: int) | Unstated

  function HomeDate(target: HomeTarget, today: int): Option<int> {
    match target
    case Tomorrow => Some(today + 1)
    case DayAfterTomorrow => Some(today + 2)
    case OnWeekday(k) => Some(today + DaysUntil(k, today))
    case Unstated => None
  }

  /** `_parse_planned_at`: that day, at the hour and minute the session has now. */
  function HomeMove(target: HomeTarget, current: int, now: int, offset: int): Option<int> {
    match HomeDate(target, LocalDay(now, offset))
    case None => None
    case Some(day) => Some(Instant(day, TimeOfDay(current, offset) / MINUTE * MINUTE, offset))
  }

  /**
   A home move lands 1 to 7 local days ahead, later than now, at the session's hour and minute: on the next day
   for tomorrow, the second for the day after, the first to come of an asked weekday.
   */
  lemma HomeMoveLands(target: HomeTarget, current: int, now: int, offset: int)
    requires target.OnWeekday? ==> 0 <= target.weekday < 7
    ensures HomeMove(target, current, now, offset).None? <==> target == Unstated
    ensures target != Unstated ==>
              var planned, today := HomeMove(target, current, now, offset).value, LocalDay(now, offset);
              && today + 1 <= LocalDay(planned, offset) <= today + 7 && planned > now
              && (target == Tomorrow ==> LocalDay(planned, offset) == today + 1)
              && (target == DayAfterTomorrow ==> LocalDay(planned, offset) == today + 2)
              && (target.OnWeekday? ==>
                    Weekday(LocalDay(planned, offset)) == target.weekday
                    && forall day | today < day < LocalDay(planned, offset) :: Weekday(day) != target.weekday)
              && TimeOfDay(planned, offset) / MINUTE == TimeOfDay(current, offset) / MINUTE
              && TimeOfDay(planned, offset) % MINUTE == 0
  {
    if target != Unstated {
      var today, time := LocalDay(now, offset), TimeOfDay(current, offset) / MINUTE * MINUTE;
      if target.OnWeekday? { NextWeekday(target.weekday, today); }
      WholeMinutes(TimeOfDay(current, offset));
      var day := HomeDate(target, today).value;
      InstantIsLocal(day, time, offset);
      LocalIsInstant(now, offset);
      assert day * DAY >= today * DAY + DAY;
    }
  }

  lemma WholeMinutes(time: int)
    requires 0 <= time < DAY
    ensures var whole := time / MINUTE * MINUTE;
            0 <= whole <= time && whole / MINUTE == time / MINUTE && whole % MINUTE == 0 && time - whole == time % MINUTE
  {
  }

  // ---------------------------------------------------------------- the coach's move

  datatype CoachTarget = CoachWeekday(weekday: int) | CoachToday | CoachTomorrow | CoachDate(day: int)

  datatype Rejection = DateBeforeToday | InvalidExamDate | DateAfterExam

  function CoachDay(target: CoachTarget, today: int): int {
    match target
    case CoachWeekday(k) => today + DaysUntil(k, today)
    case CoachToday => today
    case CoachTomorrow => today + 1
    case CoachDate(day) => day
  }

  /** The move of `_resolve_plan`: the date within today and the exam day, the time of day untouched. */
  function CoachMove(target: CoachTarget, current: int, now: int, examAt: Option<int>, offset: int): Result<int, Rejection> {
    var today := LocalDay(now, offset);
    var day := CoachDay(target, today);
    if day < today then Err(DateBeforeToday)
    else if examAt.None? then Err(InvalidExamDate)
    else if day > LocalDay(examAt.value, offset) then Err(DateAfterExam)
    else Ok(Instant(day, TimeOfDay(current, offset), offset))
  }

  /**
   A coach move is accepted exactly when its date lies between the local today and the local exam day; it
   then lands on that date at exactly the session's time of day, and before now only if it stays on today.
   */
  lemma CoachMoveLands(target: CoachTarget, current: int, now: int, examAt: int, offset: int)
    requires target.CoachWeekday? ==> 0 <= target.weekday < 7
    ensures var today, move := LocalDay(now, offset), CoachMove(target, current, now, Some(examAt), offset);
            && (move.Ok? <==> today <= CoachDay(target, today) <= LocalDay(examAt, offset))
            && (move.Ok? ==>
                  && LocalDay(move.value, offset) == CoachDay(target, today)
                  && TimeOfDay(move.value, offset) == TimeOfDay(current, offset)
                  && (move.value < now ==> CoachDay(target, today) == today)
                  && (target.CoachWeekday? ==> Weekday(LocalDay(move.value, offset)) == target.weekday))
  {
    var today := LocalDay(now, offset);
    var day := CoachDay(target, today);
    if target.CoachWeekday? { NextWeekday(target.weekday, today); }
    InstantIsLocal(day, TimeOfDay(current, offset), offset);
    LocalIsInstant(now, offset);
    if day > today { assert day * DAY >= today * DAY + DAY; }
  }

  /** Some day after today and up to the last has the weekday. */
  ghost predicate WeekdayWithin(weekday: int, today: int, last: int) {
    exists day :: today < day <= last && Weekday(day) == weekday
  }

  /**
   When a coach move is accepted, for each way to name its date, and on which day it lands: today and tomorrow
   up to the exam day, a date from today up to it, a weekday if it comes once more by then, and on its first
   such day. A date before today is rejected as such, without an exam date nothing else is accepted, and the
   rest lies after the exam.
   */
  lemma CoachDates(target: CoachTarget, current: int, now: int, examAt: Option<int>, offset: int)
    requires target.CoachWeekday? ==> 0 <= target.weekday < 7
    ensures var today, move := LocalDay(now, offset), CoachMove(target, current, now, examAt, offset);
            && (move == Err(DateBeforeToday) <==> target.CoachDate? && target.day < today)
            && (move == Err(InvalidExamDate) <==> examAt.None? && (target.CoachDate? ==> target.day >= today))
            && (examAt.Some? && move != Err(DateBeforeToday) ==>
                  var last := LocalDay(examAt.value, offset);
                  && (move.Ok? || move == Err(DateAfterExam))
                  && (target == CoachToday ==> (move.Ok? <==> today <= last))
                  && (target == CoachTomorrow ==> (move.Ok? <==> today + 1 <= last))
                  && (target.CoachDate? ==> (move.Ok? <==> target.day <= last))
                  && (target.CoachWeekday? ==> (move.Ok? <==> WeekdayWithin(target.weekday, today, last))))
            && (move.Ok? ==>
                  var day := LocalDay(move.value, offset);
                  && (target == CoachToday ==> day == today) && (target == CoachTomorrow ==> day == today + 1)
                  && (target.CoachDate? ==> day == target.day)
                  && (target.CoachWeekday? ==>
                        day > today && Weekday(day) == target.weekday && forall e | today < e < day :: Weekday(e) != target.weekday))
  {
    hide Weekday, DaysUntil;
    var today := LocalDay(now, offset);
    var day := CoachDay(target, today);
    InstantIsLocal(day, TimeOfDay(current, offset), offset);
    if target.CoachWeekday? {
      NextWeekday(target.weekday, today);
      if examAt.Some? && day <= LocalDay(examAt.value, offset) {
        assert WeekdayWithin(target.weekday, today, LocalDay(examAt.value, offset));
      }
    }
  }

  /** Asked for the same weekday, the two moves differ by the seconds the home page drops. */
  lemma MovesAgreeToTheMinute(weekday: int, current: int, now: int, examAt: int, offset: int)
    requires CoachMove(CoachWeekday(weekday), current, now, Some(examAt), offset).Ok?
    ensures CoachMove(CoachWeekday(weekday), current, now, Some(examAt), offset).value
         == HomeMove(OnWeekday(weekday), current, now, offset).value + TimeOfDay(current, offset) % MINUTE
  {
    WholeMinutes(TimeOfDay(current, offset));
  }

  // ---------------------------------------------------------------- which session is meant

  datatype Session = Session(id: string, topicId: string, activity: string, plannedAt: int)

  datatype When = MostRecent | Next | OnRelativeDate(tomorrow: bool) | OnDate(day: int)

  datatype Selection = Selected(session: Session) | NoMatch | Ambiguous(matches: seq<Session>)

  function Filtered(s: seq<Session>, keep: Session -> bool): (r: seq<Session>)
    ensures forall x :: x in r <==> x in s && keep(x)
  {
    if s == [] then [] else (if keep(s[0]) then [s[0]] else []) + Filtered(s[1..], keep)
  }

  /** `max` or `min` of the planned times. */
  function Extreme(s: seq<Session>, latest: bool): (t: int)
    requires s != []
    ensures exists x :: x in s && x.plannedAt == t
    ensures forall x | x in s :: if latest then x.plannedAt <= t else t <= x.plannedAt
  {
    if |s| == 1 then s[0].plannedAt
    else
      var rest := Extreme(s[1..], latest);
      assert s == [s[0]] + s[1..];
      var y :| y in s[1..] && y.plannedAt == rest;
      if (latest && s[0].plannedAt >= rest) || (!latest && s[0].plannedAt <= rest) then s[0].plannedAt else rest
  }

  /** The sessions a selector leaves, of those that are about its topic. */
  function Matches(sessions: seq<Session>, about: Session -> bool, when': When, now: int, offset: int): seq<Session> {
    var candidates := Filtered(sessions, about);
    match when'
    case MostRecent =>
      var eligible := Filtered(candidates, (s: Session) => s.plannedAt <= now);
      if eligible == [] then []
      else
        var t := Extreme(eligible, true);
        Filtered(eligible, (s: Session) => s.plannedAt == t)
    case Next =>
      var eligible := Filtered(candidates, (s: Session) => s.plannedAt > now);
      if eligible == [] then []
      else
        var t := Extreme(eligible, false);
        Filtered(eligible, (s: Session) => s.plannedAt == t)
    case OnRelativeDate(tomorrow) =>
      var day := LocalDay(now, offset) + if tomorrow then 1 else 0;
      Filtered(candidates, (s: Session) => LocalDay(s.plannedAt, offset) == day)
    case OnDate(day) =>
      Filtered(candidates, (s: Session) => LocalDay(s.plannedAt, offset) == day)
  }

  function Select(sessions: seq<Session>, about: Session -> bool, when': When, now: int, offset: int): Selection {
    var matches := Matches(sessions, about, when', now, offset);
    if matches == [] then NoMatch else if |matches| > 1 then Ambiguous(matches) else Selected(matches[0])
  }

  lemma {:induction false} FilteredCounts(s: seq<Session>, keep: Session -> bool, x: Session)
    ensures multiset(Filtered(s, keep))[x] == if keep(x) then multiset(s)[x] else 0
  {
    if s != [] {
      assert s == [s[0]] + s[1..];
      FilteredCounts(s[1..], keep, x);
    }
  }

  lemma FilteredPermuted(s: seq<Session>, t: seq<Session>, keep: Session -> bool)
    requires multiset(s) == multiset(t)
    ensures multiset(Filtered(s, keep)) == multiset(Filtered(t, keep))
  {
    forall x ensures multiset(Filtered(s, keep))[x] == multiset(Filtered(t, keep))[x] {
      FilteredCounts(s, keep, x);
      FilteredCounts(t, keep, x);
    }
  }

  lemma SameElements(s: seq<Session>, t: seq<Session>)
    requires multiset(s) == multiset(t)
    ensures |s| == |t| && forall x :: x in s <==> x in t
  {
    assert |multiset(s)| == |multiset(t)|;
    forall x ensures x in s <==> x in t { assert x in multiset(s) <==> x in multiset(t); }
  }

  lemma ExtremePermuted(s: seq<Session>, t: seq<Session>, latest: bool)
    requires multiset(s) == multiset(t) && s != []
    ensures t != [] && Extreme(s, latest) == Extreme(t, latest)
  {
    SameElements(s, t);
    var u, v := Extreme(s, latest), Extreme(t, latest);
    var x :| x in s && x.plannedAt == u;
    var y :| y in t && y.plannedAt == v;
  }

  lemma MatchesPermuted(s: seq<Session>, t: seq<Session>, about: Session -> bool, when': When, now: int, offset: int)
    requires multiset(s) == multiset(t)
    ensures multiset(Matches(s, about, when', now, offset)) == multiset(Matches(t, about, when', now, offset))
  {
    hide Filtered, Extreme;
    var a, b := Filtered(s, about), Filtered(t, about);
    FilteredPermuted(s, t, about);
    match when'
    case MostRecent =>
      EligiblePermuted(a, b, (x: Session) => x.plannedAt <= now, true);
    case Next =>
      EligiblePermuted(a, b, (x: Session) => x.plannedAt > now, false);
    case OnRelativeDate(tomorrow) =>
      var day := LocalDay(now, offset) + if tomorrow then 1 else 0;
      FilteredPermuted(a, b, (x: Session) => LocalDay(x.plannedAt, offset) == day);
    case OnDate(day) =>
      FilteredPermuted(a, b, (x: Session) => LocalDay(x.plannedAt, offset) == day);
  }

  lemma EligiblePermuted(a: seq<Session>, b: seq<Session>, keep: Session -> bool, latest: bool)
    requires multiset(a) == multiset(b)
    ensures var s, t := Filtered(a, keep), Filtered(b, keep);
            && (s == [] <==> t == [])
            && (s != [] ==>
                  && Extreme(s, latest) == Extreme(t, latest)
                  && var u := Extreme(s, latest);
                     multiset(Filtered(s, (x: Session) => x.plannedAt == u)) == multiset(Filtered(t, (x: Session) => x.plannedAt == u)))
  {
    var s, t := Filtered(a, keep), Filtered(b, keep);
    FilteredPermuted(a, b, keep);
    SameElements(s, t);
    if s != [] {
      ExtremePermuted(s, t, latest);
      var u := Extreme(s, latest);
      FilteredPermuted(s, t, (x: Session) => x.plannedAt == u);
    }
  }

  /** The order of the session list does not matter: the same session is accepted, or the same rejection given. */
  lemma SelectionIgnoresOrder(s: seq<Session>, t: seq<Session>, about: Session -> bool, when': When, now: int, offset: int)
    requires multiset(s) == multiset(t)
    ensures var a, b := Select(s, about, when', now, offset), Select(t, about, when', now, offset);
            a == b || (a.Ambiguous? && b.Ambiguous? && multiset(a.matches) == multiset(b.matches))
  {
    hide Matches;
    var a, b := Matches(s, about, when', now, offset), Matches(t, about, when', now, offset);
    MatchesPermuted(s, t, about, when', now, offset);
    SameElements(a, b);
    if |a| == 1 { assert a[0] in a && a[0] in b; }
  }

  /** A selection succeeds exactly when one session, once, matches. */
  lemma SelectsOnly(sessions: seq<Session>, about: Session -> bool, when': When, now: int, offset: int, x: Session)
    ensures Select(sessions, about, when', now, offset) == Selected(x) <==>
              multiset(Matches(sessions, about, when', now, offset)) == multiset{x}
  {
    hide Matches;
    var matches := Matches(sessions, about, when', now, offset);
    if multiset(matches) == multiset{x} {
      assert |multiset(matches)| == 1;
      assert matches[0] in multiset(matches);
    }
    if |matches| == 1 { assert matches == [matches[0]]; }
  }

  /** On the side of `now` the selector looks at: up to now for the most recent, after it for the next. */
  predicate Side(s: Session, now: int, latest: bool) { if latest then s.plannedAt <= now else s.plannedAt > now }

  function Eligible(sessions: seq<Session>, about: Session -> bool, now: int, latest: bool): (r: seq<Session>)
    ensures forall x :: x in r <==> x in sessions && about(x) && Side(x, now, latest)
    ensures Matches(sessions, about, if latest then MostRecent else Next, now, 0)
         == if r == [] then [] else var t := Extreme(r, latest); Filtered(r, (s: Session) => s.plannedAt == t)
  {
    if latest then Filtered(Filtered(sessions, about), (s: Session) => s.plannedAt <= now)
    else Filtered(Filtered(sessions, about), (s: Session) => s.plannedAt > now)
  }

  /** What is counted: the sessions about the topic, on that side, at the extreme of their times. */
  lemma ExtremeCounts(sessions: seq<Session>, about: Session -> bool, now: int, latest: bool, t: int, y: Session)
    requires var eligible := Eligible(sessions, about, now, latest); eligible != [] && t == Extreme(eligible, latest)
    ensures multiset(Matches(sessions, about, if latest then MostRecent else Next, now, 0))[y]
         == if y.plannedAt == t && Side(y, now, latest) && about(y) then multiset(sessions)[y] else 0
  {
    hide Filtered, Extreme, Matches;
    FilteredCounts(Eligible(sessions, about, now, latest), (s: Session) => s.plannedAt == t, y);
    if latest {
      FilteredCounts(Filtered(sessions, about), (s: Session) => s.plannedAt <= now, y);
    } else {
      FilteredCounts(Filtered(sessions, about), (s: Session) => s.plannedAt > now, y);
    }
    FilteredCounts(sessions, about, y);
  }

  /** One session about the topic, once in the list, is strictly closest to now on its side. */
  predicate Closest(sessions: seq<Session>, about: Session -> bool, now: int, latest: bool, x: Session) {
    && multiset(sessions)[x] == 1 && about(x) && Side(x, now, latest)
    && forall y | y in sessions && y != x && about(y) && Side(y, now, latest) ::
         if latest then y.plannedAt < x.plannedAt else y.plannedAt > x.plannedAt
  }

  /** "Most recent" and "next" accept exactly the session that is strictly closest to now on their side. */
  lemma SelectsClosest(sessions: seq<Session>, about: Session -> bool, now: int, latest: bool, offset: int, x: Session)
    ensures Select(sessions, about, if latest then MostRecent else Next, now, offset) == Selected(x)
       <==> Closest(sessions, about, now, latest, x)
  {
    hide Filtered, Extreme, Eligible, Select;
    var when' := if latest then MostRecent else Next;
    assert Matches(sessions, about, when', now, offset) == Matches(sessions, about, when', now, 0);
    SelectsOnly(sessions, about, when', now, offset, x);
    ClosestMatches(sessions, about, now, latest, x);
  }

  lemma ClosestMatches(sessions: seq<Session>, about: Session -> bool, now: int, latest: bool, x: Session)
    ensures multiset(Matches(sessions, about, if latest then MostRecent else Next, now, 0)) == multiset{x}
       <==> Closest(sessions, about, now, latest, x)
  {
    hide Filtered, Extreme, Eligible, Matches;
    var eligible := Eligible(sessions, about, now, latest);
    var matches := multiset(Matches(sessions, about, if latest then MostRecent else Next, now, 0));
    if eligible == [] {
      assert x !in eligible;
      assert x !in matches;
    } else {
      var t := Extreme(eligible, latest);
      var first :| first in eligible && first.plannedAt == t;
      if Closest(sessions, about, now, latest, x) {
        assert x in sessions && x in eligible && first == x;
        forall y ensures matches[y] == multiset{x}[y] { ExtremeCounts(sessions, about, now, latest, t, y); }
      }
      if matches == multiset{x} {
        ExtremeCounts(sessions, about, now, latest, t, x);
        forall y | y in sessions && y != x && about(y) && Side(y, now, latest)
          ensures if latest then y.plannedAt < x.plannedAt else y.plannedAt > x.plannedAt
        {
          ExtremeCounts(sessions, about, now, latest, t, y);
          assert y in multiset(sessions) && y in eligible;
        }
      }
    }
  }

  /** A date selector accepts exactly the one session about the topic on that local day. */
  lemma SelectsOnlyOnDay(sessions: seq<Session>, about: Session -> bool, day: int, now: int, offset: int, x: Session)
    ensures Select(sessions, about, OnDate(day), now, offset) == Selected(x) <==>
              && multiset(sessions)[x] == 1 && about(x) && LocalDay(x.plannedAt, offset) == day
              && forall y | y in sessions && about(y) && LocalDay(y.plannedAt, offset) == day :: y == x
    ensures Select(sessions, about, OnRelativeDate(false), now, offset)
         == Select(sessions, about, OnDate(LocalDay(now, offset)), now, offset)
    ensures Select(sessions, about, OnRelativeDate(true), now, offset)
         == Select(sessions, about, OnDate(LocalDay(now, offset) + 1), now, offset)
  {
    hide Filtered, Select, LocalDay;
    SelectsOnly(sessions, about, OnDate(day), now, offset, x);
    var matches := Matches(sessions, about, OnDate(day), now, offset);
    forall y ensures multiset(matches)[y] == if about(y) && LocalDay(y.plannedAt, offset) == day then multiset(sessions)[y] else 0 {
      FilteredCounts(Filtered(sessions, about), (s: Session) => LocalDay(s.plannedAt, offset) == day, y);
      FilteredCounts(sessions, about, y);
    }
    SameSelections(sessions, about, now, offset);
    if multiset(matches) == multiset{x} {
      forall y | y in sessions && about(y) && LocalDay(y.plannedAt, offset) == day ensures y == x {
        assert y in multiset(sessions) && y in multiset(matches);
      }
    }
    if multiset(sessions)[x] == 1 && about(x) && LocalDay(x.plannedAt, offset) == day
       && forall y | y in sessions && about(y) && LocalDay(y.plannedAt, offset) == day :: y == x {
      forall y ensures multiset(matches)[y] == multiset{x}[y] {
        assert y in sessions <==> y in multiset(sessions);
      }
    }
  }

  lemma SameSelections(sessions: seq<Session>, about: Session -> bool, now: int, offset: int)
    ensures Select(sessions, about, OnRelativeDate(false), now, offset)
         == Select(sessions, about, OnDate(LocalDay(now, offset)), now, offset)
    ensures Select(sessions, about, OnRelativeDate(true), now, offset)
         == Select(sessions, about, OnDate(LocalDay(now, offset) + 1), now, offset)
  {
    hide Filtered, LocalDay;
  }
}
