/**
 * The backend's scheduler (`backend/index.js`): each minute `cycle` decides which
 * active users are due a full refresh (once a day after midnight) or a quick one
 * (at the times of their refresh profile), and `refreshUser` runs one sync.
 *
 * The clock is the parameter `now` (ms, UTC); external results — decrypting the
 * password, fetching from WebUntis, loading the Google client, finding the
 * calendar — reach `refreshUser` as `Services`.
 */
module Index {
  import opened Maybe
  import opened Strings
  import opened Utils
  import opened Config
  import opened Untis
  import opened Google

  const QuickTimeout := 15000
  const FullTimeout := 600000

  // ---------------------------------------------------------------------------
  // Refresh times

  /**
   * `Number(s)` for the pieces of an "HH:MM" time: the empty or blank string is 0,
   * a run of digits its value, anything else NaN (`None`).
   */
  function NumberOf(s: string): (r: Option<int>)
    ensures r.Some? ==> r.value >= 0
  {
    if IsBlank(s) then Some(0)
    else if AllDigits(s) then Some(DigitsValue(s))
    else None
  }

  /**
   * `refreshTime.setHours(hours, minutes, 0, 0)` on today's date for
   * `[hours, minutes] = time.split(":").map(Number)`. A missing or NaN hour or
   * minute makes the date invalid, which no comparison accepts (`None`); hours or
   * minutes past their range carry over into later days, as in JavaScript.
   */
  function RefreshAt(time: string, now: int): Option<int> {
    var parts := Split(time, ':');
    if |parts| < 2 then None
    else match (NumberOf(parts[0]), NumberOf(parts[1]))
      case (Some(h), Some(m)) => Some(Midnight(DayOf(now)) + h * 3600000 + m * 60000)
      case _ => None
  }

  /** "HH:MM" with two-digit fields is read as that time of today. */
  lemma RefreshAtClock(hh: string, mm: string, now: int)
    requires |hh| == 2 && |mm| == 2 && AllDigits(hh) && AllDigits(mm)
    ensures RefreshAt(hh + ":" + mm, now)
            == Some(Midnight(DayOf(now)) + DigitsValue(hh) * 3600000 + DigitsValue(mm) * 60000)
  {
    var parts := Split(hh + ":" + mm, ':');
    SplitClock(hh, mm);
    assert parts[0] == hh && parts[1] == mm;
    ClockField(hh);
    ClockField(mm);
  }

  lemma ClockField(f: string)
    requires |f| == 2 && AllDigits(f)
    ensures NumberOf(f) == Some(DigitsValue(f))
  {
    assert !IsSpace(f[0]);
  }

  lemma SplitClock(hh: string, mm: string)
    requires |hh| == 2 && AllDigits(hh) && AllDigits(mm)
    ensures Split(hh + ":" + mm, ':') == [hh, mm]
  {
    var time := hh + ":" + mm;
    assert time == hh + ([':'] + mm);
    IndexOfMarker(hh, mm, ':');
    assert time[..2] == hh && time[3..] == mm;
    assert ':' !in mm;
    var rest := Split(mm, ':');
    assert IndexOf(mm, ':') == |mm| && rest == [mm];
  }

  /** `now.getDay() === 0 || now.getDay() === 6`. */
  predicate IsWeekend(now: int) {
    WeekDay(now) == 0 || WeekDay(now) == 6
  }

  function RefreshTimes(p: RefreshProfile, now: int): seq<string> {
    if IsWeekend(now) then p.weekend else p.weekday
  }

  // ---------------------------------------------------------------------------
  // The triggers of `cycle`

  datatype Trigger = Full | Quick

  /**
   * The midnight trigger. `user.lastRefresh` is always a date once loaded (the
   * epoch when the file had none), so the `!user.lastRefresh` alternative never
   * holds and is left out.
   */
  predicate FullDue(lastRefresh: int, now: int) {
    var midnight := Midnight(DayOf(now));
    now >= midnight && lastRefresh < midnight && now - lastRefresh >= FullTimeout
  }

  /** The trigger of one profile time. */
  predicate QuickFires(time: string, lastRefresh: int, now: int) {
    var t := RefreshAt(time, now);
    t.Some? && now >= t.value && lastRefresh < t.value && now - lastRefresh >= QuickTimeout
  }

  predicate QuickDue(times: seq<string>, lastRefresh: int, now: int) {
    exists j :: 0 <= j < |times| && QuickFires(times[j], lastRefresh, now)
  }

  /** What `cycle` schedules for a user: the full refresh first, else a quick one. */
  function Due(u: User, now: int): Option<Trigger>
    reads u
  {
    if FullDue(u.lastRefresh, now) then Some(Full)
    else if QuickDue(RefreshTimes(u.refreshProfile, now), u.lastRefresh, now) then Some(Quick)
    else None
  }

  /** The time-out `refreshUser` enforces for the trigger. */
  function Limit(full: bool): int {
    if full then FullTimeout else QuickTimeout
  }

  /** `refreshUser`'s guard: the previous sync is within the time-out. */
  predicate TooRecent(lastRefresh: int, now: int, full: bool) {
    now - lastRefresh < Limit(full)
  }

  /**
   * A refresh `cycle` schedules is not turned away by `refreshUser`'s guard when
   * its timer fires later, as long as the user's stamp is still the one `cycle`
   * saw; a sync that stamps the user in between (one scheduled by a later cycle)
   * can make the guard skip it.
   */
  lemma ScheduledRefreshProceeds(lastRefresh: int, now: int, later: int, times: seq<string>)
    requires now <= later
    ensures FullDue(lastRefresh, now) ==> !TooRecent(lastRefresh, later, true)
    ensures QuickDue(times, lastRefresh, now) ==> !TooRecent(lastRefresh, later, false)
  {
  }

  /** Right after a sync stamped `now`, neither trigger fires again at `now`. */
  lemma NotDueRightAfter(times: seq<string>, now: int)
    ensures !FullDue(now, now)
    ensures !QuickDue(times, now, now)
  {
  }

  /**
   * The midnight trigger fires on every cycle of a day until a sync happens
   * (the time-out aside), and never twice in one day.
   */
  lemma FullOncePerDay(lastRefresh: int, now: int, later: int)
    requires FullDue(lastRefresh, now) && now <= later && DayOf(later) == DayOf(now)
    ensures FullDue(lastRefresh, later)
    ensures !FullDue(now, later)
  {
  }

  // ---------------------------------------------------------------------------
  // cycle

  /** The first profile time that fires, as the `for … break` loop finds it. */
  method FirstFiring(times: seq<string>, lastRefresh: int, now: int) returns (r: Option<nat>)
    ensures r.Some? ==> r.value < |times| && QuickFires(times[r.value], lastRefresh, now)
    ensures r.Some? ==> forall j :: 0 <= j < r.value ==> !QuickFires(times[j], lastRefresh, now)
    ensures r.None? <==> !QuickDue(times, lastRefresh, now)
  {
    for i := 0 to |times|
      invariant forall j :: 0 <= j < i ==> !QuickFires(times[j], lastRefresh, now)
    {
      var parts := Split(times[i], ':');
      if |parts| >= 2 {
        var hours, minutes := NumberOf(parts[0]), NumberOf(parts[1]);
        if hours.Some? && minutes.Some? {
          var refreshTime := Midnight(DayOf(now)) + hours.value * 3600000 + minutes.value * 60000;
          if now >= refreshTime && lastRefresh < refreshTime && now - lastRefresh >= QuickTimeout {
            return Some(i);
          }
        }
      }
    }
    return None;
  }

  /** The body of `cycle`'s loop for an active user: which refresh, if any, it schedules. */
  method CheckUser(user: User, now: int) returns (trigger: Option<Trigger>)
    ensures trigger == Due(user, now)
  {
    var rp := user.refreshProfile;
    var refreshTimes := if IsWeekend(now) then rp.weekend else rp.weekday;
    var midnight := Midnight(DayOf(now));
    if now >= midnight && user.lastRefresh < midnight && now - user.lastRefresh >= FullTimeout {
      return Some(Full);
    }
    var fired := FirstFiring(refreshTimes, user.lastRefresh, now);
    trigger := if fired.Some? then Some(Quick) else None;
  }

  /** A `setTimeout(() => refreshUser(name, user, full), delay)` call of `cycle`. */
  datatype Scheduled = Scheduled(index: nat, name: string, trigger: Trigger, delay: int)

  /** The stagger after a scheduled refresh: 5 minutes after a full one, 8 s after a quick one. */
  function Gap(t: Trigger): int {
    match t
    case Full => 5 * 60 * 1000
    case Quick => 8 * 1000
  }

  /**
   * `cycle` after `loadConfig`, over `Object.entries(users)`: every active user
   * that is due gets exactly one refresh, of the trigger `Due` names, inactive
   * and undue users get none, and each refresh starts the stagger's gap after
   * the previous one.
   */
  method Cycle(entries: seq<(string, User)>, now: int) returns (plan: seq<Scheduled>)
    ensures forall k :: 0 <= k < |plan| ==>
              var i := plan[k].index;
              i < |entries| && plan[k].name == entries[i].0 && entries[i].1.active
              && Due(entries[i].1, now) == Some(plan[k].trigger)
    ensures forall k, k' :: 0 <= k < k' < |plan| ==> plan[k].index < plan[k'].index
    ensures forall i :: 0 <= i < |entries| && entries[i].1.active && Due(entries[i].1, now).Some? ==>
              exists k :: 0 <= k < |plan| && plan[k].index == i
    ensures |plan| > 0 ==> plan[0].delay == 0
    ensures forall k :: 0 <= k < |plan| - 1 ==> plan[k + 1].delay == plan[k].delay + Gap(plan[k].trigger)
  {
    plan := [];
    var timeout := 0;
    for i := 0 to |entries|
      invariant PlanUpTo(entries, now, plan, i)
      invariant timeout == NextDelay(plan)
    {
      plan, timeout := CycleEntry(entries, now, plan, timeout, i);
    }
    PlanDone(entries, now, plan);
  }

  /** One pass of `cycle`'s loop: entry `i` is skipped or gets its refresh, `timeout` after the last. */
  method CycleEntry(entries: seq<(string, User)>, now: int, plan: seq<Scheduled>, timeout: int, i: nat)
    returns (plan': seq<Scheduled>, timeout': int)
    requires i < |entries| && PlanUpTo(entries, now, plan, i) && timeout == NextDelay(plan)
    ensures PlanUpTo(entries, now, plan', i + 1) && timeout' == NextDelay(plan')
  {
    plan', timeout' := plan, timeout;
    var (username, user) := entries[i];
    if !user.active {
      PlanSkip(entries, now, plan, i);
      return;
    }
    var trigger := CheckUser(user, now);
    if trigger.Some? {
      var s := Scheduled(i, username, trigger.value, timeout);
      PlanAdd(entries, now, plan, i, s);
      plan' := plan + [s];
      timeout' := timeout + Gap(trigger.value);
    } else {
      PlanSkip(entries, now, plan, i);
    }
  }

  /** The invariant over all entries is `cycle`'s contract. */
  lemma PlanDone(entries: seq<(string, User)>, now: int, plan: seq<Scheduled>)
    requires PlanUpTo(entries, now, plan, |entries|)
    ensures forall k :: 0 <= k < |plan| ==>
              var i := plan[k].index;
              i < |entries| && plan[k].name == entries[i].0 && entries[i].1.active
              && Due(entries[i].1, now) == Some(plan[k].trigger)
    ensures forall k, k' :: 0 <= k < k' < |plan| ==> plan[k].index < plan[k'].index
    ensures forall i :: 0 <= i < |entries| && entries[i].1.active && Due(entries[i].1, now).Some? ==>
              exists k :: 0 <= k < |plan| && plan[k].index == i
    ensures |plan| > 0 ==> plan[0].delay == 0
    ensures forall k :: 0 <= k < |plan| - 1 ==> plan[k + 1].delay == plan[k].delay + Gap(plan[k].trigger)
  {
  }

  /** Where the next refresh would start: `timeout` in `cycle`. */
  function NextDelay(plan: seq<Scheduled>): int {
    if plan == [] then 0 else plan[|plan| - 1].delay + Gap(plan[|plan| - 1].trigger)
  }

  /** Every planned refresh is for an entry below `i` that is active and due that refresh. */
  ghost predicate PlanSound(entries: seq<(string, User)>, now: int, plan: seq<Scheduled>, i: int)
    reads set k | 0 <= k < |entries| :: entries[k].1
  {
    forall k :: 0 <= k < |plan| ==>
      var n := plan[k].index;
      n < i <= |entries| && plan[k].name == entries[n].0 && entries[n].1.active
      && Due(entries[n].1, now) == Some(plan[k].trigger)
  }

  /** Entries appear in order, each at most once. */
  predicate Increasing(plan: seq<Scheduled>) {
    forall k, k' :: 0 <= k < k' < |plan| ==> plan[k].index < plan[k'].index
  }

  /** Every active entry below `i` that is due has a planned refresh. */
  ghost predicate PlanComplete(entries: seq<(string, User)>, now: int, plan: seq<Scheduled>, i: int)
    reads set k | 0 <= k < |entries| :: entries[k].1
  {
    forall n :: 0 <= n < i && n < |entries| && entries[n].1.active && Due(entries[n].1, now).Some? ==>
      exists k :: 0 <= k < |plan| && plan[k].index == n
  }

  /** The delays start at 0 and grow by the gap of each refresh. */
  predicate Staggered(plan: seq<Scheduled>) {
    && (|plan| > 0 ==> plan[0].delay == 0)
    && forall k :: 0 <= k < |plan| - 1 ==> plan[k + 1].delay == plan[k].delay + Gap(plan[k].trigger)
  }

  /** The loop invariant of `Cycle`: `plan` is right for the first `i` entries. */
  ghost predicate PlanUpTo(entries: seq<(string, User)>, now: int, plan: seq<Scheduled>, i: int)
    reads set k | 0 <= k < |entries| :: entries[k].1
  {
    0 <= i <= |entries| && PlanSound(entries, now, plan, i) && Increasing(plan)
    && PlanComplete(entries, now, plan, i) && Staggered(plan)
  }

  lemma PlanSkip(entries: seq<(string, User)>, now: int, plan: seq<Scheduled>, i: int)
    requires PlanUpTo(entries, now, plan, i) && i < |entries|
    requires !entries[i].1.active || Due(entries[i].1, now).None?
    ensures PlanUpTo(entries, now, plan, i + 1)
  {
  }

  lemma PlanAdd(entries: seq<(string, User)>, now: int, plan: seq<Scheduled>, i: int, s: Scheduled)
    requires PlanUpTo(entries, now, plan, i) && i < |entries|
    requires entries[i].1.active && Due(entries[i].1, now) == Some(s.trigger)
    requires s.index == i && s.name == entries[i].0 && s.delay == NextDelay(plan)
    ensures PlanUpTo(entries, now, plan + [s], i + 1)
  {
    SoundAdd(entries, now, plan, i, s);
    CompleteAdd(entries, now, plan, i, s);
    assert Staggered(plan + [s]) by {
      assert forall k :: 0 <= k < |plan| ==> (plan + [s])[k] == plan[k];
    }
  }

  lemma SoundAdd(entries: seq<(string, User)>, now: int, plan: seq<Scheduled>, i: int, s: Scheduled)
    requires 0 <= i < |entries| && PlanSound(entries, now, plan, i)
    requires entries[i].1.active && Due(entries[i].1, now) == Some(s.trigger)
    requires s.index == i && s.name == entries[i].0
    ensures PlanSound(entries, now, plan + [s], i + 1)
  {
    assert forall k :: 0 <= k < |plan| ==> (plan + [s])[k] == plan[k];
  }

  lemma CompleteAdd(entries: seq<(string, User)>, now: int, plan: seq<Scheduled>, i: int, s: Scheduled)
    requires PlanComplete(entries, now, plan, i) && i < |entries| && s.index == i
    ensures PlanComplete(entries, now, plan + [s], i + 1)
  {
    var plan' := plan + [s];
    forall n | 0 <= n <= i && entries[n].1.active && Due(entries[n].1, now).Some?
      ensures exists k :: 0 <= k < |plan'| && plan'[k].index == n
    {
      if n < i {
        var k :| 0 <= k < |plan| && plan[k].index == n;
        assert plan'[k] == plan[k];
      } else {
        assert plan'[|plan|].index == n;
      }
    }
  }

  // ---------------------------------------------------------------------------
  // refreshUser

  datatype Stats = Stats(skipped: nat, created: nat, updated: nat, errors: nat)

  datatype SyncResult = VerifiedNoOp | Synced | PartlySynced | Failed

  /** The closing log of a sync, chosen from the counters. */
  function Classify(s: Stats): (r: SyncResult)
    ensures r == VerifiedNoOp <==> s.errors == 0 && s.created == 0 && s.updated == 0
    ensures r == Synced <==> s.errors == 0 && s.created + s.updated > 0
    ensures r == PartlySynced <==> s.errors > 0 && s.created + s.updated > 0
    ensures r == Failed <==> s.errors > 0 && s.created == 0 && s.updated == 0
  {
    if s.errors == 0 && s.created == 0 && s.updated == 0 then VerifiedNoOp
    else if s.errors == 0 then Synced
    else if s.created > 0 || s.updated > 0 then PartlySynced
    else Failed
  }

  datatype Outcome =
    | TooRecentSkip(seconds: int)
    | NoPassword
    | BadPassword
    | FetchFailed(message: string)
    | NoCalendarApi
    | CalendarFailed(message: string)
    | Unexpected
    | Done(result: SyncResult)

  /** The `type` argument of `log`. */
  datatype LogType = Info | Success | Warning | Error

  /** The type of the log line each outcome writes. */
  function LogTypeOf(o: Outcome): LogType {
    match o
    case Done(VerifiedNoOp) => Success
    case Done(Synced) => Success
    case Done(PartlySynced) => Warning
    case _ => Error
  }

  /** The message of the log line each outcome writes. */
  function MessageOf(o: Outcome): string {
    match o
    case TooRecentSkip(sec) =>
      "Skipping sync: Last sync was too recent, timeout of " + IntString(sec) + " seconds remaining"
    case NoPassword => "WebUntis password not configured: Please enter your password in the settings!"
    case BadPassword => "Invalid WebUntis password: Please re-enter your password in the settings!"
    case FetchFailed(m) => m
    case NoCalendarApi => "Failed to load Google Calendar API: Please reauthorize!"
    case CalendarFailed(m) => m
    case Unexpected => "Unexpected error during sync: Please contact support!"
    case Done(VerifiedNoOp) => "Nothing changed, successfully verified sync of WebUntis and Google Calendar"
    case Done(Synced) => "Successfully synced WebUntis to Google Calendar"
    case Done(PartlySynced) => "Synced WebUntis to Google Calendar with partial success"
    case Done(Failed) => "Upload to Google Calendar failed: Please check configuration or contact support!"
  }

  /** Every way a sync can stop short is logged as an error; only finished syncs may succeed. */
  lemma EarlyExitsAreErrors(o: Outcome)
    ensures LogTypeOf(o) == Error <==> !o.Done? || o.result == Failed
    ensures LogTypeOf(o) == Success <==> o.Done? && (o.result == VerifiedNoOp || o.result == Synced)
  {
  }

  /** The results of the calls `refreshUser` makes into code outside this model. */
  datatype Services = Services(
    decrypted: Option<string>,        // `decrypt(...)`; `None` when it throws
    server: Server,                   // what the WebUntis server answers `fetchWebUntis`
    apiLoaded: bool,                  // `loadApi` returned a client
    calendar: Result<string, string>) // `getCalendar`: the title, or its `error`

  /**
   * How `refreshUser` calls `fetchWebUntis` and `uploadNews`: as backend/index.js
   * is written (`fullRefresh` in the place of `start`, no `end`, and the flattened
   * news handed to the loop over days), or as evidently intended (a window of two
   * dates, and the flattened news read message by message).
   */
  datatype Calls = AsWritten | Intended(start: int, end: int)

  function FetchStart(calls: Calls, full: bool): StartArg {
    if calls.AsWritten? then StartFlag(full) else StartDate(calls.start)
  }

  function FetchEnd(calls: Calls): Option<int> {
    if calls.AsWritten? then None else Some(calls.end)
  }

  /** What the fetch of a sync returns. */
  function FetchOf(calls: Calls, full: bool, services: Services): Result<Fetched, string> {
    FetchOutcome(FetchStart(calls, full), FetchEnd(calls), services.server)
  }

  /** `Math.ceil(x / 1000)` for a positive number of milliseconds. */
  function CeilSeconds(x: int): (s: int)
    requires x > 0
    ensures (s - 1) * 1000 < x <= s * 1000
  {
    (x + 999) / 1000
  }

  /**
   * `refreshUser`: a sync within the time-out of the previous one is skipped
   * with the seconds left; otherwise the record is stamped and saved, then the
   * early exits are tried in order, and a sync that reaches the calendar queues
   * the holiday, news and lesson jobs on a fresh queue of five workers. The
   * counters are never touched by the uploads, so a finished sync reports
   * "nothing changed". As written, the fetch never returns data, so no sync
   * gets past it; with the calls as intended, a sync finishes whenever every
   * service answers.
   */
  method RefreshUser(username: string, user: User, full: bool, now: int, services: Services, calls: Calls)
    returns (outcome: Outcome, saved: Option<UserFile>, ghost queued: seq<Job>)
    modifies user
    ensures TooRecent(old(user.lastRefresh), now, full) <==> outcome.TooRecentSkip?
    ensures outcome.TooRecentSkip? ==>
              var left := Limit(full) - (now - old(user.lastRefresh));
              left > 0 && outcome.seconds == CeilSeconds(left)
              && user.lastRefresh == old(user.lastRefresh) && saved == None
    ensures !outcome.TooRecentSkip? ==>
              user.lastRefresh == now && saved == Some(Stripped(user.View()))
    ensures outcome == NoPassword <==> !outcome.TooRecentSkip? && user.password == ""
    ensures outcome == BadPassword <==>
              !outcome.TooRecentSkip? && user.password != "" && services.decrypted.None?
    ensures outcome.FetchFailed? <==>
              !outcome.TooRecentSkip? && user.password != "" && services.decrypted.Some?
              && FetchOf(calls, full, services).Err?
    ensures outcome.FetchFailed? ==> outcome.message == FetchOf(calls, full, services).error
    ensures outcome == Unexpected <==>
              !outcome.TooRecentSkip? && user.password != "" && services.decrypted.Some?
              && FetchOf(calls, full, services).Ok? && services.apiLoaded && services.calendar.Ok?
              && calls.AsWritten? && FetchOf(calls, full, services).value.news != []
    ensures outcome == Unexpected ==> queued == HolidayJobs(FetchOf(calls, full, services).value.holidays)
    ensures outcome.Done? <==>
              !outcome.TooRecentSkip? && user.password != "" && services.decrypted.Some?
              && FetchOf(calls, full, services).Ok? && services.apiLoaded && services.calendar.Ok?
              && (calls.Intended? || FetchOf(calls, full, services).value.news == [])
    ensures outcome.Done? ==>
              outcome.result == VerifiedNoOp
              && var f := FetchOf(calls, full, services).value;
                 queued == HolidayJobs(f.holidays) + ItemJobs(f.news)
                           + LessonJobs(Generated(f.data, |f.data.timetable|).0)
    ensures !outcome.Done? && outcome != Unexpected ==> queued == []
    ensures calls.AsWritten? ==> !outcome.Done? && outcome != Unexpected && queued == []
  {
    queued := [];
    var timeout := if full then FullTimeout else QuickTimeout;
    if now - user.lastRefresh < timeout {
      outcome := TooRecentSkip(CeilSeconds(timeout - (now - user.lastRefresh)));
      saved := None;
      return;
    }
    user.lastRefresh := now;
    var path, record := SaveUserFile(username, user);
    saved := Some(record);
    if user.password == "" {
      outcome := NoPassword;
      return;
    }
    if services.decrypted.None? {
      outcome := BadPassword;
      return;
    }
    var fetched := FetchWebUntis(FetchStart(calls, full), FetchEnd(calls), services.server);
    if fetched.Err? {
      outcome := FetchFailed(fetched.error);
      return;
    }
    var f := fetched.value;
    var lessons := GenerateLessons(f.data);
    if !services.apiLoaded {
      outcome := NoCalendarApi;
      return;
    }
    if services.calendar.Err? {
      outcome := CalendarFailed(services.calendar.error);
      return;
    }
    match calls
    case AsWritten =>
      outcome, queued := Upload(f, lessons);
    case Intended(_, _) =>
      var result;
      result, queued := UploadIntended(f, lessons);
      outcome := Done(result);
  }

  /**
   * The end of `refreshUser` as written: zeroed counters, a queue of five
   * workers and the holiday upload; then `uploadNews` on the flattened news,
   * which throws on the first message, and the catch of `refreshUser` logs an
   * unexpected error with the holiday jobs already queued. Without any news, the
   * lesson upload, the wait for the queue and the classification of the
   * counters follow.
   */
  method Upload(fetched: Fetched, lessons: seq<Lesson>) returns (outcome: Outcome, ghost queued: seq<Job>)
    ensures outcome == Unexpected <==> fetched.news != []
    ensures outcome == Unexpected ==> queued == HolidayJobs(fetched.holidays)
    ensures outcome != Unexpected ==>
              outcome == Done(VerifiedNoOp) && queued == HolidayJobs(fetched.holidays) + LessonJobs(lessons)
  {
    var stats := Stats(0, 0, 0, 0);
    var queue := new TaskQueue<Job>(5);
    var holidayTasks := UploadHolidays(fetched.holidays, queue);
    assert queue.enqueued == HolidayJobs(fetched.holidays);
    FlatEntriesThrow(fetched.news);
    var newsTasks, thrown := UploadNews(ItemEntries(fetched.news), queue);
    assert queue.enqueued == HolidayJobs(fetched.holidays);
    if thrown {
      outcome := Unexpected;
      queued := queue.enqueued;
      return;
    }
    var lessonTasks := UploadLessons(lessons, queue);
    var idle := queue.WaitUntilEmpty(0);
    outcome := Done(Classify(stats));
    queued := queue.enqueued;
  }

  /**
   * The end of `refreshUser` as evidently intended: the flattened news are read
   * message by message, so every holiday, news and lesson job is queued and the
   * sync finishes.
   */
  method UploadIntended(fetched: Fetched, lessons: seq<Lesson>) returns (result: SyncResult, ghost queued: seq<Job>)
    ensures result == VerifiedNoOp
    ensures queued == HolidayJobs(fetched.holidays) + ItemJobs(fetched.news) + LessonJobs(lessons)
  {
    var stats := Stats(0, 0, 0, 0);
    var queue := new TaskQueue<Job>(5);
    var holidayTasks := UploadHolidays(fetched.holidays, queue);
    assert queue.enqueued == HolidayJobs(fetched.holidays);
    var newsTasks := UploadNewsItems(fetched.news, queue);
    ghost var afterNews := queue.enqueued;
    assert afterNews == HolidayJobs(fetched.holidays) + ItemJobs(fetched.news);
    var lessonTasks := UploadLessons(lessons, queue);
    assert queue.enqueued == afterNews + LessonJobs(lessons);
    var idle := queue.WaitUntilEmpty(0);
    result := Classify(stats);
    queued := queue.enqueued;
  }
}
