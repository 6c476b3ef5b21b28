/**
 * backend/utils.js: the zero-padded local date/time formatters and the bounded
 * task queue. A JavaScript `Date` is represented either by the values its local
 * getters return (`LocalDate`) or, where the code does arithmetic on it, by
 * milliseconds since the epoch; `FromMillis` links the two in UTC.
 */
module Utils {
  import opened Maybe
  import opened Strings

  /**
   * What `getFullYear()`, `getMonth()` (zero-based), `getDate()`, `getHours()`,
   * `getMinutes()` and `getSeconds()` return.
   */
  datatype LocalDate = LocalDate(fullYear: int, month: int, date: int, hours: int, minutes: int, seconds: int)

  /** The ranges JavaScript's getters stay in, with a four-digit year. */
  predicate Ordinary(d: LocalDate) {
    && 1000 <= d.fullYear <= 9999
    && 0 <= d.month <= 11
    && 1 <= d.date <= 31
    && 0 <= d.hours <= 23
    && 0 <= d.minutes <= 59
    && 0 <= d.seconds <= 59
  }

  /** `String(x).padStart(2, '0')`. */
  function Two(x: int): string {
    PadStart2(IntString(x))
  }

  /** `formatToLocalISO`: `YYYY-MM-DD hh:mm:ss`. */
  function FormatToLocalISO(d: LocalDate): string {
    IntString(d.fullYear) + "-" + Two(d.month + 1) + "-" + Two(d.date) + " "
      + Two(d.hours) + ":" + Two(d.minutes) + ":" + Two(d.seconds)
  }

  /** `formatToLocalISODate`: `YYYY-MM-DD`. */
  function FormatToLocalISODate(d: LocalDate): string {
    IntString(d.fullYear) + "-" + Two(d.month + 1) + "-" + Two(d.date)
  }

  /** `formatToLocalISOTime`: `hh:mm:ss`. */
  function FormatToLocalISOTime(d: LocalDate): string {
    Two(d.hours) + ":" + Two(d.minutes) + ":" + Two(d.seconds)
  }

  /** The full stamp is the date stamp, a space and the time stamp. */
  lemma FormatToLocalISOIsDateSpaceTime(d: LocalDate)
    ensures FormatToLocalISO(d) == FormatToLocalISODate(d) + " " + FormatToLocalISOTime(d)
  {
    var x := FormatToLocalISODate(d) + " ";
    var h, mi := Two(d.hours), Two(d.minutes);
    AppendAssociative(x, h + ":" + mi + ":", Two(d.seconds));
    AppendAssociative(x, h + ":" + mi, ":");
    AppendAssociative(x, h + ":", mi);
    AppendAssociative(x, h, ":");
  }

  lemma TwoOfSmall(x: int)
    requires 0 <= x <= 99
    ensures |Two(x)| == 2 && AllDigits(Two(x)) && DigitsValue(Two(x)) == x
  {
    PadStart2RoundTrip(x);
  }

  /** The date stamp of ordinary getter values: 10 characters, month and day readable back. */
  lemma DateStampFields(d: LocalDate)
    requires Ordinary(d)
    ensures |FormatToLocalISODate(d)| == 10
    ensures DigitsValue(FormatToLocalISODate(d)[5..7]) == d.month + 1
    ensures DigitsValue(FormatToLocalISODate(d)[8..10]) == d.date
  {
    NatStringFourDigits(d.fullYear);
    TwoOfSmall(d.month + 1);
    TwoOfSmall(d.date);
    var ds := FormatToLocalISODate(d);
    assert ds[5..7] == Two(d.month + 1);
    assert ds[8..10] == Two(d.date);
  }

  /** The time stamp of ordinary getter values: 8 characters, each field readable back. */
  lemma TimeStampFields(d: LocalDate)
    requires Ordinary(d)
    ensures |FormatToLocalISOTime(d)| == 8
    ensures DigitsValue(FormatToLocalISOTime(d)[0..2]) == d.hours
    ensures DigitsValue(FormatToLocalISOTime(d)[3..5]) == d.minutes
    ensures DigitsValue(FormatToLocalISOTime(d)[6..8]) == d.seconds
  {
    TwoOfSmall(d.hours);
    TwoOfSmall(d.minutes);
    TwoOfSmall(d.seconds);
    var ts := FormatToLocalISOTime(d);
    assert ts[0..2] == Two(d.hours);
    assert ts[3..5] == Two(d.minutes);
    assert ts[6..8] == Two(d.seconds);
  }

  /**
   * With ordinary getter values the date stamp has 10 characters, the time stamp 8
   * and the full stamp 19.
   */
  lemma {:induction false} FormatLengths(d: LocalDate)
    requires Ordinary(d)
    ensures |FormatToLocalISODate(d)| == 10
    ensures |FormatToLocalISOTime(d)| == 8
    ensures |FormatToLocalISO(d)| == 19
  {
    DateStampFields(d);
    TimeStampFields(d);
    FormatToLocalISOIsDateSpaceTime(d);
  }

  const MillisPerDay := 86400000

  /** The day number (days since 1970-01-01) of an instant. */
  function DayOf(t: int): int {
    t / MillisPerDay
  }

  /** 00:00:00.000 of a day. */
  function Midnight(day: int): int {
    day * MillisPerDay
  }

  /** 23:59:59.999 of a day. */
  function EndOfDay(day: int): int {
    day * MillisPerDay + MillisPerDay - 1
  }

  lemma MidnightAndEndOfDay(t: int)
    ensures Midnight(DayOf(t)) <= t <= EndOfDay(DayOf(t))
  {
  }

  /**
   * Civil (proleptic Gregorian) year, month 1..12 and day of month of a day number;
   * the standard era-based conversion.
   */
  function CivilFromDays(days: int): (int, int, int) {
    var z := days + 719468;
    var era := z / 146097;
    var doe := z - era * 146097;
    var yoe := (doe - doe / 1460 + doe / 36524 - doe / 146096) / 365;
    var doy := doe - (365 * yoe + yoe / 4 - yoe / 100);
    var mp := (5 * doy + 2) / 153;
    var day := doy - (153 * mp + 2) / 5 + 1;
    var month := if mp < 10 then mp + 3 else mp - 9;
    var year := yoe + era * 400 + (if month <= 2 then 1 else 0);
    (year, month, day)
  }

  /** The getters of a `Date` at instant `t`, read in UTC. */
  function FromMillis(t: int): LocalDate {
    var (y, m, d) := CivilFromDays(DayOf(t));
    var ms := t % MillisPerDay;
    LocalDate(y, m - 1, d, ms / 3600000, (ms / 60000) % 60, (ms / 1000) % 60)
  }

  /** `getDay()`: 0 for Sunday; 1970-01-01 was a Thursday. */
  function WeekDay(t: int): (w: int)
    ensures 0 <= w < 7
  {
    (DayOf(t) + 4) % 7
  }

  /** How a task's promise settled; the queue catches a rejection and carries on. */
  datatype Settled = Resolved | Threw

  /**
   * `TaskQueue(concurrency)`: the closed-over `running`, `tasks` and `resolveEmpty`
   * become fields. JavaScript runs one callback at a time, so each method below is
   * one uninterrupted step between two `await`s:
   *   Enqueue      the call `queue(task)` up to its first `await`;
   *   WorkerStep   a worker resuming after the task it awaited settled;
   *   WaitUntilEmpty  the call `queue.waitUntilEmpty()`.
   * Every running worker is awaiting exactly one task, so `running` equals the
   * number of tasks in flight. Waiters are named by numbers.
   */
  class TaskQueue<T(==)> {
    const concurrency: int
    var running: int
    var tasks: seq<T>
    var resolveEmpty: Option<nat>

    /** Every task ever handed to `queue`, in call order. */
    ghost var enqueued: seq<T>
    /** Every task a worker has called, in call order. */
    ghost var invoked: seq<T>
    /** The tasks called and not yet settled: one per running worker. */
    ghost var inFlight: multiset<T>

    ghost predicate Valid()
      reads this
    {
      && 0 <= running == |inFlight|
      && (running <= concurrency || running == 0)
      && enqueued == invoked + tasks
      // a task waits in the list only while every worker slot is taken
      && (tasks != [] ==> running >= concurrency)
      // a registered waiter is never left behind by an idle queue
      && (resolveEmpty.Some? ==> running > 0 || tasks != [])
    }

    predicate Idle()
      reads this
    {
      running == 0 && tasks == []
    }

    constructor (concurrency: int)
      ensures Valid() && Idle()
      ensures this.concurrency == concurrency && resolveEmpty == None
      ensures enqueued == [] && invoked == []
    {
      this.concurrency := concurrency;
      running := 0;
      tasks := [];
      resolveEmpty := None;
      enqueued := [];
      invoked := [];
      inFlight := multiset{};
    }

    /**
     * `queue(task)`: append to the tail; when fewer than `concurrency` workers run,
     * start one, which calls the head of the list before the first `await`. Since
     * tasks wait only while all slots are taken, that head is the new task itself.
     */
    method Enqueue(task: T) returns (started: Option<T>)
      requires Valid()
      modifies this
      ensures Valid()
      ensures enqueued == old(enqueued) + [task]
      ensures started.Some? <==> old(running) < concurrency
      ensures started.Some? ==>
                started.value == task && tasks == old(tasks) == []
                && running == old(running) + 1 && invoked == old(invoked) + [task]
      ensures started.None? ==>
                tasks == old(tasks) + [task] && running == old(running) && invoked == old(invoked)
      ensures resolveEmpty == old(resolveEmpty)
    {
      tasks := tasks + [task];
      enqueued := enqueued + [task];
      if running >= concurrency {
        started := None;
        return;
      }
      running := running + 1;
      var head := tasks[0];
      tasks := tasks[1..];
      invoked := invoked + [head];
      inFlight := inFlight + multiset{head};
      started := Some(head);
    }

    /**
     * The worker awaiting `done` resumes, whether the task resolved or threw: it
     * calls the next task at the head of the list, or, seeing the list empty,
     * leaves (`--running`) and resolves the registered waiter if it was the last.
     */
    method WorkerStep(done: T, settled: Settled) returns (next: Option<T>, fired: Option<nat>)
      requires Valid() && done in inFlight
      modifies this
      ensures Valid()
      ensures enqueued == old(enqueued)
      ensures old(tasks) != [] ==>
                next == Some(old(tasks)[0]) && tasks == old(tasks)[1..]
                && invoked == old(invoked) + [old(tasks)[0]] && running == old(running)
                && fired == None && resolveEmpty == old(resolveEmpty)
      ensures old(tasks) == [] ==>
                next == None && tasks == [] && invoked == old(invoked) && running == old(running) - 1
      ensures old(tasks) == [] ==> fired == (if running == 0 then old(resolveEmpty) else None)
      ensures old(tasks) == [] ==> resolveEmpty == (if running == 0 then None else old(resolveEmpty))
      ensures fired.Some? ==> Idle()
    {
      inFlight := inFlight - multiset{done};
      if tasks != [] {
        var head := tasks[0];
        tasks := tasks[1..];
        invoked := invoked + [head];
        inFlight := inFlight + multiset{head};
        next, fired := Some(head), None;
        return;
      }
      next := None;
      running := running - 1;
      fired := None;
      if running == 0 && tasks == [] && resolveEmpty.Some? {
        fired := resolveEmpty;
        resolveEmpty := None;
      }
    }

    /**
     * `waitUntilEmpty()`: resolves at once when idle; otherwise stores its resolver,
     * replacing any earlier one, which then never fires.
     */
    method WaitUntilEmpty(waiter: nat) returns (immediate: bool)
      requires Valid()
      modifies this`resolveEmpty
      ensures Valid()
      ensures immediate == Idle()
      ensures resolveEmpty == if immediate then old(resolveEmpty) else Some(waiter)
    {
      immediate := running == 0 && tasks == [];
      if !immediate {
        resolveEmpty := Some(waiter);
      }
    }
  }
}
