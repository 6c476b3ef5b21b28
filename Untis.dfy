/**
 * backend/untis.js: turning what the WebUntis server returns into lessons,
 * holidays and news for the uploaders. The server calls themselves are not
 * modelled; their answers are the inputs. WebUntis dates (`yyyymmdd`) and times
 * (`hhmm`) are converted to milliseconds in UTC.
 */
module Untis {
  import opened Maybe
  import opened Strings
  import opened Utils

  // ---------------------------------------------------------------------------
  // Dates

  /** Days since 1970-01-01 of a civil date, month 1..12 (the inverse of `CivilFromDays`). */
  function DaysFromCivil(y: int, m: int, d: int): int {
    var y' := if m <= 2 then y - 1 else y;
    var era := y' / 400;
    var yoe := y' - era * 400;
    var mp := if m > 2 then m - 3 else m + 9;
    var doy := (153 * mp + 2) / 5 + d - 1;
    var doe := yoe * 365 + yoe / 4 - yoe / 100 + doy;
    era * 146097 + doe - 719468
  }

  /** `WebUntis.convertUntisDate(yyyymmdd)`: midnight of that day. */
  function UntisDate(yyyymmdd: int): int {
    Midnight(DaysFromCivil(yyyymmdd / 10000, (yyyymmdd / 100) % 100, yyyymmdd % 100))
  }

  /** `WebUntis.convertUntisTime(hhmm, date)`: hours and minutes after `date`. */
  function UntisTime(hhmm: int, date: int): int {
    date + (hhmm / 100) * 3600000 + (hhmm % 100) * 60000
  }

  // ---------------------------------------------------------------------------
  // School-year window (`fetchWebUntis`)

  datatype SchoolYear = SchoolYear(startDate: int, endDate: int)

  /** `new Date(schoolyear.endDate).setHours(23, 59, 59, 999)`. */
  function YearEnd(y: SchoolYear): int {
    EndOfDay(DayOf(y.endDate))
  }

  /** `new Date(schoolyear.startDate).setHours(0, 0, 0, 0)`. */
  function YearStart(y: SchoolYear): int {
    Midnight(DayOf(y.startDate))
  }

  predicate Usable(y: Option<SchoolYear>, start: int) {
    y.Some? && start <= YearEnd(y.value)
  }

  const NoSchoolYear := "No school year data found! Check WebUntis, when data is available there, contact support"

  /**
   * The window of `fetchWebUntis`: take the current school year, or the latest when
   * the current one is missing or ends before `start`, fail when that one is too;
   * then raise `start` to the year's first midnight, replace an `end` before `start`
   * by the end of the 28th day from `start`, and cap `end` at the year's last
   * millisecond. `end == None` is `undefined`, which every comparison leaves alone.
   */
  method ClampWindow(start: int, end: Option<int>, current: Option<SchoolYear>, latest: Option<SchoolYear>)
    returns (r: Result<(int, Option<int>), string>)
    ensures r == Window(start, end, current, latest)
    ensures !Usable(current, start) && !Usable(latest, start) <==> r == Err(NoSchoolYear)
    ensures r.Ok? ==>
      var y := if Usable(current, start) then current.value else latest.value;
      var (s, e) := r.value;
      && s == (if start < YearStart(y) then YearStart(y) else start)
      && YearStart(y) <= s && (YearStart(y) <= YearEnd(y) ==> s <= YearEnd(y))
      && (e.Some? <==> end.Some?)
      && (e.Some? ==> e.value <= YearEnd(y))
      && (e.Some? && YearStart(y) <= YearEnd(y) ==> s <= e.value)
      && (e.Some? && s <= end.value ==> e.value == if end.value <= YearEnd(y) then end.value else YearEnd(y))
      && (e.Some? && s > end.value ==> e.value == Min(EndOfDay(DayOf(s) + 27), YearEnd(y)))
  {
    var year := current;
    if year.None? || start > YearEnd(year.value) {
      year := latest;
      if year.None? || start > YearEnd(year.value) {
        return Err(NoSchoolYear);
      }
    }
    var y := year.value;
    var s, e := start, end;
    if s < YearStart(y) {
      s := YearStart(y);
    }
    if e.Some? && s > e.value {
      e := Some(EndOfDay(DayOf(s) + 28 - 1));
    }
    if e.Some? && e.value > YearEnd(y) {
      e := Some(YearEnd(y));
    }
    r := Ok((s, e));
  }

  /** The window `ClampWindow` computes, as a value. */
  function Window(start: int, end: Option<int>, current: Option<SchoolYear>, latest: Option<SchoolYear>)
    : Result<(int, Option<int>), string>
  {
    if !Usable(current, start) && !Usable(latest, start) then Err(NoSchoolYear)
    else
      var y := if Usable(current, start) then current.value else latest.value;
      var s := if start < YearStart(y) then YearStart(y) else start;
      var e := if end.Some? && s > end.value then Some(EndOfDay(DayOf(s) + 28 - 1)) else end;
      Ok((s, if e.Some? && e.value > YearEnd(y) then Some(YearEnd(y)) else e))
  }

  function Min(a: int, b: int): int {
    if a <= b then a else b
  }

  /**
   * backend/index.js calls `fetchWebUntis` with `fullRefresh` in the place of
   * `start` and no `end`. The boolean compares as 0 or 1, so for any school year
   * starting after the first millisecond of 1970 the window is the year's first
   * midnight with `end` still `undefined`.
   */
  lemma BooleanStartQuirk(fullRefresh: bool, current: SchoolYear)
    requires YearStart(current) > 1 && current.endDate >= 1
    ensures var start := if fullRefresh then 1 else 0;
      Usable(Some(current), start) && start < YearStart(current)
  {
    MidnightAndEndOfDay(current.endDate);
  }

  // ---------------------------------------------------------------------------
  // News (`fetchNews` and the flattening in `fetchWebUntis`)

  datatype Message = Message(id: int, subject: string, text: string)
  datatype NewsDay = NewsDay(date: int, messages: seq<Message>)
  datatype NewsItem = NewsItem(message: Message, start: int, end: int)

  /**
   * `fetchNews(start, days)`: one entry per day `i < days`, dated at midnight of
   * `start`'s day plus `i`, with the messages of the day as `widget` answers;
   * `end` is the last millisecond of the last day.
   */
  method FetchNews(start: int, days: nat, widget: int -> seq<Message>) returns (end: int, data: seq<NewsDay>)
    ensures end == EndOfDay(DayOf(start) + days - 1)
    ensures |data| == days
    ensures forall i :: 0 <= i < days ==>
              data[i].date == Midnight(DayOf(start) + i) && data[i].messages == widget(data[i].date)
  {
    end := EndOfDay(DayOf(start) + days - 1);
    data := [];
    var i := 0;
    while i < days
      invariant 0 <= i <= days && |data| == i
      invariant forall k :: 0 <= k < i ==>
                  data[k].date == Midnight(DayOf(start) + k) && data[k].messages == widget(data[k].date)
    {
      var date := Midnight(DayOf(start) + i);
      data := data + [NewsDay(date, widget(date))];
      i := i + 1;
    }
  }

  /** The news days are consecutive midnights. */
  lemma NewsDaysConsecutive(start: int, data: seq<NewsDay>, i: int)
    requires forall k :: 0 <= k < |data| ==> data[k].date == Midnight(DayOf(start) + k)
    requires 0 <= i < |data| - 1
    ensures data[i + 1].date == data[i].date + MillisPerDay
    ensures forall k :: 0 <= k < |data| ==> DayOf(data[k].date) == DayOf(start) + k
  {
    forall k | 0 <= k < |data|
      ensures DayOf(data[k].date) == DayOf(start) + k
    {
      DayOfMidnight(DayOf(start) + k);
    }
  }

  lemma DayOfMidnight(day: int)
    ensures DayOf(Midnight(day)) == day
  {
  }

  function Flatten(data: seq<NewsDay>): seq<NewsItem> {
    if data == [] then [] else Flatten(data[..|data| - 1]) + Items(data[|data| - 1])
  }

  function Items(day: NewsDay): seq<NewsItem> {
    seq(|day.messages|, k requires 0 <= k < |day.messages| => NewsItem(day.messages[k], day.date, day.date))
  }

  /** The loop in `fetchWebUntis` that spreads every message with `start` and `end` set to its day. */
  method FlattenNews(data: seq<NewsDay>) returns (news: seq<NewsItem>)
    ensures news == Flatten(data)
  {
    news := [];
    var i := 0;
    while i < |data|
      invariant 0 <= i <= |data| && news == Flatten(data[..i])
    {
      var j := 0;
      while j < |data[i].messages|
        invariant 0 <= j <= |data[i].messages|
        invariant news == Flatten(data[..i]) + Items(data[i])[..j]
      {
        news := news + [NewsItem(data[i].messages[j], data[i].date, data[i].date)];
        j := j + 1;
      }
      assert Items(data[i])[..j] == Items(data[i]);
      assert data[..i + 1][..i] == data[..i];
      i := i + 1;
    }
    assert data[..i] == data;
  }

  /** Every flattened message starts and ends on its day, and none is lost or added. */
  lemma {:induction false} FlattenFacts(data: seq<NewsDay>)
    ensures forall k :: 0 <= k < |Flatten(data)| ==> Flatten(data)[k].start == Flatten(data)[k].end
    ensures |Flatten(data)| == MessageCount(data)
  {
    if data != [] {
      FlattenFacts(data[..|data| - 1]);
    }
  }

  function MessageCount(data: seq<NewsDay>): nat {
    if data == [] then 0 else MessageCount(data[..|data| - 1]) + |data[|data| - 1].messages|
  }

  // ---------------------------------------------------------------------------
  // Holidays (`fetchHolidays`)

  datatype RawHoliday = RawHoliday(id: int, longName: string, startDate: int, endDate: int)
  datatype Holiday = Holiday(id: int, name: string, start: int, end: int, days: string)

  /** `days <= 1 ? "1 day" : `${days} days``. */
  function DaysLabel(days: int): string {
    if days <= 1 then "1 day" else IntString(days) + " days"
  }

  lemma DaysLabelCases(days: int)
    ensures DaysLabel(days) == "1 day" <==> days <= 1
    ensures days > 1 ==> DaysLabel(days) == NatString(days) + " days"
  {
    if days > 1 {
      assert DaysLabel(days)[|DaysLabel(days)| - 4..] == "days";
    }
  }

  /**
   * One holiday: the end date is moved one day on, and the day count is the whole
   * number of days between start and that moved end, so an inclusive count.
   */
  function HolidayOf(h: RawHoliday): Holiday {
    var start := UntisDate(h.startDate);
    var end := UntisDate(h.endDate) + MillisPerDay;
    var days := (end - start) / MillisPerDay;
    Holiday(h.id, h.longName, start, end, DaysLabel(days))
  }

  /** A holiday from one day to itself counts as "1 day"; each further day adds one. */
  lemma HolidayDays(h: RawHoliday)
    ensures var n := DayOf(UntisDate(h.endDate)) - DayOf(UntisDate(h.startDate)) + 1;
      HolidayOf(h).days == DaysLabel(n) && HolidayOf(h).end == HolidayOf(h).start + n * MillisPerDay
  {
    var a := DaysFromCivil(h.startDate / 10000, (h.startDate / 100) % 100, h.startDate % 100);
    var b := DaysFromCivil(h.endDate / 10000, (h.endDate / 100) % 100, h.endDate % 100);
    var n := b - a + 1;
    DayOfMidnight(a);
    DayOfMidnight(b);
    var start, end := Midnight(a), Midnight(b) + MillisPerDay;
    assert end - start == Midnight(n);
    DayOfMidnight(n);
    assert HolidayOf(h).days == DaysLabel(n);
  }

  method FetchHolidays(raw: seq<RawHoliday>) returns (data: seq<Holiday>)
    ensures |data| == |raw|
    ensures forall i :: 0 <= i < |raw| ==> data[i] == HolidayOf(raw[i])
  {
    data := [];
    for i := 0 to |raw|
      invariant |data| == i
      invariant forall k :: 0 <= k < i ==> data[k] == HolidayOf(raw[k])
    {
      data := data + [HolidayOf(raw[i])];
    }
  }

  // ---------------------------------------------------------------------------
  // Master data (`fetchSubjects`, `fetchTeachers`, `fetchRooms`)

  datatype Subject = Subject(name: string, longName: string)
  datatype Teacher = Teacher(name: string, foreName: string, longName: string)
  datatype Room = Room(name: string, longName: string)

  /**
   * `data[x.id] = {...}` for each element in turn: every id seen is a key, and it
   * holds the entry of the last element with that id.
   */
  method IndexById<T>(items: seq<(int, T)>) returns (m: map<int, T>)
    ensures forall k :: k in m <==> exists i :: 0 <= i < |items| && items[i].0 == k
    ensures forall i :: 0 <= i < |items| && LastWithId(items, i) ==> m[items[i].0] == items[i].1
  {
    m := map[];
    for n := 0 to |items|
      invariant forall k :: k in m <==> exists i :: 0 <= i < n && items[i].0 == k
      invariant forall i :: 0 <= i < n && LastWithId(items[..n], i) ==> m[items[i].0] == items[i].1
    {
      m := m[items[n].0 := items[n].1];
      forall i | 0 <= i < n + 1 && LastWithId(items[..n + 1], i)
        ensures m[items[i].0] == items[i].1
      {
        if i < n {
          assert items[..n + 1][n] == items[n];
          assert LastWithId(items[..n], i) by {
            forall j | i < j < n ensures items[..n][j].0 != items[..n][i].0 {
              assert items[..n + 1][j] == items[..n][j];
            }
          }
        }
      }
    }
    assert items[..|items|] == items;
  }

  /** No later element shares the id of element `i`. */
  predicate LastWithId<T>(items: seq<(int, T)>, i: int)
    requires 0 <= i < |items|
  {
    forall j :: i < j < |items| ==> items[j].0 != items[i].0
  }

  datatype RawSubject = RawSubject(id: int, name: string, longName: string)
  datatype RawTeacher = RawTeacher(id: int, name: string, foreName: string, longName: string)
  datatype RawRoom = RawRoom(id: int, name: string, longName: string)

  function SubjectOf(r: RawSubject): Subject { Subject(r.name, r.longName) }
  function TeacherOf(r: RawTeacher): Teacher { Teacher(r.name, r.foreName, r.longName) }
  function RoomOf(r: RawRoom): Room { Room(r.name, r.longName) }

  method FetchSubjects(raw: seq<RawSubject>) returns (m: map<int, Subject>)
    ensures forall k :: k in m <==> exists i :: 0 <= i < |raw| && raw[i].id == k
    ensures forall i :: 0 <= i < |raw| && (forall j :: i < j < |raw| ==> raw[j].id != raw[i].id) ==>
              m[raw[i].id] == Subject(raw[i].name, raw[i].longName)
  {
    var items := seq(|raw|, i requires 0 <= i < |raw| => (raw[i].id, SubjectOf(raw[i])));
    m := IndexById(items);
    IndexedRaw(raw, (r: RawSubject) => r.id, SubjectOf, items, m);
  }

  method FetchTeachers(raw: seq<RawTeacher>) returns (m: map<int, Teacher>)
    ensures forall k :: k in m <==> exists i :: 0 <= i < |raw| && raw[i].id == k
    ensures forall i :: 0 <= i < |raw| && (forall j :: i < j < |raw| ==> raw[j].id != raw[i].id) ==>
              m[raw[i].id] == Teacher(raw[i].name, raw[i].foreName, raw[i].longName)
  {
    var items := seq(|raw|, i requires 0 <= i < |raw| => (raw[i].id, TeacherOf(raw[i])));
    m := IndexById(items);
    IndexedRaw(raw, (r: RawTeacher) => r.id, TeacherOf, items, m);
  }

  method FetchRooms(raw: seq<RawRoom>) returns (m: map<int, Room>)
    ensures forall k :: k in m <==> exists i :: 0 <= i < |raw| && raw[i].id == k
    ensures forall i :: 0 <= i < |raw| && (forall j :: i < j < |raw| ==> raw[j].id != raw[i].id) ==>
              m[raw[i].id] == Room(raw[i].name, raw[i].longName)
  {
    var items := seq(|raw|, i requires 0 <= i < |raw| => (raw[i].id, RoomOf(raw[i])));
    m := IndexById(items);
    IndexedRaw(raw, (r: RawRoom) => r.id, RoomOf, items, m);
  }

  /** What `IndexById` promises about the pairs, restated for the raw elements they come from. */
  lemma IndexedRaw<R, T>(raw: seq<R>, id: R -> int, entry: R -> T, items: seq<(int, T)>, m: map<int, T>)
    requires |items| == |raw| && forall i :: 0 <= i < |raw| ==> items[i] == (id(raw[i]), entry(raw[i]))
    requires forall k :: k in m <==> exists i :: 0 <= i < |items| && items[i].0 == k
    requires forall i :: 0 <= i < |items| && LastWithId(items, i) ==> m[items[i].0] == items[i].1
    ensures forall k :: k in m <==> exists i :: 0 <= i < |raw| && id(raw[i]) == k
    ensures forall i :: 0 <= i < |raw| && (forall j :: i < j < |raw| ==> id(raw[j]) != id(raw[i])) ==>
              m[id(raw[i])] == entry(raw[i])
  {
    forall i | 0 <= i < |raw| && (forall j :: i < j < |raw| ==> id(raw[j]) != id(raw[i]))
      ensures id(raw[i]) in m && m[id(raw[i])] == entry(raw[i])
    {
      assert LastWithId(items, i);
    }
    forall k ensures k in m <==> exists i :: 0 <= i < |raw| && id(raw[i]) == k {
      if k in m {
        var i :| 0 <= i < |items| && items[i].0 == k;
        assert id(raw[i]) == k;
      }
      if exists i :: 0 <= i < |raw| && id(raw[i]) == k {
        var i :| 0 <= i < |raw| && id(raw[i]) == k;
        assert items[i].0 == k;
      }
    }
  }

  // ---------------------------------------------------------------------------
  // Lesson details (`parseLessonDetails`)

  /** An `su`/`te`/`ro` entry; `orgid` is 0 when the entry has none (both are falsy). */
  datatype Ref = Ref(id: int, orgid: int)
  datatype Klass = Klass(name: string, longname: string)

  /** A timetable entry; a missing text field is the empty string, which is just as falsy. */
  datatype RawLesson = RawLesson(
    id: int, date: int, startTime: int, endTime: int, code: string,
    su: seq<Ref>, te: seq<Ref>, ro: seq<Ref>, kl: seq<Klass>,
    lsnumber: int, lstext: string, activityType: string, substText: string, info: string)

  datatype Details = Details(
    subjects: seq<Subject>, teachers: seq<Teacher>, rooms: seq<Room>,
    originalSubjects: seq<Subject>, originalTeachers: seq<Teacher>, originalRooms: seq<Room>,
    classes: seq<Klass>, cancelled: bool, irregular: bool, lessonNumber: int,
    lessonText: string, activityType: string, substitutionText: string, infoText: string)

  /** `refs.map(r => m[r.id]).filter(x => x !== undefined)`. */
  function Lookup<T>(refs: seq<Ref>, m: map<int, T>): seq<T> {
    if refs == [] then []
    else Lookup(refs[..|refs| - 1], m) + (var r := refs[|refs| - 1]; if r.id in m then [m[r.id]] else [])
  }

  /** The same for the `orgid` of the entries that have one. */
  function OrigLookup<T>(refs: seq<Ref>, m: map<int, T>): seq<T> {
    if refs == [] then [] else OrigLookup(refs[..|refs| - 1], m) + OrigOf(refs[|refs| - 1], m)
  }

  function OrigOf<T>(r: Ref, m: map<int, T>): seq<T> {
    if r.orgid != 0 && r.orgid in m then [m[r.orgid]] else []
  }

  predicate HasOrg(refs: seq<Ref>) {
    exists k :: 0 <= k < |refs| && refs[k].orgid != 0
  }

  function DetailsOf(l: RawLesson, subjects: map<int, Subject>, teachers: map<int, Teacher>, rooms: map<int, Room>): Details {
    Details(
      Lookup(l.su, subjects), Lookup(l.te, teachers), Lookup(l.ro, rooms),
      OrigLookup(l.su, subjects), OrigLookup(l.te, teachers), OrigLookup(l.ro, rooms),
      l.kl, l.code == "cancelled",
      l.code == "irregular" || HasOrg(l.su) || HasOrg(l.te) || HasOrg(l.ro),
      l.lsnumber, l.lstext, l.activityType, l.substText, l.info)
  }

  /** `[...a, ...b]` looks up as the lookups of `a` followed by those of `b`: order is kept. */
  lemma LookupAppend<T>(a: seq<Ref>, b: seq<Ref>, m: map<int, T>)
    ensures Lookup(a + b, m) == Lookup(a, m) + Lookup(b, m)
    ensures OrigLookup(a + b, m) == OrigLookup(a, m) + OrigLookup(b, m)
  {
    CurrentAppend(a, b, m);
    OriginalAppend(a, b, m);
  }

  lemma {:induction false} CurrentAppend<T>(a: seq<Ref>, b: seq<Ref>, m: map<int, T>)
    ensures Lookup(a + b, m) == Lookup(a, m) + Lookup(b, m)
    decreases |b|
  {
    if b == [] {
      assert a + b == a;
    } else {
      var c := a + b;
      CurrentAppend(a, b[..|b| - 1], m);
      assert c[..|c| - 1] == a + b[..|b| - 1];
      assert c[|c| - 1] == b[|b| - 1];
    }
  }

  lemma {:induction false} OriginalAppend<T>(a: seq<Ref>, b: seq<Ref>, m: map<int, T>)
    ensures OrigLookup(a + b, m) == OrigLookup(a, m) + OrigLookup(b, m)
    decreases |b|
  {
    if b == [] {
      assert a + b == a;
    } else {
      var c, r := a + b, b[|b| - 1];
      OriginalAppend(a, b[..|b| - 1], m);
      assert c[..|c| - 1] == a + b[..|b| - 1] && c[|c| - 1] == r;
      assert OrigLookup(c, m) == OrigLookup(a + b[..|b| - 1], m) + OrigOf(r, m);
      assert OrigLookup(b, m) == OrigLookup(b[..|b| - 1], m) + OrigOf(r, m);
    }
  }

  /**
   * The lookup keeps exactly the entries whose id is known: never longer than the
   * input, as long exactly when every id is known, and made of known entries only.
   */
  lemma {:induction false} LookupBounds<T>(refs: seq<Ref>, m: map<int, T>)
    ensures |Lookup(refs, m)| <= |refs| && |OrigLookup(refs, m)| <= |refs|
    ensures |Lookup(refs, m)| == |refs| <==> forall k :: 0 <= k < |refs| ==> refs[k].id in m
    ensures forall x :: x in Lookup(refs, m) ==> exists k :: 0 <= k < |refs| && refs[k].id in m && m[refs[k].id] == x
  {
    if refs != [] {
      var init := refs[..|refs| - 1];
      LookupBounds(init, m);
      forall x | x in Lookup(refs, m)
        ensures exists k :: 0 <= k < |refs| && refs[k].id in m && m[refs[k].id] == x
      {
        if x in Lookup(init, m) {
          var k :| 0 <= k < |init| && init[k].id in m && m[init[k].id] == x;
          assert refs[k] == init[k];
        }
      }
      if |Lookup(refs, m)| == |refs| {
        forall k | 0 <= k < |refs| ensures refs[k].id in m {
          if k < |init| {
            assert refs[k] == init[k];
          }
        }
      }
      if forall k :: 0 <= k < |refs| ==> refs[k].id in m {
        assert forall k :: 0 <= k < |init| ==> init[k] == refs[k];
      }
    }
  }

  /**
   * One of the loops of `parseLessonDetails`: push the lookup of each id, and of each
   * `orgid` that is set, and report whether one was. `undefined` lookups are pushed
   * and filtered out afterwards.
   */
  method CollectRefs<T>(refs: seq<Ref>, m: map<int, T>) returns (current: seq<T>, original: seq<T>, anyOrg: bool)
    ensures current == Lookup(refs, m) && original == OrigLookup(refs, m)
    ensures anyOrg <==> HasOrg(refs)
  {
    var cur: seq<Option<T>> := [];
    var org: seq<Option<T>> := [];
    anyOrg := false;
    for k := 0 to |refs|
      invariant Somes(cur) == Lookup(refs[..k], m) && Somes(org) == OrigLookup(refs[..k], m)
      invariant anyOrg <==> exists j :: 0 <= j < k && refs[j].orgid != 0
    {
      var r := refs[k];
      SomesSnoc(cur, if r.id in m then Some(m[r.id]) else None);
      cur := cur + [if r.id in m then Some(m[r.id]) else None];
      if r.orgid != 0 {
        SomesSnoc(org, if r.orgid in m then Some(m[r.orgid]) else None);
        org := org + [if r.orgid in m then Some(m[r.orgid]) else None];
        anyOrg := true;
      }
      LookupStep(refs, k, m);
    }
    assert refs[..|refs|] == refs;
    current, original := Somes(cur), Somes(org);
  }

  lemma LookupStep<T>(refs: seq<Ref>, k: nat, m: map<int, T>)
    requires k < |refs|
    ensures Lookup(refs[..k + 1], m) == Lookup(refs[..k], m) + (if refs[k].id in m then [m[refs[k].id]] else [])
    ensures OrigLookup(refs[..k + 1], m) == OrigLookup(refs[..k], m) + OrigOf(refs[k], m)
  {
    assert refs[..k + 1][..k] == refs[..k];
  }

  lemma SomesSnoc<T>(s: seq<Option<T>>, x: Option<T>)
    ensures Somes(s + [x]) == Somes(s) + (if x.Some? then [x.value] else [])
  {
    assert (s + [x])[..|s|] == s;
  }

  /** `.filter(item => item !== undefined)`. */
  function Somes<T>(s: seq<Option<T>>): seq<T> {
    if s == [] then [] else Somes(s[..|s| - 1]) + (if s[|s| - 1].Some? then [s[|s| - 1].value] else [])
  }

  /**
   * `parseLessonDetails`: the lookups of subjects, teachers and rooms with unknown
   * ids dropped, in order; `cancelled` exactly for code "cancelled"; `irregular`
   * exactly for code "irregular" or when some entry names an original; text fields
   * default to "" (already so in the input).
   */
  method ParseLessonDetails(l: RawLesson, subjects: map<int, Subject>, teachers: map<int, Teacher>, rooms: map<int, Room>)
    returns (d: Details)
    ensures d == DetailsOf(l, subjects, teachers, rooms)
    ensures d.cancelled <==> l.code == "cancelled"
    ensures d.irregular <==> l.code == "irregular" || HasOrg(l.su) || HasOrg(l.te) || HasOrg(l.ro)
    ensures d.subjects == Lookup(l.su, subjects) && d.originalSubjects == OrigLookup(l.su, subjects)
    ensures d.teachers == Lookup(l.te, teachers) && d.originalTeachers == OrigLookup(l.te, teachers)
    ensures d.rooms == Lookup(l.ro, rooms) && d.originalRooms == OrigLookup(l.ro, rooms)
  {
    var irregular := l.code == "irregular";
    var su, osu, a := CollectRefs(l.su, subjects);
    irregular := irregular || a;
    var te, ote, b := CollectRefs(l.te, teachers);
    irregular := irregular || b;
    var ro, oro, c := CollectRefs(l.ro, rooms);
    irregular := irregular || c;
    d := Details(su, te, ro, osu, ote, oro, l.kl, l.code == "cancelled", irregular,
                 l.lsnumber, l.lstext, l.activityType, l.substText, l.info);
  }

  // ---------------------------------------------------------------------------
  // Lessons (`generateLessons`)

  datatype Homework = Homework(lessonId: int, date: int, dueDate: int, text: string)
  datatype HomeworkLesson = HomeworkLesson(id: int, subject: string)
  datatype Exam = Exam(examDate: int, startTime: int, endTime: int, subject: string,
                       examType: string, name: string, text: string)

  /** `data` as `fetchWebUntis` returns it, minus holidays and news. */
  datatype Data = Data(
    timetable: seq<RawLesson>,
    subjects: map<int, Subject>, teachers: map<int, Teacher>, rooms: map<int, Room>,
    homeworks: seq<Homework>, homeworkLessons: seq<HomeworkLesson>, exams: seq<Exam>)

  /**
   * A generated lesson: `{id, start, end, ...details, newHomework, ...}`. The object
   * has no `substText` property (the details call it `substitutionText`), so
   * `substText` is `None` for every lesson built here.
   */
  datatype Lesson = Lesson(
    id: int, start: int, end: int, details: Details, substText: Option<string>,
    newHomework: string, dueHomework: string, examType: string, examName: string, examText: string)

  function Parse(l: RawLesson, data: Data): Details {
    DetailsOf(l, data.subjects, data.teachers, data.rooms)
  }

  /** `e` continues `l`: same date, starting when `l` ends, with identical details. */
  predicate Continues(l: RawLesson, d: Details, e: RawLesson, data: Data) {
    l.date == e.date && l.endTime == e.startTime && d == Parse(e, data)
  }

  /** The first entry from index `from` on that continues `l`. */
  function FirstContinuation(tt: seq<RawLesson>, from: nat, l: RawLesson, d: Details, data: Data): (r: Option<nat>)
    ensures r.Some? ==> from <= r.value < |tt| && Continues(l, d, tt[r.value], data)
    ensures r.Some? ==> forall k :: from <= k < r.value ==> !Continues(l, d, tt[k], data)
    ensures r.None? ==> forall k :: from <= k < |tt| ==> !Continues(l, d, tt[k], data)
    decreases |tt| - from
  {
    if from >= |tt| then None
    else if Continues(l, d, tt[from], data) then Some(from)
    else FirstContinuation(tt, from + 1, l, d, data)
  }

  /** The inner loop over `data.timetable` that stops at the first continuation. */
  method FindExtension(l: RawLesson, d: Details, data: Data) returns (ext: Option<nat>)
    requires d == Parse(l, data)
    ensures ext == FirstContinuation(data.timetable, 0, l, d, data)
  {
    var tt := data.timetable;
    var j := 0;
    while j < |tt|
      invariant 0 <= j <= |tt|
      invariant FirstContinuation(tt, 0, l, d, data) == FirstContinuation(tt, j, l, d, data)
    {
      var e := tt[j];
      var ed := ParseLessonDetails(e, data.subjects, data.teachers, data.rooms);
      if l.date == e.date && l.endTime == e.startTime && d == ed {
        return Some(j);
      }
      j := j + 1;
    }
    return None;
  }

  /** Some homework lesson linked to `h` has a subject whose `longName` is one of `subjects`. */
  predicate Hits(h: Homework, links: seq<HomeworkLesson>, subjects: seq<Subject>) {
    exists i, k :: 0 <= i < |links| && 0 <= k < |subjects|
      && h.lessonId == links[i].id && subjects[k].longName == links[i].subject
  }

  predicate HomeworkMatches(h: Homework, due: bool, date: int, links: seq<HomeworkLesson>, subjects: seq<Subject>) {
    (if due then h.dueDate else h.date) == date && Hits(h, links, subjects)
  }

  /** The text of the last matching homework, "" when none matches. */
  function LastHomework(hws: seq<Homework>, due: bool, date: int, links: seq<HomeworkLesson>, subjects: seq<Subject>): string {
    if hws == [] then ""
    else if HomeworkMatches(hws[|hws| - 1], due, date, links, subjects) then hws[|hws| - 1].text
    else LastHomework(hws[..|hws| - 1], due, date, links, subjects)
  }

  /** Homework `k` matches and no later one does. */
  predicate LastHomeworkMatch(hws: seq<Homework>, k: int, due: bool, date: int, links: seq<HomeworkLesson>, subjects: seq<Subject>) {
    && 0 <= k < |hws|
    && HomeworkMatches(hws[k], due, date, links, subjects)
    && forall j :: k < j < |hws| ==> !HomeworkMatches(hws[j], due, date, links, subjects)
  }

  /** Last match wins: the text of the last matching homework, else "". */
  lemma LastHomeworkWins(hws: seq<Homework>, due: bool, date: int, links: seq<HomeworkLesson>, subjects: seq<Subject>)
    ensures (forall k :: 0 <= k < |hws| ==> !HomeworkMatches(hws[k], due, date, links, subjects)) ==>
              LastHomework(hws, due, date, links, subjects) == ""
    ensures forall k :: LastHomeworkMatch(hws, k, due, date, links, subjects) ==>
              LastHomework(hws, due, date, links, subjects) == hws[k].text
  {
    NoHomeworkMatches(hws, due, date, links, subjects);
    forall k | LastHomeworkMatch(hws, k, due, date, links, subjects)
      ensures LastHomework(hws, due, date, links, subjects) == hws[k].text
    {
      LastHomeworkAt(hws, k, due, date, links, subjects);
    }
  }

  lemma {:induction false} NoHomeworkMatches(hws: seq<Homework>, due: bool, date: int, links: seq<HomeworkLesson>, subjects: seq<Subject>)
    ensures (forall k :: 0 <= k < |hws| ==> !HomeworkMatches(hws[k], due, date, links, subjects)) ==>
              LastHomework(hws, due, date, links, subjects) == ""
  {
    if hws != [] {
      var init := hws[..|hws| - 1];
      assert forall k :: 0 <= k < |init| ==> init[k] == hws[k];
      NoHomeworkMatches(init, due, date, links, subjects);
    }
  }

  lemma {:induction false} LastHomeworkAt(hws: seq<Homework>, k: int, due: bool, date: int, links: seq<HomeworkLesson>, subjects: seq<Subject>)
    requires LastHomeworkMatch(hws, k, due, date, links, subjects)
    ensures LastHomework(hws, due, date, links, subjects) == hws[k].text
  {
    if k < |hws| - 1 {
      var init := hws[..|hws| - 1];
      assert !HomeworkMatches(hws[|hws| - 1], due, date, links, subjects);
      assert forall j :: 0 <= j < |init| ==> init[j] == hws[j];
      assert LastHomeworkMatch(init, k, due, date, links, subjects);
      LastHomeworkAt(init, k, due, date, links, subjects);
    }
  }

  /** Some link among the first `n` names `h`'s lesson with one of the subjects. */
  predicate HitsUpTo(h: Homework, links: seq<HomeworkLesson>, n: int, subjects: seq<Subject>)
    requires 0 <= n <= |links|
  {
    exists i, k :: 0 <= i < n && 0 <= k < |subjects| && h.lessonId == links[i].id && subjects[k].longName == links[i].subject
  }

  predicate SubjectAmong(name: string, subjects: seq<Subject>, n: int)
    requires 0 <= n <= |subjects|
  {
    exists k :: 0 <= k < n && subjects[k].longName == name
  }

  /** The two inner loops over the homework lessons and the lesson's subjects. */
  method HitsLoop(h: Homework, links: seq<HomeworkLesson>, subjects: seq<Subject>) returns (hit: bool)
    ensures hit == Hits(h, links, subjects)
  {
    hit := false;
    for i := 0 to |links|
      invariant hit == HitsUpTo(h, links, i, subjects)
    {
      if h.lessonId == links[i].id {
        for k := 0 to |subjects|
          invariant hit == (HitsUpTo(h, links, i, subjects) || SubjectAmong(links[i].subject, subjects, k))
        {
          if subjects[k].longName == links[i].subject {
            hit := true;
          }
        }
      }
      assert HitsUpTo(h, links, i + 1, subjects) <==>
        HitsUpTo(h, links, i, subjects) || (h.lessonId == links[i].id && SubjectAmong(links[i].subject, subjects, |subjects|));
    }
  }

  /** The homework loop: `newHomework` and `dueHomework` take the last matching text. */
  method HomeworkFor(l: RawLesson, d: Details, data: Data) returns (newHomework: string, dueHomework: string)
    ensures newHomework == LastHomework(data.homeworks, false, l.date, data.homeworkLessons, d.subjects)
    ensures dueHomework == LastHomework(data.homeworks, true, l.date, data.homeworkLessons, d.subjects)
  {
    var hws := data.homeworks;
    newHomework, dueHomework := "", "";
    for n := 0 to |hws|
      invariant newHomework == LastHomework(hws[..n], false, l.date, data.homeworkLessons, d.subjects)
      invariant dueHomework == LastHomework(hws[..n], true, l.date, data.homeworkLessons, d.subjects)
    {
      var h := hws[n];
      assert hws[..n + 1][..n] == hws[..n];
      if h.date == l.date {
        var hit := HitsLoop(h, data.homeworkLessons, d.subjects);
        if hit {
          newHomework := h.text;
        }
      }
      if h.dueDate == l.date {
        var hit := HitsLoop(h, data.homeworkLessons, d.subjects);
        if hit {
          dueHomework := h.text;
        }
      }
    }
    assert hws[..|hws|] == hws;
  }

  /** The exam overlaps `[start, end)` and is about one of the lesson's current or original subjects. */
  predicate ExamMatches(x: Exam, start: int, end: int, d: Details) {
    var date := UntisDate(x.examDate);
    var xs := UntisTime(x.startTime, date);
    var xe := UntisTime(x.endTime, date);
    && ((start >= xs && start < xe) || (end > xs && end <= xe))
    && ((exists s :: s in d.subjects && (s.name == x.subject || s.longName == x.subject))
        || (exists s :: s in d.originalSubjects && (s.name == x.subject || s.longName == x.subject)))
  }

  /** Type, name and text of the last matching exam; empty when none matches. */
  function LastExam(exams: seq<Exam>, start: int, end: int, d: Details): (string, string, string) {
    if exams == [] then ("", "", "")
    else
      var x := exams[|exams| - 1];
      if ExamMatches(x, start, end, d) then (x.examType, x.name, x.text)
      else LastExam(exams[..|exams| - 1], start, end, d)
  }

  predicate LastExamMatch(exams: seq<Exam>, k: int, start: int, end: int, d: Details) {
    && 0 <= k < |exams|
    && ExamMatches(exams[k], start, end, d)
    && forall j :: k < j < |exams| ==> !ExamMatches(exams[j], start, end, d)
  }

  /** Last match wins: the fields of the last matching exam, else empty strings. */
  lemma LastExamWins(exams: seq<Exam>, start: int, end: int, d: Details)
    ensures (forall k :: 0 <= k < |exams| ==> !ExamMatches(exams[k], start, end, d)) ==>
              LastExam(exams, start, end, d) == ("", "", "")
    ensures forall k :: LastExamMatch(exams, k, start, end, d) ==>
              LastExam(exams, start, end, d) == (exams[k].examType, exams[k].name, exams[k].text)
  {
    NoExamMatches(exams, start, end, d);
    forall k | LastExamMatch(exams, k, start, end, d)
      ensures LastExam(exams, start, end, d) == (exams[k].examType, exams[k].name, exams[k].text)
    {
      LastExamAt(exams, k, start, end, d);
    }
  }

  lemma {:induction false} NoExamMatches(exams: seq<Exam>, start: int, end: int, d: Details)
    ensures (forall k :: 0 <= k < |exams| ==> !ExamMatches(exams[k], start, end, d)) ==>
              LastExam(exams, start, end, d) == ("", "", "")
  {
    if exams != [] {
      var init := exams[..|exams| - 1];
      assert forall k :: 0 <= k < |init| ==> init[k] == exams[k];
      NoExamMatches(init, start, end, d);
    }
  }

  lemma {:induction false} LastExamAt(exams: seq<Exam>, k: int, start: int, end: int, d: Details)
    requires LastExamMatch(exams, k, start, end, d)
    ensures LastExam(exams, start, end, d) == (exams[k].examType, exams[k].name, exams[k].text)
  {
    if k < |exams| - 1 {
      var init := exams[..|exams| - 1];
      assert !ExamMatches(exams[|exams| - 1], start, end, d);
      assert forall j :: 0 <= j < |init| ==> init[j] == exams[j];
      assert LastExamMatch(init, k, start, end, d);
      LastExamAt(init, k, start, end, d);
    }
  }

  method ExamFor(start: int, end: int, d: Details, exams: seq<Exam>) returns (r: (string, string, string))
    ensures r == LastExam(exams, start, end, d)
  {
    r := ("", "", "");
    for n := 0 to |exams|
      invariant r == LastExam(exams[..n], start, end, d)
    {
      var x := exams[n];
      assert exams[..n + 1][..n] == exams[..n];
      var date := UntisDate(x.examDate);
      var xs := UntisTime(x.startTime, date);
      var xe := UntisTime(x.endTime, date);
      var subjectHit := exists s :: s in d.subjects && (s.name == x.subject || s.longName == x.subject);
      var originalHit := exists s :: s in d.originalSubjects && (s.name == x.subject || s.longName == x.subject);
      if ((start >= xs && start < xe) || (end > xs && end <= xe)) && (subjectHit || originalHit) {
        r := (x.examType, x.name, x.text);
      }
    }
    assert exams[..|exams|] == exams;
  }

  /** The lesson generated for timetable entry `l`, with the continuation it absorbs. */
  function LessonOf(l: RawLesson, data: Data): (Lesson, Option<int>) {
    var d := Parse(l, data);
    var date := UntisDate(l.date);
    var start := UntisTime(l.startTime, date);
    var ext := FirstContinuation(data.timetable, 0, l, d, data);
    var end := if ext.Some? then UntisTime(data.timetable[ext.value].endTime, date) else UntisTime(l.endTime, date);
    var (examType, examName, examText) := LastExam(data.exams, start, end, d);
    (Lesson(l.id, start, end, d, None,
            LastHomework(data.homeworks, false, l.date, data.homeworkLessons, d.subjects),
            LastHomework(data.homeworks, true, l.date, data.homeworkLessons, d.subjects),
            examType, examName, examText),
     if ext.Some? then Some(data.timetable[ext.value].id) else None)
  }

  /** `lessons` and `extensions` after the first `n` timetable entries. */
  function Generated(data: Data, n: nat): (seq<Lesson>, seq<int>)
    requires n <= |data.timetable|
  {
    if n == 0 then ([], [])
    else
      var (lessons, extensions) := Generated(data, n - 1);
      var l := data.timetable[n - 1];
      if l.id in extensions then (lessons, extensions)
      else
        var (lesson, ext) := LessonOf(l, data);
        (lessons + [lesson], if ext.Some? then extensions + [ext.value] else extensions)
  }

  /**
   * `generateLessons`: entries whose id an earlier lesson absorbed are skipped;
   * every other entry becomes one lesson, ending where its first continuation ends.
   */
  method GenerateLessons(data: Data) returns (lessons: seq<Lesson>)
    ensures lessons == Generated(data, |data.timetable|).0
  {
    lessons := [];
    var extensions: seq<int> := [];
    var tt := data.timetable;
    for i := 0 to |tt|
      invariant (lessons, extensions) == Generated(data, i)
    {
      var l := tt[i];
      if l.id in extensions {
        continue;
      }
      var date := UntisDate(l.date);
      var start := UntisTime(l.startTime, date);
      var end := UntisTime(l.endTime, date);
      var d := ParseLessonDetails(l, data.subjects, data.teachers, data.rooms);
      var ext := FindExtension(l, d, data);
      if ext.Some? {
        end := UntisTime(tt[ext.value].endTime, date);
        extensions := extensions + [tt[ext.value].id];
      }
      var newHomework, dueHomework := HomeworkFor(l, d, data);
      var exam := ExamFor(start, end, d, data.exams);
      lessons := lessons + [Lesson(l.id, start, end, d, None, newHomework, dueHomework, exam.0, exam.1, exam.2)];
    }
  }

  /**
   * Never more lessons than entries, never more absorbed ids than lessons (each
   * lesson absorbs at most one), every lesson is an entry's and carries no `substText`.
   */
  lemma {:induction false} GeneratedBounds(data: Data, n: nat)
    requires n <= |data.timetable|
    ensures |Generated(data, n).0| <= n
    ensures |Generated(data, n).1| <= |Generated(data, n).0|
    ensures forall k :: 0 <= k < |Generated(data, n).0| ==>
              Generated(data, n).0[k].substText == None
              && exists j :: 0 <= j < n && data.timetable[j].id == Generated(data, n).0[k].id
  {
    if n > 0 {
      GeneratedBounds(data, n - 1);
      var prev := Generated(data, n - 1).0;
      var cur := Generated(data, n).0;
      forall k | 0 <= k < |cur|
        ensures cur[k].substText == None && exists j :: 0 <= j < n && data.timetable[j].id == cur[k].id
      {
        if k < |prev| {
          assert cur[k] == prev[k];
          var j :| 0 <= j < n - 1 && data.timetable[j].id == prev[k].id;
        } else {
          assert data.timetable[n - 1].id == cur[k].id;
        }
      }
    }
  }

  /** An entry whose id was absorbed adds nothing; any other adds exactly its lesson. */
  lemma GeneratedStep(data: Data, n: nat)
    requires n < |data.timetable|
    ensures var (lessons, extensions) := Generated(data, n);
      var l := data.timetable[n];
      if l.id in extensions then Generated(data, n + 1) == Generated(data, n)
      else Generated(data, n + 1).0 == lessons + [LessonOf(l, data).0]
  {
  }

  /** A lesson that absorbs a continuation ends where that continuation ends. */
  lemma ExtendedEnd(l: RawLesson, data: Data)
    ensures var ext := FirstContinuation(data.timetable, 0, l, Parse(l, data), data);
      ext.Some? ==>
        && LessonOf(l, data).1 == Some(data.timetable[ext.value].id)
        && LessonOf(l, data).0.end == UntisTime(data.timetable[ext.value].endTime, UntisDate(l.date))
        && data.timetable[ext.value].startTime == l.endTime
        && Parse(data.timetable[ext.value], data) == Parse(l, data)
  {
  }

  // ---------------------------------------------------------------------------
  // The whole fetch (`fetchWebUntis`)

  /** The `start` argument: a date (ms), or the boolean backend/index.js passes there. */
  datatype StartArg = StartDate(t: int) | StartFlag(flag: bool)

  /** The number a comparison sees: a boolean compares as 0 or 1. */
  function StartNumber(a: StartArg): int {
    match a
    case StartDate(t) => t
    case StartFlag(b) => if b then 1 else 0
  }

  /** The answers of `fetchHolidays` and of the timetable, homework, exam, subject, teacher and room calls. */
  datatype Answers = Answers(holidays: seq<RawHoliday>, data: Data)

  /**
   * What the WebUntis server answers. A flag that is `false`, and `answers ==
   * None`, stand for calls that throw; `current` or `latest` being `None` is a
   * null school year in an answer that did not throw.
   */
  datatype Server = Server(
    loginOk: bool,                 // `login`
    currentOk: bool,               // `getCurrentSchoolyear` answers
    current: Option<SchoolYear>,   // its school year
    latestOk: bool,                // `getLatestSchoolyear` answers
    latest: Option<SchoolYear>,    // its school year
    newsOk: bool,                  // every `getNewsWidget` call
    widget: int -> seq<Message>,   // its `messagesOfDay` for each date
    answers: Option<Answers>)      // the calls after the news

  /** What `fetchWebUntis` returns on success: the window, `data` with its flat `news`, and `newsEnd`. */
  datatype Fetched = Fetched(start: int, end: int, holidays: seq<Holiday>, news: seq<NewsItem>, data: Data, newsEnd: int)

  const FetchFailure := "Failed to fetch WebUntis data: Please check your credentials!"

  /** The number of news days `fetchWebUntis` asks for. */
  const NewsSpan := 14

  /** The days `FetchNews` returns, as a value. */
  function NewsDays(start: int, days: nat, widget: int -> seq<Message>): seq<NewsDay> {
    seq(days, i => NewsDay(Midnight(DayOf(start) + i), widget(Midnight(DayOf(start) + i))))
  }

  function Holidays(raw: seq<RawHoliday>): seq<Holiday> {
    seq(|raw|, i requires 0 <= i < |raw| => HolidayOf(raw[i]))
  }

  /**
   * `fetchWebUntis` as a value. Every throw inside its `try` ends in the one
   * credentials message: a failed login or server call (the latest school year
   * is only asked for when the current one is null or ends before `start`),
   * `start.getFullYear()` in
   * `fetchNews` on a `start` that is still a boolean (it was not raised to the
   * school year's first midnight), and `formatToLocalISO(end)` in
   * `fetchTimetable` on an `end` that is still `undefined`.
   */
  function FetchOutcome(start: StartArg, end: Option<int>, server: Server): Result<Fetched, string> {
    if !server.loginOk || !server.currentOk then Err(FetchFailure)
    else if !Usable(server.current, StartNumber(start)) && !server.latestOk then Err(FetchFailure)
    else
      match Window(StartNumber(start), end, server.current, server.latest)
      case Err(m) => Err(m)
      case Ok((s, e)) =>
        if (start.StartFlag? && s == StartNumber(start)) || !server.newsOk then Err(FetchFailure)
        else if e.None? || server.answers.None? then Err(FetchFailure)
        else
          Ok(Fetched(s, e.value, Holidays(server.answers.value.holidays),
                     Flatten(NewsDays(s, NewsSpan, server.widget)), server.answers.value.data,
                     EndOfDay(DayOf(s) + NewsSpan - 1)))
  }

  /**
   * `fetchWebUntis`: log in, clamp the window to a school year, fetch fourteen
   * news days from `start` and flatten them, then fetch the rest. It only ever
   * fails with the school-year or the credentials message, and it returns data
   * only when it was given an `end`.
   */
  method FetchWebUntis(start: StartArg, end: Option<int>, server: Server) returns (r: Result<Fetched, string>)
    ensures r == FetchOutcome(start, end, server)
    ensures r.Err? ==> r.error == NoSchoolYear || r.error == FetchFailure
    ensures r.Ok? ==> end.Some? && |r.value.news| == MessageCount(NewsDays(r.value.start, NewsSpan, server.widget))
  {
    if !server.loginOk || !server.currentOk {
      return Err(FetchFailure);
    }
    if !Usable(server.current, StartNumber(start)) && !server.latestOk {
      return Err(FetchFailure);
    }
    var w := ClampWindow(StartNumber(start), end, server.current, server.latest);
    if w.Err? {
      return Err(w.error);
    }
    var (s, e) := w.value;
    if (start.StartFlag? && s == StartNumber(start)) || !server.newsOk {
      return Err(FetchFailure);
    }
    var newsEnd, newsData := FetchNews(s, NewsSpan, server.widget);
    assert newsData == NewsDays(s, NewsSpan, server.widget);
    var news := FlattenNews(newsData);
    FlattenFacts(newsData);
    if e.None? || server.answers.None? {
      return Err(FetchFailure);
    }
    var holidays := FetchHolidays(server.answers.value.holidays);
    assert holidays == Holidays(server.answers.value.holidays);
    r := Ok(Fetched(s, e.value, holidays, news, server.answers.value.data, newsEnd));
  }

  /**
   * As backend/index.js calls it, with `fullRefresh` for `start` and no `end`,
   * the fetch never returns data: at best the window is raised to a date, and
   * then the timetable call throws on the `undefined` end.
   */
  lemma FetchAsCalledFails(fullRefresh: bool, server: Server)
    ensures var r := FetchOutcome(StartFlag(fullRefresh), None, server);
      r.Err? && (r.error == NoSchoolYear || r.error == FetchFailure)
  {
  }

  /**
   * Given a date and an end, the fetch returns data exactly when the server
   * answers every call and a school year reaching `start` exists; the window then
   * lies in that year and the news are the flattened fourteen days from its start.
   */
  lemma FetchInWindow(start: int, end: int, server: Server)
    ensures var r := FetchOutcome(StartDate(start), Some(end), server);
      (r.Ok? <==> server.loginOk && server.currentOk
                  && (Usable(server.current, start) || (server.latestOk && Usable(server.latest, start)))
                  && server.newsOk && server.answers.Some?)
      && (r.Ok? ==>
            var y := if Usable(server.current, start) then server.current.value else server.latest.value;
            YearStart(y) <= r.value.start && r.value.end <= YearEnd(y)
            && r.value.news == Flatten(NewsDays(r.value.start, NewsSpan, server.widget)))
  {
  }
}
