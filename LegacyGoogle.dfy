/**
 * The first uploader, google.js: the same event templates as backend/google.js,
 * but `generateFields` puts the rooms into `location` and the class names into the
 * title, and every event is uploaded in turn, awaiting each `uploadEvent` before
 * the next, with a first `timeOut` of 1.
 */
module LegacyGoogle {
  import opened Maybe
  import opened Strings
  import opened EventIds
  import opened Calendar
  import opened Untis
  import opened Google

  // ---------------------------------------------------------------------------
  // `generateFields`

  /** `` ` <${originals.join(', ')}>` `` when there are originals: always one space before. */
  function WithOriginalsAfterSpace(a: string, originals: seq<string>, open: string, close: string): string {
    if |originals| > 0 then a + (open + Commas(originals) + close) else a
  }

  function LegacySubjects(a: string, d: Details): string {
    WithOriginalsAfterSpace(a + Commas(SubjectNames(d.subjects)), SubjectNames(d.originalSubjects), " <", ">")
  }

  function LegacyTeachers(a: string, d: Details): string {
    WithOriginalsAfterSpace(a + " | " + Commas(TeacherNames(d.teachers)), TeacherNames(d.originalTeachers), " <", ">")
  }

  /** Marks, subjects, ` | `, teachers, ` | `, class names. */
  function LegacyTitle(l: Lesson): string {
    LegacyTeachers(LegacySubjects(Marks(l), l.details), l.details) + " | " + Commas(ClassNames(l.details.classes))
  }

  function LegacyNames(a: string, d: Details): string {
    var subjects := WithOriginalsAfterSpace(a + ("<b>" + Commas(SubjectLongNames(d.subjects))),
                                            SubjectLongNames(d.originalSubjects), " &lt;", "&gt;");
    var teachers := WithOriginalsAfterSpace(subjects + "</b>\n" + Commas(TeacherFullNames(d.teachers)),
                                            TeacherFullNames(d.originalTeachers), " &lt;", "&gt;");
    var classes := teachers + "\n" + (Commas(ClassLongNames(d.classes)) + "\n");
    WithOriginalsAfterSpace(classes + Commas(RoomLongNames(d.rooms)), RoomLongNames(d.originalRooms), " &lt;", "&gt;")
  }

  function LegacyDescription(l: Lesson): string {
    LegacyNames(WithHomework(WithInformation(WithExam(StatusBlock(l), l), l), l), l.details)
  }

  /** The room names, then the original rooms in angle brackets. */
  function LegacyLocation(d: Details): string {
    WithOriginalsAfterSpace(Commas(RoomNames(d.rooms)), RoomNames(d.originalRooms), " <", ">")
  }

  /** `generateFields` of google.js. */
  method LegacyGenerateFields(l: Lesson) returns (f: Fields)
    ensures f.summary == Some(LegacyTitle(l)) && f.description == Some(LegacyDescription(l))
    ensures f.location == Some(LegacyLocation(l.details)) && f.start.None? && f.end.None?
    ensures f.colorId == Color(l)
    ensures f.transparency == (if l.details.cancelled then Some("transparent") else None)
  {
    var d := l.details;
    var title, description, color, transparency := MarkLesson(l);
    ghost var t0, d0 := title, description;

    title := title + Commas(SubjectNames(d.subjects));
    if |d.originalSubjects| > 0 {
      title := title + (" <" + Commas(SubjectNames(d.originalSubjects)) + ">");
    }
    assert title == LegacySubjects(t0, d);
    ghost var t1 := title;
    title := title + " | ";
    title := title + Commas(TeacherNames(d.teachers));
    if |d.originalTeachers| > 0 {
      title := title + (" <" + Commas(TeacherNames(d.originalTeachers)) + ">");
    }
    assert title == LegacyTeachers(t1, d);
    title := title + " | ";
    title := title + Commas(ClassNames(d.classes));

    description := AppendLegacyNames(description, d);

    var location := Commas(RoomNames(d.rooms));
    if |d.originalRooms| > 0 {
      location := location + (" <" + Commas(RoomNames(d.originalRooms)) + ">");
    }

    f := Fields(Some(title), Some(description), Some(location),
                if transparency == "transparent" then Some(transparency) else None,
                color, None, None);
  }

  /** The name lines of the description: subjects, teachers, classes, rooms. */
  method AppendLegacyNames(d0: string, d: Details) returns (description: string)
    ensures description == LegacyNames(d0, d)
  {
    description := d0;
    description := description + ("<b>" + Commas(SubjectLongNames(d.subjects)));
    if |d.originalSubjects| > 0 {
      description := description + (" &lt;" + Commas(SubjectLongNames(d.originalSubjects)) + "&gt;");
    }
    ghost var d1 := description;
    description := description + "</b>\n";
    description := description + Commas(TeacherFullNames(d.teachers));
    if |d.originalTeachers| > 0 {
      description := description + (" &lt;" + Commas(TeacherFullNames(d.originalTeachers)) + "&gt;");
    }
    assert description == WithOriginalsAfterSpace(d1 + "</b>\n" + Commas(TeacherFullNames(d.teachers)),
                                                  TeacherFullNames(d.originalTeachers), " &lt;", "&gt;");
    description := description + "\n";
    description := description + (Commas(ClassLongNames(d.classes)) + "\n");
    description := description + Commas(RoomLongNames(d.rooms));
    if |d.originalRooms| > 0 {
      description := description + (" &lt;" + Commas(RoomLongNames(d.originalRooms)) + "&gt;");
    }
  }

  lemma WithOriginalsAfterSpaceExtends(a: string, originals: seq<string>, open: string, close: string)
    ensures Extends(a, WithOriginalsAfterSpace(a, originals, open, close))
  {
    if |originals| > 0 {
      ExtendsAppend(a, a, open + Commas(originals) + close);
    } else {
      ExtendsAppend(a, a, "");
      assert a + "" == a;
    }
  }

  lemma LegacyNamesExtend(a: string, d: Details)
    ensures Extends(a, LegacyNames(a, d))
  {
    var s0 := a + ("<b>" + Commas(SubjectLongNames(d.subjects)));
    ExtendsAppend(a, a, "<b>" + Commas(SubjectLongNames(d.subjects)));
    var s := WithOriginalsAfterSpace(s0, SubjectLongNames(d.originalSubjects), " &lt;", "&gt;");
    WithOriginalsAfterSpaceExtends(s0, SubjectLongNames(d.originalSubjects), " &lt;", "&gt;");
    ExtendsTransitive(a, s0, s);
    var t0 := s + "</b>\n" + Commas(TeacherFullNames(d.teachers));
    ExtendsAppend(a, s, "</b>\n");
    ExtendsAppend(a, s + "</b>\n", Commas(TeacherFullNames(d.teachers)));
    var t := WithOriginalsAfterSpace(t0, TeacherFullNames(d.originalTeachers), " &lt;", "&gt;");
    WithOriginalsAfterSpaceExtends(t0, TeacherFullNames(d.originalTeachers), " &lt;", "&gt;");
    ExtendsTransitive(a, t0, t);
    var c := t + "\n" + (Commas(ClassLongNames(d.classes)) + "\n");
    ExtendsAppend(a, t, "\n");
    ExtendsAppend(a, t + "\n", Commas(ClassLongNames(d.classes)) + "\n");
    var r0 := c + Commas(RoomLongNames(d.rooms));
    ExtendsAppend(a, c, Commas(RoomLongNames(d.rooms)));
    WithOriginalsAfterSpaceExtends(r0, RoomLongNames(d.originalRooms), " &lt;", "&gt;");
    ExtendsTransitive(a, r0, LegacyNames(a, d));
  }

  /**
   * Both uploaders agree on the colour, the transparency, the start of the title
   * (the marks) and the start of the description (status, exam, information and
   * homework blocks); they differ only in the name lines and the location.
   */
  lemma UploadersShareHead(l: Lesson)
    ensures Extends(Marks(l), Title(l)) && Extends(Marks(l), LegacyTitle(l))
    ensures var head := WithHomework(WithInformation(WithExam(StatusBlock(l), l), l), l);
            Extends(head, Description(l)) && Extends(head, LegacyDescription(l))
  {
    var d := l.details;
    TitleStartsWithMarks(l);
    var m := Marks(l);
    var s0 := m + Commas(SubjectNames(d.subjects));
    ExtendsAppend(m, m, Commas(SubjectNames(d.subjects)));
    var s := LegacySubjects(m, d);
    WithOriginalsAfterSpaceExtends(s0, SubjectNames(d.originalSubjects), " <", ">");
    ExtendsTransitive(m, s0, s);
    var t0 := s + " | " + Commas(TeacherNames(d.teachers));
    ExtendsAppend(m, s, " | ");
    ExtendsAppend(m, s + " | ", Commas(TeacherNames(d.teachers)));
    var t := LegacyTeachers(s, d);
    WithOriginalsAfterSpaceExtends(t0, TeacherNames(d.originalTeachers), " <", ">");
    ExtendsTransitive(m, t0, t);
    ExtendsAppend(m, t, " | ");
    ExtendsAppend(m, t + " | ", Commas(ClassNames(d.classes)));
    var head := WithHomework(WithInformation(WithExam(StatusBlock(l), l), l), l);
    NamesExtend(head, d);
    LegacyNamesExtend(head, d);
  }

  // ---------------------------------------------------------------------------
  // Sequential uploads against the remote calendar

  /** What one `uploadEvent` reported says about the stored events it saw. */
  predicate Explains(events: map<string, Event>, j: Job, report: Report) {
    match report
    case Skipped => j.id in events && Decide(Legacy, events[j.id], j.fields) == Skip
    case Updated => j.id in events && Decide(Legacy, events[j.id], j.fields).Rewrite?
    case Inserted => j.id !in events
    case Dropped(code) => code.None? ==> j.id in events && Decide(Legacy, events[j.id], j.fields) == Crash
    case GaveUp => true
  }

  /** The stored events after one `uploadEvent` with that report. */
  function After(events: map<string, Event>, j: Job, stamp: string, report: Report): map<string, Event> {
    match report
    case Updated =>
      if j.id in events && Decide(Legacy, events[j.id], j.fields).Rewrite?
      then events[j.id := WithFooter(Decide(Legacy, events[j.id], j.fields).body, stamp)]
      else events
    case Inserted => events[j.id := Created(Legacy, j.fields, stamp)]
    case _ => events
  }

  /** The events after uploading `jobs` in turn, the i-th at the clock's `clock(i)`. */
  function Replay(events: map<string, Event>, jobs: seq<Job>, clock: nat -> string, reports: seq<Report>): map<string, Event>
    requires |reports| == |jobs|
  {
    if jobs == [] then events
    else
      var n := |jobs| - 1;
      After(Replay(events, jobs[..n], clock, reports[..n]), jobs[n], clock(n), reports[n])
  }

  /** Every report is explained by the events left by the uploads before it. */
  predicate Explained(events: map<string, Event>, jobs: seq<Job>, clock: nat -> string, reports: seq<Report>)
    decreases |jobs|
  {
    |reports| == |jobs| &&
    (jobs != [] ==>
      var n := |jobs| - 1;
      Explained(events, jobs[..n], clock, reports[..n])
      && Explains(Replay(events, jobs[..n], clock, reports[..n]), jobs[n], reports[n]))
  }

  lemma ReplayStep(events: map<string, Event>, jobs: seq<Job>, clock: nat -> string, reports: seq<Report>,
                   i: nat, report: Report)
    requires i < |jobs| && |reports| == i
    requires Explained(events, jobs[..i], clock, reports)
    requires Explains(Replay(events, jobs[..i], clock, reports), jobs[i], report)
    ensures Explained(events, jobs[..i + 1], clock, reports + [report])
    ensures Replay(events, jobs[..i + 1], clock, reports + [report])
            == After(Replay(events, jobs[..i], clock, reports), jobs[i], clock(i), report)
  {
    assert jobs[..i + 1][..i] == jobs[..i];
    assert (reports + [report])[..i] == reports;
  }

  lemma ReplayAppend(events: map<string, Event>, done: seq<Job>, clock: nat -> string, reports: seq<Report>,
                     job: Job, report: Report)
    requires Explained(events, done, clock, reports)
    requires Explains(Replay(events, done, clock, reports), job, report)
    ensures Explained(events, done + [job], clock, reports + [report])
    ensures Replay(events, done + [job], clock, reports + [report])
            == After(Replay(events, done, clock, reports), job, clock(|done|), report)
  {
    ReplaySnoc(events, done, clock, reports, job, report);
    assert (done + [job])[..|done|] == done;
    assert (reports + [report])[..|done|] == reports;
  }

  lemma ReplaySnoc(events: map<string, Event>, done: seq<Job>, clock: nat -> string, reports: seq<Report>,
                   job: Job, report: Report)
    requires |reports| == |done|
    ensures Replay(events, done + [job], clock, reports + [report])
            == After(Replay(events, done, clock, reports), job, clock(|done|), report)
  {
    assert (done + [job])[..|done|] == done;
    assert (reports + [report])[..|done|] == reports;
  }

  /** One awaited `uploadEvent` of google.js, started with a `timeOut` of 1. */
  method UploadJob(api: Api, j: Job, stamp: string) returns (api': Api, report: Report)
    ensures Explains(api.events, j, report)
    ensures api'.events == After(api.events, j, stamp, report)
  {
    var sleeps, inner;
    api', sleeps, inner, report := UploadEvent(Legacy, api, j.id, j.fields, stamp, 1.0);
  }

  /**
   * `uploadHolidays` of google.js: each holiday's `uploadEvent` is awaited before
   * the next starts.
   */
  method LegacyUploadHolidays(api: Api, holidays: seq<Holiday>, clock: nat -> string)
    returns (api': Api, reports: seq<Report>)
    ensures Explained(api.events, HolidayJobs(holidays), clock, reports)
    ensures api'.events == Replay(api.events, HolidayJobs(holidays), clock, reports)
  {
    ghost var jobs := HolidayJobs(holidays);
    api', reports := api, [];
    assert jobs[..0] == [];
    for i := 0 to |holidays|
      invariant |reports| == i
      invariant Explained(api.events, jobs[..i], clock, reports)
      invariant api'.events == Replay(api.events, jobs[..i], clock, reports)
    {
      var job := HolidayJob(holidays[i]);
      var report;
      api', report := UploadJob(api', job, clock(i));
      ReplayStep(api.events, jobs, clock, reports, i, report);
      reports := reports + [report];
    }
    assert jobs[..|holidays|] == jobs;
  }

  /**
   * `uploadNews` of google.js, one awaited upload per message: the events and ids
   * of backend/google.js, each upload started with a `timeOut` of 1 instead of 2.
   */
  method LegacyUploadNews(api: Api, news: seq<NewsDay>, clock: nat -> string)
    returns (api': Api, reports: seq<Report>)
    ensures Explained(api.events, NewsJobs(news), clock, reports)
    ensures api'.events == Replay(api.events, NewsJobs(news), clock, reports)
  {
    api', reports := api, [];
    ghost var done: seq<Job> := [];
    assert news[..0] == [];
    for i := 0 to |news|
      invariant done == NewsJobs(news[..i])
      invariant Explained(api.events, done, clock, reports)
      invariant api'.events == Replay(api.events, done, clock, reports)
    {
      api', reports := UploadDay(api.events, api', done, reports, news[i], clock);
      done := done + DayJobs(news[i]);
      NewsJobsStep(news, i);
    }
    assert news[..|news|] == news;
  }

  /** The inner loop of `uploadNews`: the messages of one day, one awaited upload each. */
  method UploadDay(ghost events: map<string, Event>, api: Api, ghost done: seq<Job>, reports: seq<Report>,
                   day: NewsDay, clock: nat -> string)
    returns (api': Api, reports': seq<Report>)
    requires Explained(events, done, clock, reports)
    requires api.events == Replay(events, done, clock, reports)
    ensures Explained(events, done + DayJobs(day), clock, reports')
    ensures api'.events == Replay(events, done + DayJobs(day), clock, reports')
  {
    api', reports' := api, reports;
    ghost var current := done;
    var jobs := DayJobs(day);
    assert jobs[..0] == [] && done + [] == done;
    for k := 0 to |jobs|
      invariant current == done + jobs[..k]
      invariant Explained(events, current, clock, reports')
      invariant api'.events == Replay(events, current, clock, reports')
    {
      api', reports' := UploadNext(events, api', current, reports', jobs[k], clock);
      TakeOneMore(jobs, k);
      AppendAssociative(done, jobs[..k], [jobs[k]]);
      current := current + [jobs[k]];
    }
    assert jobs[..|jobs|] == jobs;
  }

  /** One more awaited upload after the jobs `done`: its report joins the others. */
  method UploadNext(ghost events: map<string, Event>, api: Api, ghost done: seq<Job>, reports: seq<Report>,
                    job: Job, clock: nat -> string)
    returns (api': Api, reports': seq<Report>)
    requires Explained(events, done, clock, reports)
    requires api.events == Replay(events, done, clock, reports)
    ensures Explained(events, done + [job], clock, reports')
    ensures api'.events == Replay(events, done + [job], clock, reports')
  {
    var report;
    api', report := UploadJob(api, job, clock(|reports|));
    ReplayAppend(events, done, clock, reports, job, report);
    reports' := reports + [report];
  }

  function LegacyLessonFields(l: Lesson): Fields {
    Fields(Some(LegacyTitle(l)), Some(LegacyDescription(l)), Some(LegacyLocation(l.details)),
           if l.details.cancelled then Some("transparent") else None, Color(l),
           Some(When(Some(l.start), None)), Some(When(Some(l.end), None)))
  }

  function LegacyLessonJobs(ls: seq<Lesson>): seq<Job> {
    seq(|ls|, i requires 0 <= i < |ls| => Job(LessonId(ls[i].id), LegacyLessonFields(ls[i]), 1.0))
  }

  /** `uploadLessons` of google.js, one awaited upload per lesson. */
  method LegacyUploadLessons(api: Api, lessons: seq<Lesson>, clock: nat -> string)
    returns (api': Api, reports: seq<Report>)
    ensures Explained(api.events, LegacyLessonJobs(lessons), clock, reports)
    ensures api'.events == Replay(api.events, LegacyLessonJobs(lessons), clock, reports)
  {
    ghost var jobs := LegacyLessonJobs(lessons);
    api', reports := api, [];
    assert jobs[..0] == [];
    for i := 0 to |lessons|
      invariant |reports| == i
      invariant Explained(api.events, jobs[..i], clock, reports)
      invariant api'.events == Replay(api.events, jobs[..i], clock, reports)
    {
      var l := lessons[i];
      var f := LegacyGenerateFields(l);
      var event := f.(start := Some(When(Some(l.start), None)), end := Some(When(Some(l.end), None)));
      assert event == LegacyLessonFields(l);
      assert jobs[i] == Job(LessonId(l.id), event, 1.0);
      var report;
      api', report := UploadJob(api', Job(LessonId(l.id), event, 1.0), clock(i));
      ReplayStep(api.events, jobs, clock, reports, i, report);
      reports := reports + [report];
    }
    assert jobs[..|lessons|] == jobs;
  }

  // ---------------------------------------------------------------------------
  // What a run of sequential uploads leaves behind

  /** Events no job names are left exactly as they were. */
  lemma {:induction false} ReplayFrame(events: map<string, Event>, jobs: seq<Job>, clock: nat -> string,
                                       reports: seq<Report>, key: string)
    requires |reports| == |jobs|
    requires forall i :: 0 <= i < |jobs| ==> jobs[i].id != key
    ensures key in Replay(events, jobs, clock, reports) <==> key in events
    ensures key in events ==> Replay(events, jobs, clock, reports)[key] == events[key]
  {
    if jobs != [] {
      var n := |jobs| - 1;
      ReplayFrame(events, jobs[..n], clock, reports[..n], key);
    }
  }

  /**
   * With distinct ids, a job that was skipped, updated or inserted is in the
   * calendar at the end; an inserted one holds exactly what `createEvent` wrote.
   */
  lemma {:induction false} ReplayStores(events: map<string, Event>, jobs: seq<Job>, clock: nat -> string,
                                        reports: seq<Report>, i: nat)
    requires Explained(events, jobs, clock, reports)
    requires forall a, b :: 0 <= a < b < |jobs| ==> jobs[a].id != jobs[b].id
    requires i < |jobs| && (reports[i] == Skipped || reports[i] == Updated || reports[i] == Inserted)
    ensures jobs[i].id in Replay(events, jobs, clock, reports)
    ensures reports[i] == Inserted ==>
              Replay(events, jobs, clock, reports)[jobs[i].id] == Created(Legacy, jobs[i].fields, clock(i))
  {
    var n := |jobs| - 1;
    var prior := Replay(events, jobs[..n], clock, reports[..n]);
    if i == n {
      AfterStoresOwn(prior, jobs[n], clock(n), reports[n]);
    } else {
      assert jobs[..n][i] == jobs[i] && reports[..n][i] == reports[i];
      ReplayStores(events, jobs[..n], clock, reports[..n], i);
      AfterKeepsOther(prior, jobs[n], clock(n), reports[n], jobs[i].id);
    }
  }

  /** A skip, update or insert that its report explains leaves the job's event stored. */
  lemma AfterStoresOwn(events: map<string, Event>, j: Job, stamp: string, report: Report)
    requires Explains(events, j, report) && (report == Skipped || report == Updated || report == Inserted)
    ensures j.id in After(events, j, stamp, report)
    ensures report == Inserted ==> After(events, j, stamp, report)[j.id] == Created(Legacy, j.fields, stamp)
  {
  }

  /** An upload touches only its own event. */
  lemma AfterKeepsOther(events: map<string, Event>, j: Job, stamp: string, report: Report, key: string)
    requires key != j.id && key in events
    ensures key in After(events, j, stamp, report) && After(events, j, stamp, report)[key] == events[key]
  {
  }
}
