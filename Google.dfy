/**
 * backend/google.js, apart from the shared upload decision in `Calendar`: the
 * properties built for each holiday, news message and lesson, and the `upload*`
 * loops that hand one `uploadEvent` job per element to the task queue.
 */
module Google {
  import opened Maybe
  import opened Strings
  import opened Utils
  import opened EventIds
  import opened Calendar
  import opened Untis

  // ---------------------------------------------------------------------------
  // `generateFields`

  function SubjectNames(s: seq<Subject>): seq<string> {
    seq(|s|, i requires 0 <= i < |s| => s[i].name)
  }

  function SubjectLongNames(s: seq<Subject>): seq<string> {
    seq(|s|, i requires 0 <= i < |s| => s[i].longName)
  }

  function TeacherNames(s: seq<Teacher>): seq<string> {
    seq(|s|, i requires 0 <= i < |s| => s[i].name)
  }

  /** `teacher.foreName ? `${teacher.foreName} ${teacher.longName}` : teacher.longName`. */
  function TeacherName(t: Teacher): string {
    if t.foreName != "" then t.foreName + " " + t.longName else t.longName
  }

  function TeacherFullNames(s: seq<Teacher>): seq<string> {
    seq(|s|, i requires 0 <= i < |s| => TeacherName(s[i]))
  }

  function RoomNames(s: seq<Room>): seq<string> {
    seq(|s|, i requires 0 <= i < |s| => s[i].name)
  }

  function RoomLongNames(s: seq<Room>): seq<string> {
    seq(|s|, i requires 0 <= i < |s| => s[i].longName)
  }

  function ClassNames(s: seq<Klass>): seq<string> {
    seq(|s|, i requires 0 <= i < |s| => s[i].name)
  }

  function ClassLongNames(s: seq<Klass>): seq<string> {
    seq(|s|, i requires 0 <= i < |s| => s[i].longname)
  }

  function Commas(parts: seq<string>): string {
    JoinWith(parts, ", ")
  }

  /**
   * After the current names were appended to `a`: the originals between `open`
   * and `close`, preceded by a space only when there were current names.
   */
  function WithOriginals(a: string, hasCurrent: bool, originals: seq<string>, open: string, close: string): string {
    if |originals| > 0 then (if hasCurrent then a + " " else a) + (open + Commas(originals) + close) else a
  }

  /** The lesson has information or homework to show. */
  predicate Flagged(l: Lesson) {
    l.details.lessonText != "" || l.details.infoText != "" || l.newHomework != "" || l.dueHomework != ""
  }

  /** `lesson.substText ? `${lesson.substText}\n\n` : 'No further information\n\n'`. */
  function Substitution(l: Lesson): string {
    if l.substText.Some? && l.substText.value != "" then l.substText.value + "\n\n" else "No further information\n\n"
  }

  /** The title marks: cancelled replaces irregular, then the exam type, then `[!]`. */
  function Marks(l: Lesson): string {
    var a := if l.details.cancelled then "[X] " else if l.details.irregular then "[+] " else "";
    var b := if l.examType != "" then a + "[" + l.examType + "] " else a;
    if Flagged(l) then b + "[!] " else b
  }

  /** The colour: exam over cancelled over irregular over `[!]`, none otherwise. */
  function Color(l: Lesson): Option<string> {
    if l.examType != "" then Some("6")
    else if l.details.cancelled then Some("10")
    else if l.details.irregular then Some("2")
    else if Flagged(l) then Some("5")
    else None
  }

  function HasRooms(d: Details): bool {
    |d.rooms| > 0 || |d.originalRooms| > 0
  }

  function WithSubjects(a: string, d: Details): string {
    WithOriginals(a + Commas(SubjectNames(d.subjects)), |d.subjects| > 0, SubjectNames(d.originalSubjects), "<", ">")
  }

  function WithTeachers(a: string, d: Details): string {
    WithOriginals(a + " | " + Commas(TeacherNames(d.teachers)), |d.teachers| > 0, TeacherNames(d.originalTeachers), "<", ">")
  }

  function WithRooms(a: string, d: Details): string {
    var separated := if HasRooms(d) then a + " | " else a;
    WithOriginals(separated + Commas(RoomNames(d.rooms)), |d.rooms| > 0, RoomNames(d.originalRooms), "<", ">")
  }

  /** Marks, subjects, ` | `, teachers, then ` | ` and rooms when there are any. */
  function Title(l: Lesson): string {
    WithRooms(WithTeachers(WithSubjects(Marks(l), l.details), l.details), l.details)
  }

  /** The cancellation block replaces the update block. */
  function StatusBlock(l: Lesson): string {
    if l.details.cancelled then "<b>CANCELLED [X]</b>\n" + Substitution(l)
    else if l.details.irregular then "<b>UPDATED [+]</b>\n" + Substitution(l)
    else ""
  }

  function WithExam(a: string, l: Lesson): string {
    if l.examType == "" then a
    else
      var b := a + "<b>EXAM [" + l.examType + "]</b>\n";
      if l.examName != "" && l.examText != "" then b + (l.examName + " | " + l.examText + "\n\n")
      else if l.examName != "" then b + (l.examName + "\n\n")
      else if l.examText != "" then b + (l.examText + "\n\n")
      else b + "No further information\n\n"
  }

  function WithInformation(a: string, l: Lesson): string {
    var d := l.details;
    if d.lessonText == "" && d.infoText == "" then a
    else
      var b := a + "<b>INFORMATION</b>\n";
      var c := if d.lessonText != "" then b + (d.lessonText + "\n\n") else b;
      if d.infoText != "" then c + (d.infoText + "\n\n") else c
  }

  function WithHomework(a: string, l: Lesson): string {
    var b := if l.dueHomework != "" then a + "<b>HOMEWORK</b>\n" + (l.dueHomework + "\n\n") else a;
    if l.newHomework != "" then b + "<b>UNTIL NEXT LESSON</b>\n" + (l.newHomework + "\n\n") else b
  }

  /** Subject line in bold, teachers, classes, and rooms when there are any. */
  function WithNames(a: string, d: Details): string {
    var subjects := WithOriginals(a + ("<b>" + Commas(SubjectLongNames(d.subjects))),
                                  |d.subjects| > 0, SubjectLongNames(d.originalSubjects), "&lt;", "&gt;");
    var teachers := WithOriginals(subjects + "</b>\n" + Commas(TeacherFullNames(d.teachers)),
                                  |d.teachers| > 0, TeacherFullNames(d.originalTeachers), "&lt;", "&gt;");
    var classes := teachers + "\n" + Commas(ClassLongNames(d.classes));
    var separated := if HasRooms(d) then classes + "\n" else classes;
    WithOriginals(separated + Commas(RoomLongNames(d.rooms)), |d.rooms| > 0, RoomLongNames(d.originalRooms), "&lt;", "&gt;")
  }

  function Description(l: Lesson): string {
    WithNames(WithHomework(WithInformation(WithExam(StatusBlock(l), l), l), l), l.details)
  }

  /**
   * `generateFields`: title and description are built by successive appends;
   * `colorId` is set only when a colour was chosen and `transparency` only for a
   * cancelled lesson; `location` is always empty.
   */
  method GenerateFields(l: Lesson) returns (f: Fields)
    ensures f.summary == Some(Title(l)) && f.description == Some(Description(l))
    ensures f.location == Some("") && f.start.None? && f.end.None?
    ensures f.colorId == Color(l)
    ensures f.transparency == (if l.details.cancelled then Some("transparent") else None)
  {
    var title, description, color, transparency := MarkLesson(l);
    title, description := AppendNames(title, description, l.details);
    f := Fields(Some(title), Some(description), Some(""),
                if transparency == "transparent" then Some(transparency) else None,
                color, None, None);
  }

  /**
   * The part of `generateFields` both uploaders share: the marks, the colour and
   * transparency, and the status, exam, information and homework blocks.
   */
  method MarkLesson(l: Lesson) returns (title: string, description: string, color: Option<string>, transparency: string)
    ensures title == Marks(l)
    ensures description == WithHomework(WithInformation(WithExam(StatusBlock(l), l), l), l)
    ensures color == Color(l)
    ensures color.Some? <==> l.details.irregular || l.details.cancelled || l.examType != "" || Flagged(l)
    ensures l.examType != "" ==> color == Some("6")
    ensures color == Some("5") <==> Flagged(l) && l.examType == "" && !l.details.cancelled && !l.details.irregular
    ensures color == Some("10") <==> l.details.cancelled && l.examType == ""
    ensures transparency == "transparent" <==> l.details.cancelled
  {
    var d := l.details;
    title := "";
    description := "";
    color := None;
    transparency := "opaque";
    if d.irregular {
      title := "[+] ";
      color := Some("2");
      description := "<b>UPDATED [+]</b>\n";
      description := description + Substitution(l);
    }
    if d.cancelled {
      title := "[X] ";
      color := Some("10");
      description := "<b>CANCELLED [X]</b>\n";
      description := description + Substitution(l);
      transparency := "transparent";
    }
    assert description == StatusBlock(l);
    assert title == if d.cancelled then "[X] " else if d.irregular then "[+] " else "";
    if l.examType != "" {
      title := title + "[" + l.examType + "] ";
      color := Some("6");
      description := description + "<b>EXAM [" + l.examType + "]</b>\n";
      if l.examName != "" && l.examText != "" {
        description := description + (l.examName + " | " + l.examText + "\n\n");
      } else if l.examName != "" {
        description := description + (l.examName + "\n\n");
      } else if l.examText != "" {
        description := description + (l.examText + "\n\n");
      } else {
        description := description + "No further information\n\n";
      }
    }
    if d.lessonText != "" || d.infoText != "" || l.newHomework != "" || l.dueHomework != "" {
      title := title + "[!] ";
      if color.None? {
        color := Some("5");
      }
    }
    assert description == WithExam(StatusBlock(l), l);
    description := AppendNotes(description, l);
  }

  /** The information and homework blocks of `generateFields`. */
  method AppendNotes(d0: string, l: Lesson) returns (description: string)
    ensures description == WithHomework(WithInformation(d0, l), l)
  {
    var d := l.details;
    description := d0;
    if d.lessonText != "" || d.infoText != "" {
      description := description + "<b>INFORMATION</b>\n";
      if d.lessonText != "" {
        description := description + (d.lessonText + "\n\n");
      }
      if d.infoText != "" {
        description := description + (d.infoText + "\n\n");
      }
    }
    if l.dueHomework != "" {
      description := description + "<b>HOMEWORK</b>\n";
      description := description + (l.dueHomework + "\n\n");
    }
    if l.newHomework != "" {
      description := description + "<b>UNTIL NEXT LESSON</b>\n";
      description := description + (l.newHomework + "\n\n");
    }
  }

  /**
   * The name lines of `generateFields`: subjects with their originals, teachers, then
   * (description only) classes, then rooms.
   */
  method AppendNames(t0: string, d0: string, d: Details) returns (title: string, description: string)
    ensures title == WithRooms(WithTeachers(WithSubjects(t0, d), d), d)
    ensures description == WithNames(d0, d)
  {
    var t1, d1 := AppendSubjects(t0, d0, d);
    var t2, d2 := AppendTeachers(t1, d1, d);
    title, description := AppendRooms(t2, d2, d);
  }

  /** The subject names, then the original subjects in angle brackets. */
  method AppendSubjects(t0: string, d0: string, d: Details) returns (title: string, description: string)
    ensures title == WithSubjects(t0, d)
    ensures description == WithOriginals(d0 + ("<b>" + Commas(SubjectLongNames(d.subjects))),
                                         |d.subjects| > 0, SubjectLongNames(d.originalSubjects), "&lt;", "&gt;")
  {
    title := t0 + Commas(SubjectNames(d.subjects));
    description := d0 + ("<b>" + Commas(SubjectLongNames(d.subjects)));
    if |d.originalSubjects| > 0 {
      if |d.subjects| > 0 {
        title := title + " ";
        description := description + " ";
      }
      title := title + ("<" + Commas(SubjectNames(d.originalSubjects)) + ">");
      description := description + ("&lt;" + Commas(SubjectLongNames(d.originalSubjects)) + "&gt;");
    }
  }

  /** ` | ` and the teacher names, then the original teachers. */
  method AppendTeachers(t1: string, d1: string, d: Details) returns (title: string, description: string)
    ensures title == WithTeachers(t1, d)
    ensures description == WithOriginals(d1 + "</b>\n" + Commas(TeacherFullNames(d.teachers)),
                                         |d.teachers| > 0, TeacherFullNames(d.originalTeachers), "&lt;", "&gt;")
  {
    title := t1 + " | ";
    description := d1 + "</b>\n";
    title := title + Commas(TeacherNames(d.teachers));
    description := description + Commas(TeacherFullNames(d.teachers));
    if |d.originalTeachers| > 0 {
      if |d.teachers| > 0 {
        title := title + " ";
        description := description + " ";
      }
      title := title + ("<" + Commas(TeacherNames(d.originalTeachers)) + ">");
      description := description + ("&lt;" + Commas(TeacherFullNames(d.originalTeachers)) + "&gt;");
    }
  }

  /** The class line (description only), then ` | ` and the rooms when there are any. */
  method AppendRooms(t2: string, d2: string, d: Details) returns (title: string, description: string)
    ensures title == WithRooms(t2, d)
    ensures var classes := d2 + "\n" + Commas(ClassLongNames(d.classes));
            var separated := if HasRooms(d) then classes + "\n" else classes;
            description == WithOriginals(separated + Commas(RoomLongNames(d.rooms)),
                                         |d.rooms| > 0, RoomLongNames(d.originalRooms), "&lt;", "&gt;")
  {
    title := t2;
    description := d2 + "\n";
    description := description + Commas(ClassLongNames(d.classes));
    if |d.rooms| > 0 || |d.originalRooms| > 0 {
      title := title + " | ";
      description := description + "\n";
    }
    title := title + Commas(RoomNames(d.rooms));
    description := description + Commas(RoomLongNames(d.rooms));
    if |d.originalRooms| > 0 {
      if |d.rooms| > 0 {
        title := title + " ";
        description := description + " ";
      }
      title := title + ("<" + Commas(RoomNames(d.originalRooms)) + ">");
      description := description + ("&lt;" + Commas(RoomLongNames(d.originalRooms)) + "&gt;");
    }
  }

  /** `b` starts with `a`. */
  predicate Extends(a: string, b: string) {
    |a| <= |b| && b[..|a|] == a
  }

  lemma ExtendsAppend(a: string, b: string, c: string)
    requires Extends(a, b)
    ensures Extends(a, b + c)
  {
    assert (b + c)[..|a|] == b[..|a|];
  }

  lemma ExtendsTransitive(a: string, b: string, c: string)
    requires Extends(a, b) && Extends(b, c)
    ensures Extends(a, c)
  {
    assert c[..|a|] == c[..|b|][..|a|];
  }

  lemma WithOriginalsExtends(a: string, hasCurrent: bool, originals: seq<string>, open: string, close: string)
    ensures Extends(a, WithOriginals(a, hasCurrent, originals, open, close))
  {
    if |originals| > 0 {
      var b := if hasCurrent then a + " " else a;
      ExtendsAppend(a, a, if hasCurrent then " " else "");
      assert b == a + (if hasCurrent then " " else "");
      ExtendsAppend(a, b, open + Commas(originals) + close);
    }
  }

  /** Everything generateFields appends keeps the title starting with its marks. */
  lemma TitleStartsWithMarks(l: Lesson)
    ensures Extends(Marks(l), Title(l))
  {
    var d := l.details;
    var m := Marks(l);
    var s0 := m + Commas(SubjectNames(d.subjects));
    ExtendsAppend(m, m, Commas(SubjectNames(d.subjects)));
    var s := WithOriginals(s0, |d.subjects| > 0, SubjectNames(d.originalSubjects), "<", ">");
    WithOriginalsExtends(s0, |d.subjects| > 0, SubjectNames(d.originalSubjects), "<", ">");
    ExtendsTransitive(m, s0, s);
    var t0 := s + " | " + Commas(TeacherNames(d.teachers));
    ExtendsAppend(m, s, " | ");
    ExtendsAppend(m, s + " | ", Commas(TeacherNames(d.teachers)));
    var t := WithOriginals(t0, |d.teachers| > 0, TeacherNames(d.originalTeachers), "<", ">");
    WithOriginalsExtends(t0, |d.teachers| > 0, TeacherNames(d.originalTeachers), "<", ">");
    ExtendsTransitive(m, t0, t);
    var sep := if HasRooms(d) then t + " | " else t;
    ExtendsAppend(m, t, if HasRooms(d) then " | " else "");
    assert sep == t + (if HasRooms(d) then " | " else "");
    var r0 := sep + Commas(RoomNames(d.rooms));
    ExtendsAppend(m, sep, Commas(RoomNames(d.rooms)));
    WithOriginalsExtends(r0, |d.rooms| > 0, RoomNames(d.originalRooms), "<", ">");
    ExtendsTransitive(m, r0, Title(l));
  }

  /** Everything generateFields appends keeps the description starting with its status block. */
  lemma DescriptionStartsWithStatus(l: Lesson)
    ensures Extends(StatusBlock(l), Description(l))
  {
    var a := StatusBlock(l);
    var e := WithExam(a, l);
    var i := WithInformation(e, l);
    var h := WithHomework(i, l);
    ExamExtends(a, l);
    InformationExtends(e, l);
    HomeworkExtends(i, l);
    ExtendsTransitive(a, e, i);
    ExtendsTransitive(a, i, h);
    NamesExtend(h, l.details);
    ExtendsTransitive(a, h, Description(l));
  }

  lemma ExamExtends(a: string, l: Lesson)
    ensures Extends(a, WithExam(a, l))
  {
    var e := WithExam(a, l);
    if l.examType != "" {
      var b := a + "<b>EXAM [" + l.examType + "]</b>\n";
      ExtendsAppend(a, a, "<b>EXAM [");
      ExtendsAppend(a, a + "<b>EXAM [", l.examType);
      ExtendsAppend(a, a + "<b>EXAM [" + l.examType, "]</b>\n");
      ExtendsAppend(a, b, e[|b|..]);
      assert e == b + e[|b|..];
    } else {
      ExtendsAppend(a, a, "");
      assert e == a + "";
    }
  }

  lemma InformationExtends(e: string, l: Lesson)
    ensures Extends(e, WithInformation(e, l))
  {
    var d := l.details;
    var i := WithInformation(e, l);
    if d.lessonText != "" || d.infoText != "" {
      var b := e + "<b>INFORMATION</b>\n";
      var c := if d.lessonText != "" then b + (d.lessonText + "\n\n") else b;
      ExtendsAppend(e, e, "<b>INFORMATION</b>\n");
      ExtendsAppend(e, b, if d.lessonText != "" then d.lessonText + "\n\n" else "");
      assert c == b + (if d.lessonText != "" then d.lessonText + "\n\n" else "");
      ExtendsAppend(e, c, if d.infoText != "" then d.infoText + "\n\n" else "");
      assert i == c + (if d.infoText != "" then d.infoText + "\n\n" else "");
    } else {
      ExtendsAppend(e, e, "");
      assert i == e + "";
    }
  }

  lemma HomeworkExtends(i: string, l: Lesson)
    ensures Extends(i, WithHomework(i, l))
  {
    var h := WithHomework(i, l);
    var hb := if l.dueHomework != "" then i + "<b>HOMEWORK</b>\n" + (l.dueHomework + "\n\n") else i;
    ExtendsAppend(i, i, "<b>HOMEWORK</b>\n");
    ExtendsAppend(i, i, "");
    assert hb == i || hb == i + "<b>HOMEWORK</b>\n" + (l.dueHomework + "\n\n");
    ExtendsAppend(i, i + "<b>HOMEWORK</b>\n", l.dueHomework + "\n\n");
    assert Extends(i, hb);
    ExtendsAppend(i, hb, "<b>UNTIL NEXT LESSON</b>\n");
    ExtendsAppend(i, hb + "<b>UNTIL NEXT LESSON</b>\n", l.newHomework + "\n\n");
    ExtendsAppend(i, hb, "");
    assert h == hb + "" || h == hb + "<b>UNTIL NEXT LESSON</b>\n" + (l.newHomework + "\n\n");
  }

  lemma NamesExtend(a: string, d: Details)
    ensures Extends(a, WithNames(a, d))
  {
    var s0 := a + ("<b>" + Commas(SubjectLongNames(d.subjects)));
    ExtendsAppend(a, a, "<b>" + Commas(SubjectLongNames(d.subjects)));
    var s := WithOriginals(s0, |d.subjects| > 0, SubjectLongNames(d.originalSubjects), "&lt;", "&gt;");
    WithOriginalsExtends(s0, |d.subjects| > 0, SubjectLongNames(d.originalSubjects), "&lt;", "&gt;");
    ExtendsTransitive(a, s0, s);
    var t0 := s + "</b>\n" + Commas(TeacherFullNames(d.teachers));
    ExtendsAppend(a, s, "</b>\n");
    ExtendsAppend(a, s + "</b>\n", Commas(TeacherFullNames(d.teachers)));
    var t := WithOriginals(t0, |d.teachers| > 0, TeacherFullNames(d.originalTeachers), "&lt;", "&gt;");
    WithOriginalsExtends(t0, |d.teachers| > 0, TeacherFullNames(d.originalTeachers), "&lt;", "&gt;");
    ExtendsTransitive(a, t0, t);
    var c := t + "\n" + Commas(ClassLongNames(d.classes));
    ExtendsAppend(a, t, "\n");
    ExtendsAppend(a, t + "\n", Commas(ClassLongNames(d.classes)));
    var sep := if HasRooms(d) then c + "\n" else c;
    ExtendsAppend(a, c, if HasRooms(d) then "\n" else "");
    assert sep == c + (if HasRooms(d) then "\n" else "");
    var r0 := sep + Commas(RoomLongNames(d.rooms));
    ExtendsAppend(a, sep, Commas(RoomLongNames(d.rooms)));
    WithOriginalsExtends(r0, |d.rooms| > 0, RoomLongNames(d.originalRooms), "&lt;", "&gt;");
    ExtendsTransitive(a, r0, WithNames(a, d));
  }

  /**
   * A cancelled lesson's title and description start with the cancellation mark,
   * overriding the irregular one; an irregular lesson that is not cancelled starts
   * with the update mark.
   */
  lemma MarksPrecedence(l: Lesson)
    ensures l.details.cancelled ==>
              Extends("[X] ", Title(l)) && Extends("<b>CANCELLED [X]</b>\n", Description(l))
    ensures !l.details.cancelled && l.details.irregular ==>
              Extends("[+] ", Title(l)) && Extends("<b>UPDATED [+]</b>\n", Description(l))
  {
    if l.details.cancelled || l.details.irregular {
      var m := if l.details.cancelled then "[X] " else "[+] ";
      var st := if l.details.cancelled then "<b>CANCELLED [X]</b>\n" else "<b>UPDATED [+]</b>\n";
      MarksLead(l, m);
      ExtendsAppend(st, st, Substitution(l));
      assert StatusBlock(l) == st + Substitution(l);
      TitleStartsWithMarks(l);
      DescriptionStartsWithStatus(l);
      ExtendsTransitive(m, Marks(l), Title(l));
      ExtendsTransitive(st, StatusBlock(l), Description(l));
    }
  }

  /** The marks start with the cancellation or update mark `m` the lesson calls for. */
  lemma MarksLead(l: Lesson, m: string)
    requires m == if l.details.cancelled then "[X] " else "[+] "
    requires l.details.cancelled || l.details.irregular
    ensures Extends(m, Marks(l))
  {
    var b := if l.examType != "" then m + "[" + l.examType + "] " else m;
    ExtendsAppend(m, m, "[" + l.examType + "] ");
    assert m + "[" + l.examType + "] " == m + ("[" + l.examType + "] ");
    ExtendsAppend(m, b, "[!] ");
    ExtendsAppend(m, m, "");
    assert b == m + "" || b == m + ("[" + l.examType + "] ");
    assert Marks(l) == b || Marks(l) == b + "[!] ";
    ExtendsAppend(m, b, "");
  }

  /**
   * The lessons of `generateLessons` carry `substitutionText` but no `substText`,
   * so an irregular or cancelled lesson always reads "No further information".
   */
  lemma SubstitutionTextNeverShown(data: Data, k: nat)
    requires k < |Generated(data, |data.timetable|).0|
    ensures Substitution(Generated(data, |data.timetable|).0[k]) == "No further information\n\n"
  {
    GeneratedBounds(data, |data.timetable|);
  }

  // ---------------------------------------------------------------------------
  // The jobs handed to the queue

  /** The arguments of one queued `uploadEvent` call. */
  datatype Job = Job(id: string, fields: Fields, timeOut: real)

  function AllDay(millis: int): Option<When> {
    Some(When(None, Some(millis)))
  }

  /**
   * A holiday: `endDate.setDate(endDate.getDate() + 1)`, formatted as a date and read
   * back by `new Date(...)` as that day's midnight.
   */
  function HolidayJob(h: Holiday): Job {
    Job(HolidayId(h.id),
        Fields(Some(h.name), Some("<b>Holidays</b>\n" + h.days), None, Some("transparent"), Some("4"),
               AllDay(Midnight(DayOf(h.start))), AllDay(Midnight(DayOf(h.end) + 1))),
        1.0)
  }

  /** The news title: the subject, else the text, cut to 28 characters and `...` from 30 on. */
  function NewsTitle(m: Message): (t: string)
    ensures m.subject != "" ==> t == m.subject
    ensures m.subject == "" ==>
              |t| <= 31 && (t == m.text || (|m.text| >= 30 && |t| == 31 && t[..28] == m.text[..28] && t[28..] == "..."))
    ensures m.subject == "" && |m.text| < 30 ==> t == m.text
  {
    if m.subject != "" then m.subject
    else if |m.text| < 30 then m.text
    else m.text[..28] + "..."
  }

  /** A news message, on its day, with a first `timeOut` of 2. */
  function NewsJob(date: int, m: Message): Job {
    var local := FromMillis(date);
    Job(NewsId(local.month + 1, local.date, m.id),
        Fields(Some(NewsTitle(m)), Some("<b>Message of the day</b>\n" + m.text), None, Some("transparent"), Some("2"),
               AllDay(Midnight(DayOf(date))), AllDay(Midnight(DayOf(date)))),
        2.0)
  }

  function LessonFields(l: Lesson): Fields {
    Fields(Some(Title(l)), Some(Description(l)), Some(""),
           if l.details.cancelled then Some("transparent") else None, Color(l),
           Some(When(Some(l.start), None)), Some(When(Some(l.end), None)))
  }

  function LessonJob(l: Lesson): Job {
    Job(LessonId(l.id), LessonFields(l), 1.0)
  }

  function HolidayJobs(hs: seq<Holiday>): seq<Job> {
    seq(|hs|, i requires 0 <= i < |hs| => HolidayJob(hs[i]))
  }

  function LessonJobs(ls: seq<Lesson>): seq<Job> {
    Map(LessonJob, ls)
  }

  /** `f` applied to each element of `s`, in order. */
  function Map<A, B>(f: A -> B, s: seq<A>): seq<B> {
    seq(|s|, i requires 0 <= i < |s| => f(s[i]))
  }

  /** Mapping distributes over concatenation. */
  lemma MapAppend<A, B>(f: A -> B, s: seq<A>, t: seq<A>)
    ensures Map(f, s + t) == Map(f, s) + Map(f, t)
  {
    var m := Map(f, s + t);
    forall k | 0 <= k < |m|
      ensures m[k] == (Map(f, s) + Map(f, t))[k]
    {
      if k < |s| {
        assert (s + t)[k] == s[k];
      } else {
        assert (s + t)[k] == t[k - |s|];
      }
    }
  }

  function DayJobs(day: NewsDay): seq<Job> {
    seq(|day.messages|, k requires 0 <= k < |day.messages| => NewsJob(day.date, day.messages[k]))
  }

  function NewsJobs(days: seq<NewsDay>): seq<Job> {
    if days == [] then [] else NewsJobs(days[..|days| - 1]) + DayJobs(days[|days| - 1])
  }

  /** One `queue(...)` call: the job joins the queue; a stored waiter stays stored. */
  method Hand(queue: TaskQueue<Job>, job: Job)
    requires queue.Valid()
    modifies queue
    ensures queue.Valid() && queue.enqueued == old(queue.enqueued) + [job]
    ensures queue.resolveEmpty == old(queue.resolveEmpty)
  {
    var _ := queue.Enqueue(job);
  }

  /** `uploadHolidays`: one queued job per holiday, in order; the returned `tasks` stays empty. */
  method UploadHolidays(holidays: seq<Holiday>, queue: TaskQueue<Job>) returns (tasks: seq<Job>)
    requires queue.Valid()
    modifies queue
    ensures queue.Valid() && tasks == []
    ensures queue.enqueued == old(queue.enqueued) + HolidayJobs(holidays)
    ensures queue.resolveEmpty == old(queue.resolveEmpty)
  {
    tasks := [];
    for i := 0 to |holidays|
      invariant queue.Valid() && queue.resolveEmpty == old(queue.resolveEmpty)
      invariant queue.enqueued == old(queue.enqueued) + HolidayJobs(holidays)[..i]
    {
      Hand(queue, HolidayJob(holidays[i]));
      TakeOneMore(HolidayJobs(holidays), i);
    }
    assert HolidayJobs(holidays)[..|holidays|] == HolidayJobs(holidays);
  }

  /**
   * An element of the list `uploadNews` iterates: a news day, or a flattened
   * message (the message's own keys plus `start` and `end`), whose `messages` is
   * `undefined`.
   */
  datatype NewsEntry = DayEntry(day: NewsDay) | ItemEntry(item: NewsItem)

  /** The list backend/index.js hands `uploadNews`: its flattened messages. */
  function ItemEntries(items: seq<NewsItem>): seq<NewsEntry> {
    Map((i: NewsItem) => ItemEntry(i), items)
  }

  /** The position of the first flattened message, or `|news|` when every entry is a day. */
  function FirstItem(news: seq<NewsEntry>): (k: nat)
    ensures k <= |news|
    ensures forall i :: 0 <= i < k ==> news[i].DayEntry?
    ensures k < |news| ==> news[k].ItemEntry?
  {
    if news == [] || news[0].ItemEntry? then 0 else 1 + FirstItem(news[1..])
  }

  /** The days of a list of day entries. */
  function DaysOf(news: seq<NewsEntry>): seq<NewsDay>
    requires forall i :: 0 <= i < |news| ==> news[i].DayEntry?
  {
    seq(|news|, i requires 0 <= i < |news| => news[i].day)
  }

  /**
   * `uploadNews`: for each day, one queued job per message, in order. An entry
   * that is not a day has no `messages`, and `for (const message of
   * day.messages)` throws a TypeError there (`thrown`), leaving the jobs of the
   * days before it queued.
   */
  method UploadNews(news: seq<NewsEntry>, queue: TaskQueue<Job>) returns (tasks: seq<Job>, thrown: bool)
    requires queue.Valid()
    modifies queue
    ensures queue.Valid() && tasks == []
    ensures thrown <==> FirstItem(news) < |news|
    ensures queue.enqueued == old(queue.enqueued) + NewsJobs(DaysOf(news[..FirstItem(news)]))
    ensures queue.resolveEmpty == old(queue.resolveEmpty)
  {
    tasks := [];
    thrown := false;
    assert DaysOf(news[..0]) == [];
    for i := 0 to |news|
      invariant i <= FirstItem(news)
      invariant queue.Valid() && queue.resolveEmpty == old(queue.resolveEmpty)
      invariant queue.enqueued == old(queue.enqueued) + NewsJobs(DaysOf(news[..i]))
    {
      match news[i]
      case ItemEntry(_) =>
        thrown := true;
        return;
      case DayEntry(day) =>
        QueueDay(day, queue);
        DaysOfStep(news, i);
        AppendAssociative(old(queue.enqueued), NewsJobs(DaysOf(news[..i])), DayJobs(day));
    }
    assert news[..|news|] == news;
  }

  /** One more day entry adds that day's jobs. */
  lemma DaysOfStep(news: seq<NewsEntry>, i: nat)
    requires i < |news| && forall k :: 0 <= k <= i ==> news[k].DayEntry?
    ensures NewsJobs(DaysOf(news[..i + 1])) == NewsJobs(DaysOf(news[..i])) + DayJobs(news[i].day)
  {
    var ds := DaysOf(news[..i + 1]);
    assert ds[..i] == DaysOf(news[..i]);
    assert ds[..i + 1] == ds;
    NewsJobsStep(ds, i);
  }

  /** The inner loop of `uploadNews`: one queued job per message of the day, in order. */
  method QueueDay(day: NewsDay, queue: TaskQueue<Job>)
    requires queue.Valid()
    modifies queue
    ensures queue.Valid() && queue.enqueued == old(queue.enqueued) + DayJobs(day)
    ensures queue.resolveEmpty == old(queue.resolveEmpty)
  {
    var jobs := DayJobs(day);
    for k := 0 to |jobs|
      invariant queue.Valid() && queue.resolveEmpty == old(queue.resolveEmpty)
      invariant queue.enqueued == old(queue.enqueued) + jobs[..k]
    {
      Hand(queue, jobs[k]);
      TakeOneMore(jobs, k);
    }
    assert jobs[..|jobs|] == jobs;
  }

  /** `uploadLessons`: one queued job per lesson, its fields from `generateFields`. */
  method UploadLessons(lessons: seq<Lesson>, queue: TaskQueue<Job>) returns (tasks: seq<Job>)
    requires queue.Valid()
    modifies queue
    ensures queue.Valid() && tasks == []
    ensures queue.enqueued == old(queue.enqueued) + LessonJobs(lessons)
    ensures queue.resolveEmpty == old(queue.resolveEmpty)
  {
    tasks := [];
    assert lessons[..0] == [];
    for i := 0 to |lessons|
      invariant queue.Valid() && queue.resolveEmpty == old(queue.resolveEmpty)
      invariant queue.enqueued == old(queue.enqueued) + LessonJobs(lessons[..i])
    {
      QueueLesson(lessons[i], queue);
      assert lessons[..i + 1] == lessons[..i] + [lessons[i]];
      MapAppend(LessonJob, lessons[..i], [lessons[i]]);
      AppendAssociative(old(queue.enqueued), LessonJobs(lessons[..i]), LessonJobs([lessons[i]]));
    }
    assert lessons[..|lessons|] == lessons;
  }

  /** The body of `uploadLessons`' loop: the fields of `generateFields` with the lesson's times. */
  method QueueLesson(l: Lesson, queue: TaskQueue<Job>)
    requires queue.Valid()
    modifies queue
    ensures queue.Valid() && queue.enqueued == old(queue.enqueued) + LessonJobs([l])
    ensures queue.resolveEmpty == old(queue.resolveEmpty)
  {
    var f := GenerateFields(l);
    var event := f.(start := Some(When(Some(l.start), None)), end := Some(When(Some(l.end), None)));
    Hand(queue, Job(LessonId(l.id), event, 1.0));
    assert LessonJobs([l]) == [LessonJob(l)];
  }

  lemma TakeOneMore<T>(s: seq<T>, i: nat)
    requires i < |s|
    ensures s[..i + 1] == s[..i] + [s[i]]
  {
  }

  lemma NewsJobsStep(news: seq<NewsDay>, i: nat)
    requires i < |news|
    ensures NewsJobs(news[..i + 1]) == NewsJobs(news[..i]) + DayJobs(news[i])
  {
    assert news[..i + 1][..i] == news[..i];
  }

  /** One news job per message, none lost or added. */
  lemma {:induction false} NewsJobsCount(days: seq<NewsDay>)
    ensures |NewsJobs(days)| == MessageCount(days)
  {
    if days != [] {
      NewsJobsCount(days[..|days| - 1]);
    }
  }

  /** Holidays with distinct ids, and lessons with distinct ids, get distinct event ids. */
  lemma DistinctIds(hs: seq<Holiday>, ls: seq<Lesson>)
    requires forall i, j :: 0 <= i < j < |hs| ==> hs[i].id != hs[j].id
    requires forall i, j :: 0 <= i < j < |ls| ==> ls[i].id != ls[j].id
    ensures forall i, j :: 0 <= i < j < |hs| ==> HolidayJobs(hs)[i].id != HolidayJobs(hs)[j].id
    ensures forall i, j :: 0 <= i < j < |ls| ==> LessonJobs(ls)[i].id != LessonJobs(ls)[j].id
    ensures forall i, j :: 0 <= i < |hs| && 0 <= j < |ls| ==> HolidayJobs(hs)[i].id != LessonJobs(ls)[j].id
  {
    forall i, j | 0 <= i < j < |hs| ensures HolidayJobs(hs)[i].id != HolidayJobs(hs)[j].id {
      if HolidayId(hs[i].id) == HolidayId(hs[j].id) {
        HolidayIdInjective(hs[i].id, hs[j].id);
      }
    }
    forall i, j | 0 <= i < j < |ls| ensures LessonJobs(ls)[i].id != LessonJobs(ls)[j].id {
      assert LessonJobs(ls)[i] == LessonJob(ls[i]) && LessonJobs(ls)[j] == LessonJob(ls[j]);
      if LessonId(ls[i].id) == LessonId(ls[j].id) {
        LessonIdInjective(ls[i].id, ls[j].id);
      }
    }
    forall i, j | 0 <= i < |hs| && 0 <= j < |ls| ensures HolidayJobs(hs)[i].id != LessonJobs(ls)[j].id {
      assert LessonJobs(ls)[j] == LessonJob(ls[j]);
      KindsNeverCollide(hs[i].id, ls[j].id, 0, 0, 0);
    }
  }

  /**
   * `fetchHolidays` already moves the end one day on and `uploadHolidays` does it
   * again, so the event ends two days after the holiday's last day.
   */
  lemma HolidayEndMovedTwice(raw: RawHoliday)
    ensures HolidayJob(HolidayOf(raw)).fields.end == AllDay(Midnight(DayOf(UntisDate(raw.endDate)) + 2))
  {
    var b := DaysFromCivil(raw.endDate / 10000, (raw.endDate / 100) % 100, raw.endDate % 100);
    assert UntisDate(raw.endDate) + MillisPerDay == (b + 1) * MillisPerDay;
    assert DayOf((b + 1) * MillisPerDay) == b + 1;
    assert DayOf(b * MillisPerDay) == b;
  }

  /** Every job supplies a description, so re-uploading it right after a write skips. */
  lemma JobsDescribe(h: Holiday, date: int, m: Message, l: Lesson)
    ensures HolidayJob(h).fields.description.Some? && HolidayJob(h).timeOut == 1.0
    ensures NewsJob(date, m).fields.description.Some? && NewsJob(date, m).timeOut == 2.0
    ensures LessonJob(l).fields.description.Some? && LessonJob(l).timeOut == 1.0
  {
  }

  // ---------------------------------------------------------------------------
  // `uploadNews` on the flattened news

  /**
   * Handed the flattened news, as backend/index.js does, `uploadNews` throws on
   * the first element, so it throws exactly when some news day has a message,
   * and it queues no news job either way.
   */
  lemma NewsUploadThrows(days: seq<NewsDay>)
    ensures var entries := ItemEntries(Flatten(days));
      (FirstItem(entries) < |entries| <==> MessageCount(days) > 0)
      && DaysOf(entries[..FirstItem(entries)]) == []
  {
    FlattenFacts(days);
    FlatEntriesThrow(Flatten(days));
  }

  /** A list of flattened messages has no day before its first message. */
  lemma FlatEntriesThrow(items: seq<NewsItem>)
    ensures var entries := ItemEntries(items);
      FirstItem(entries) == 0 && |entries| == |items| && DaysOf(entries[..0]) == []
  {
    var entries := ItemEntries(items);
    if entries != [] {
      assert entries[0].ItemEntry?;
    }
  }

  /** One news job per flattened message: its message on its `start` day. */
  function ItemJob(item: NewsItem): Job {
    NewsJob(item.start, item.message)
  }

  function ItemJobs(items: seq<NewsItem>): seq<Job> {
    Map(ItemJob, items)
  }

  /**
   * `uploadNews` reading the flattened messages it is handed, each on the day in
   * its `start`: one queued job per message, in order.
   */
  method UploadNewsItems(items: seq<NewsItem>, queue: TaskQueue<Job>) returns (tasks: seq<Job>)
    requires queue.Valid()
    modifies queue
    ensures queue.Valid() && tasks == []
    ensures queue.enqueued == old(queue.enqueued) + ItemJobs(items)
    ensures queue.resolveEmpty == old(queue.resolveEmpty)
  {
    tasks := [];
    var jobs := ItemJobs(items);
    for i := 0 to |jobs|
      invariant queue.Valid() && queue.resolveEmpty == old(queue.resolveEmpty)
      invariant queue.enqueued == old(queue.enqueued) + jobs[..i]
    {
      Hand(queue, jobs[i]);
      TakeOneMore(jobs, i);
    }
    assert jobs[..|jobs|] == jobs;
  }

  /** Reading the flattened messages queues exactly the jobs `uploadNews` queues for the days. */
  lemma {:induction false} ItemJobsOfFlatten(days: seq<NewsDay>)
    ensures ItemJobs(Flatten(days)) == NewsJobs(days)
  {
    if days != [] {
      var init, last := days[..|days| - 1], days[|days| - 1];
      ItemJobsOfFlatten(init);
      MapAppend(ItemJob, Flatten(init), Items(last));
      assert Map(ItemJob, Items(last)) == DayJobs(last) by {
        forall k | 0 <= k < |last.messages|
          ensures Map(ItemJob, Items(last))[k] == DayJobs(last)[k]
        {
          assert Items(last)[k] == NewsItem(last.messages[k], last.date, last.date);
          assert Map(ItemJob, Items(last))[k] == ItemJob(Items(last)[k]);
        }
      }
    }
  }
}
