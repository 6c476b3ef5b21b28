/**
 * The calendar event identifiers both uploaders build (backend/google.js and
 * google.js use the same three templates): a fixed prefix per kind followed by the
 * WebUntis id, with month and day of month in front of the id for news.
 */
module EventIds {
  import opened Strings

  function HolidayId(id: int): string {
    "untisholi" + IntString(id)
  }

  function LessonId(id: int): string {
    "untisless" + IntString(id)
  }

  /** `untismotd${month}m${day}d${id}`, with month 1..12 as `getMonth() + 1` gives it. */
  function NewsId(month: int, day: int, id: int): string {
    "untismotd" + (IntString(month) + ("m" + (IntString(day) + ("d" + IntString(id)))))
  }

  /** Identifiers of different kinds never collide: the prefixes differ at index 5. */
  lemma KindsNeverCollide(a: int, b: int, month: int, day: int, c: int)
    ensures HolidayId(a) != LessonId(b)
    ensures HolidayId(a) != NewsId(month, day, c)
    ensures LessonId(b) != NewsId(month, day, c)
  {
    assert HolidayId(a)[5] == 'h';
    assert LessonId(b)[5] == 'l';
    assert NewsId(month, day, c)[5] == 'm';
  }

  lemma HolidayIdInjective(a: int, b: int)
    requires HolidayId(a) == HolidayId(b)
    ensures a == b
  {
    assert HolidayId(a)[9..] == IntString(a);
    assert HolidayId(b)[9..] == IntString(b);
    IntStringInjective(a, b);
  }

  lemma LessonIdInjective(a: int, b: int)
    requires LessonId(a) == LessonId(b)
    ensures a == b
  {
    assert LessonId(a)[9..] == IntString(a);
    assert LessonId(b)[9..] == IntString(b);
    IntStringInjective(a, b);
  }

  /**
   * A news identifier determines month, day and id: the decimal spellings contain
   * neither `m` nor `d`, so the markers are found again.
   */
  lemma NewsIdInjective(m1: int, d1: int, i1: int, m2: int, d2: int, i2: int)
    requires NewsId(m1, d1, i1) == NewsId(m2, d2, i2)
    ensures m1 == m2 && d1 == d2 && i1 == i2
  {
    var rest1 := IntString(d1) + ("d" + IntString(i1));
    var rest2 := IntString(d2) + ("d" + IntString(i2));
    assert NewsId(m1, d1, i1)[9..] == IntString(m1) + ("m" + rest1);
    assert NewsId(m2, d2, i2)[9..] == IntString(m2) + ("m" + rest2);
    IntStringHasNoLetter(m1, 'm');
    IntStringHasNoLetter(m2, 'm');
    SplitAtMarker(IntString(m1), rest1, IntString(m2), rest2, 'm');
    IntStringHasNoLetter(d1, 'd');
    IntStringHasNoLetter(d2, 'd');
    SplitAtMarker(IntString(d1), IntString(i1), IntString(d2), IntString(i2), 'd');
    IntStringInjective(m1, m2);
    IntStringInjective(d1, d2);
    IntStringInjective(i1, i2);
  }
}
