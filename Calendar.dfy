/**
 * The event upload decision and its retry loops, shared by backend/google.js and
 * the older google.js: read the stored event, classify its `untisversion` tag,
 * compare field by field, then update, create, skip, back off or give up.
 *
 * The two files differ in three places, chosen by `Variant`:
 *   - the comparison: backend/google.js uses `equal` on nine fields, google.js `===`
 *     on seven;
 *   - the back-off: x1.5 up to 900 s against x2 up to 60 s;
 *   - `createEvent` tags the new event with `untisversion: '1'` only in the backend.
 *
 * The remote calendar is a value: a map from event id to stored event and a
 * script of faults that the next calls raise.
 */
module Calendar {
  import opened Maybe
  import opened Utils

  datatype Variant = Backend | Legacy

  /** What `new Date(x).getTime()` returns: NaN or an instant in ms. */
  datatype Millis = NaN | Time(ms: int)

  /** The JavaScript values the comparisons see. */
  datatype JsValue = Undefined | Str(s: string) | Num(n: Millis)

  /** `x === y`: NaN is unequal to everything, itself included. */
  predicate StrictEquals(x: JsValue, y: JsValue) {
    match (x, y)
    case (Undefined, Undefined) => true
    case (Str(a), Str(b)) => a == b
    case (Num(Time(a)), Num(Time(b))) => a == b
    case _ => false
  }

  /** backend/google.js `equal`: `===`, or both NaN, or `undefined` against `''`. */
  predicate Equal(x: JsValue, y: JsValue) {
    || StrictEquals(x, y)
    || (x == Num(NaN) && y == Num(NaN))
    || (x == Undefined && y == Str(""))
    || (x == Str("") && y == Undefined)
  }

  lemma EqualSymmetric(x: JsValue, y: JsValue)
    ensures Equal(x, y) == Equal(y, x)
  {
  }

  /** `equal` is reflexive on every value, NaN included, where `===` is not. */
  lemma EqualReflexive(x: JsValue)
    ensures Equal(x, x)
    ensures StrictEquals(x, x) <==> x != Num(NaN)
  {
  }

  /** Apart from NaN, the only values `equal` identifies are `undefined` and `''`. */
  lemma EqualClasses(x: JsValue, y: JsValue)
    ensures Equal(x, y) <==> x == y || {x, y} == {Undefined, Str("")}
  {
    if {x, y} == {Undefined, Str("")} {
      assert x in {Undefined, Str("")};
    }
  }

  lemma EqualOfUndefined(y: JsValue)
    ensures Equal(Undefined, y) <==> y == Undefined || y == Str("")
  {
  }

  /** `equal` is transitive too, so it is an equivalence. */
  lemma EqualTransitive(x: JsValue, y: JsValue, z: JsValue)
    requires Equal(x, y) && Equal(y, z)
    ensures Equal(x, z)
  {
  }

  /** The `start`/`end` object of an event: `dateTime` and `date`, read as instants. */
  datatype When = When(dateTime: Option<int>, date: Option<int>)

  /**
   * A stored event: the properties the comparison reads, `undefined` as `None`;
   * `version` is `extendedProperties.private.untisversion`, `None` when any level
   * of that path is missing.
   */
  datatype Event = Event(
    summary: Option<string>,
    description: Option<string>,
    location: Option<string>,
    transparency: Option<string>,
    colorId: Option<string>,
    start: When,
    end: When,
    version: Option<string>)

  /** The properties an upload supplies; `None` is an absent key. */
  datatype Fields = Fields(
    summary: Option<string>,
    description: Option<string>,
    location: Option<string>,
    transparency: Option<string>,
    colorId: Option<string>,
    start: Option<When>,
    end: Option<When>)

  function Value(o: Option<string>): JsValue {
    if o.Some? then Str(o.value) else Undefined
  }

  function GetTime(o: Option<int>): JsValue {
    if o.Some? then Num(Time(o.value)) else Num(NaN)
  }

  /** `x.description + '...'`: `undefined` turns into the text "undefined". */
  function Text(o: Option<string>): string {
    if o.Some? then o.value else "undefined"
  }

  /** The footer every write appends. */
  function Footer(stamp: string): string {
    "\n\n<i>Synced with WebUntis at " + stamp + "</i>"
  }

  const FooterStrip := 52

  /** `d.substring(0, d.length - 52)`; a negative end counts as 0. */
  function StripFooter(d: string): (r: string)
    ensures |r| == if |d| >= FooterStrip then |d| - FooterStrip else 0
    ensures r == d[..|r|]
  {
    if |d| >= FooterStrip then d[..|d| - FooterStrip] else ""
  }

  /** With a 19-character stamp the footer is exactly the 52 characters stripped. */
  lemma StripFooterRecovers(d: string, stamp: string)
    requires |stamp| == 19
    ensures |Footer(stamp)| == FooterStrip
    ensures StripFooter(d + Footer(stamp)) == d
  {
    assert |"\n\n<i>Synced with WebUntis at "| == 29;
    assert |Footer(stamp)| == 29 + 19 + 4;
    assert (d + Footer(stamp))[..|d|] == d;
  }

  datatype VersionClass = Unspecified | VersionOne | Unknown(tag: string)

  /** `!untisversion` is also true of the empty string. */
  function ClassifyVersion(v: Option<string>): (c: VersionClass)
    ensures c == VersionOne <==> v == Some("1")
    ensures c == Unspecified <==> v == None || v == Some("")
  {
    if v.None? || v.value == "" then Unspecified
    else if v.value == "1" then VersionOne
    else Unknown(v.value)
  }

  /** `{...stored, ...properties, extendedProperties: {private: {untisversion: '1'}}}`. */
  function Merge(stored: Event, p: Fields): (e: Event)
    ensures e.version == Some("1")
  {
    Event(
      if p.summary.Some? then p.summary else stored.summary,
      if p.description.Some? then p.description else stored.description,
      if p.location.Some? then p.location else stored.location,
      if p.transparency.Some? then p.transparency else stored.transparency,
      if p.colorId.Some? then p.colorId else stored.colorId,
      p.start.GetOr(stored.start),
      p.end.GetOr(stored.end),
      Some("1"))
  }

  /** backend/google.js: the nine `equal` comparisons. */
  predicate SameBackend(stored: Event, description: Option<string>, e: Event) {
    && Equal(Value(stored.summary), Value(e.summary))
    && Equal(Value(description), Value(e.description))
    && Equal(Value(stored.location), Value(e.location))
    && Equal(Value(stored.transparency), Value(e.transparency))
    && Equal(Value(stored.colorId), Value(e.colorId))
    && Equal(GetTime(stored.start.dateTime), GetTime(e.start.dateTime))
    && Equal(GetTime(stored.end.dateTime), GetTime(e.end.dateTime))
    && Equal(GetTime(stored.start.date), GetTime(e.start.date))
    && Equal(GetTime(stored.end.date), GetTime(e.end.date))
  }

  /** google.js: seven `===` comparisons; `date` is not looked at. */
  predicate SameLegacy(stored: Event, description: Option<string>, e: Event) {
    && StrictEquals(Value(stored.summary), Value(e.summary))
    && StrictEquals(Value(description), Value(e.description))
    && StrictEquals(Value(stored.colorId), Value(e.colorId))
    && StrictEquals(Value(stored.transparency), Value(e.transparency))
    && StrictEquals(Value(stored.location), Value(e.location))
    && StrictEquals(GetTime(stored.start.dateTime), GetTime(e.start.dateTime))
    && StrictEquals(GetTime(stored.end.dateTime), GetTime(e.end.dateTime))
  }

  /**
   * What `uploadEvent` does with a fetched event: `Crash` is the TypeError of
   * `substring` on a missing description, caught and logged like any error.
   */
  datatype Decision = Skip | Rewrite(body: Event) | Crash

  function Decide(v: Variant, stored: Event, p: Fields): Decision {
    var c := ClassifyVersion(stored.version);
    if c == VersionOne && stored.description.None? then Crash
    else
      var description :=
        if c == VersionOne then Some(StripFooter(stored.description.value)) else stored.description;
      // google.js strips in place, so its merged body starts from the stripped text
      var base := if v == Legacy then stored.(description := description) else stored;
      var e := Merge(base, p);
      var same := if v == Backend then SameBackend(stored, description, e)
                  else SameLegacy(stored, description, e);
      if same && c == VersionOne then Skip else Rewrite(e)
  }

  /** `body` carries every property `p` supplies and the version tag '1'. */
  predicate Agrees(body: Event, p: Fields) {
    && body.version == Some("1")
    && (p.summary.Some? ==> body.summary == p.summary)
    && (p.description.Some? ==> body.description == p.description)
    && (p.location.Some? ==> body.location == p.location)
    && (p.transparency.Some? ==> body.transparency == p.transparency)
    && (p.colorId.Some? ==> body.colorId == p.colorId)
    && (p.start.Some? ==> body.start == p.start.value)
    && (p.end.Some? ==> body.end == p.end.value)
  }

  /**
   * The decision: a missing or unknown tag always rewrites; the rewritten body is
   * tagged '1' and takes every supplied property over the stored one; a TypeError
   * happens exactly for a version-'1' event without description; otherwise a
   * version-'1' event is skipped exactly when the comparison holds.
   */
  lemma DecideCases(v: Variant, stored: Event, p: Fields)
    ensures ClassifyVersion(stored.version) != VersionOne ==> Decide(v, stored, p).Rewrite?
    ensures Decide(v, stored, p) == Crash <==> stored.version == Some("1") && stored.description.None?
    ensures Decide(v, stored, p).Rewrite? ==> Agrees(Decide(v, stored, p).body, p)
    ensures stored.version == Some("1") && stored.description.Some? ==>
      var d := Some(StripFooter(stored.description.value));
      var e := Merge(if v == Legacy then stored.(description := d) else stored, p);
      (Decide(v, stored, p) == Skip <==>
        if v == Backend then SameBackend(stored, d, e) else SameLegacy(stored, d, e))
  {
  }

  /**
   * Uploading the same properties again right after a successful update changes
   * nothing in backend/google.js: the stored event reads back as equal. In google.js
   * it does so only for timed events, since `NaN === NaN` fails when `dateTime` is
   * missing, so all-day events (holidays, news) are rewritten on every run.
   */
  lemma UpdatedIsStable(body: Event, p: Fields, now: LocalDate)
    requires Ordinary(now) && Agrees(body, p) && p.description.Some?
    ensures Decide(Backend, WithFooter(body, FormatToLocalISO(now)), p) == Skip
    ensures Decide(Legacy, WithFooter(body, FormatToLocalISO(now)), p) == Skip <==>
              body.start.dateTime.Some? && body.end.dateTime.Some?
  {
    StampLength(now);
    RereadAfterWrite(Backend, body, p, FormatToLocalISO(now));
    RereadAfterWrite(Legacy, body, p, FormatToLocalISO(now));
  }

  lemma RereadAfterWrite(v: Variant, body: Event, p: Fields, stamp: string)
    requires |stamp| == 19 && Agrees(body, p) && p.description.Some?
    ensures v == Backend ==> Decide(v, WithFooter(body, stamp), p) == Skip
    ensures v == Legacy ==>
      (Decide(v, WithFooter(body, stamp), p) == Skip <==> body.start.dateTime.Some? && body.end.dateTime.Some?)
  {
    var w := WithFooter(body, stamp);
    var text := p.description.value;
    StripFooterRecovers(text, stamp);
    assert w.description == Some(text + Footer(stamp));
    var d := Some(text);
    var e := Merge(if v == Legacy then w.(description := d) else w, p);
    assert e == body;
    EqualReflexive(GetTime(body.start.dateTime));
    EqualReflexive(GetTime(body.end.dateTime));
    EqualReflexive(GetTime(body.start.date));
    EqualReflexive(GetTime(body.end.date));
    DecideCases(v, w, p);
  }

  /** google.js compares `dateTime` only: an all-day event is never found unchanged. */
  lemma LegacySkipNeedsTimes(stored: Event, p: Fields)
    ensures Decide(Legacy, stored, p) == Skip ==>
              stored.start.dateTime.Some? && stored.end.dateTime.Some?
  {
  }

  lemma StampLength(now: LocalDate)
    requires Ordinary(now)
    ensures |FormatToLocalISO(now)| == 19
  {
    FormatLengths(now);
  }

  /**
   * The same holds after a create in backend/google.js; the events google.js creates
   * carry no version tag, so its next run always rewrites them.
   */
  lemma CreatedIsStable(p: Fields, now: LocalDate)
    requires Ordinary(now) && p.description.Some?
    ensures Decide(Backend, Created(Backend, p, FormatToLocalISO(now)), p) == Skip
    ensures Decide(Legacy, Created(Legacy, p, FormatToLocalISO(now)), p).Rewrite?
  {
    var stamp := FormatToLocalISO(now);
    StampLength(now);
    var c := Created(Backend, p, stamp);
    var body := c.(description := p.description);
    assert c == WithFooter(body, stamp);
    RereadAfterWrite(Backend, body, p, stamp);
  }

  // ---------------------------------------------------------------------------
  // The remote calendar

  /** A scripted fault the next remote call raises; `Pass` lets the call act on the map. */
  datatype Fault = Pass | Status(code: int)

  datatype Api = Api(events: map<string, Event>, faults: seq<Fault>)

  function NextFault(api: Api): Fault {
    if api.faults == [] then Pass else api.faults[0]
  }

  function Consume(api: Api): Api {
    if api.faults == [] then api else api.(faults := api.faults[1..])
  }

  /** `events.get`: 404 for a missing id. */
  function Get(api: Api, id: string): (r: (Api, Result<Event, int>))
    ensures r.0.events == api.events
  {
    var f := NextFault(api);
    var a := Consume(api);
    if f.Status? then (a, Err(f.code))
    else if id in api.events then (a, Ok(api.events[id]))
    else (a, Err(404))
  }

  /** `events.update`: 404 for a missing id, otherwise the body is stored. */
  function Update(api: Api, id: string, body: Event): (r: (Api, Option<int>))
    ensures r.1.None? ==> id in api.events && r.0.events == api.events[id := body]
    ensures r.1.Some? ==> r.0.events == api.events
  {
    var f := NextFault(api);
    var a := Consume(api);
    if f.Status? then (a, Some(f.code))
    else if id !in api.events then (a, Some(404))
    else (a.(events := api.events[id := body]), None)
  }

  /** `events.insert`: 409 when the id is taken, otherwise the body is stored. */
  function Insert(api: Api, id: string, body: Event): (r: (Api, Option<int>))
    ensures r.1.None? ==> id !in api.events && r.0.events == api.events[id := body]
    ensures r.1.Some? ==> r.0.events == api.events
  {
    var f := NextFault(api);
    var a := Consume(api);
    if f.Status? then (a, Some(f.code))
    else if id in api.events then (a, Some(409))
    else (a.(events := api.events[id := body]), None)
  }

  // ---------------------------------------------------------------------------
  // Back-off

  /** `timeOut * 1.5` in backend/google.js, `timeOut * 2` in google.js. */
  function Next(v: Variant, t: real): real {
    if v == Backend then t * 1.5 else t * 2.0
  }

  /** The retry loops give up once `timeOut` exceeds this many seconds. */
  function Cap(v: Variant): int {
    if v == Backend then 15 * 60 else 60
  }

  /** The `timeOut` of the `i`-th retry when the first call got `t0`. */
  function Wait(v: Variant, t0: real, i: nat): real {
    if i == 0 then t0 else Next(v, Wait(v, t0, i - 1))
  }

  predicate Transient(code: int) {
    code == 403 || code == 429
  }

  /** `sleeps` are the first waits of the schedule `t0, Next(t0), ...`, each within the cap. */
  predicate Schedule(v: Variant, t0: real, sleeps: seq<real>) {
    forall i :: 0 <= i < |sleeps| ==> sleeps[i] == Wait(v, t0, i) && sleeps[i] <= Cap(v) as real
  }

  /** The schedule has run out: the next wait would exceed the cap. */
  predicate Exhausted(v: Variant, t0: real, sleeps: seq<real>) {
    Schedule(v, t0, sleeps) && Wait(v, t0, |sleeps|) > Cap(v) as real
  }

  /** Every wait grows by at least half a second, so the loops end. */
  lemma {:induction false} WaitGrows(v: Variant, t0: real, n: nat)
    requires t0 >= 1.0
    ensures Wait(v, t0, n) >= t0 + (n as real) / 2.0
  {
    if n > 0 {
      WaitGrows(v, t0, n - 1);
    }
  }

  /** One more wait within the cap keeps the schedule and leaves room under the bound. */
  lemma ScheduleStep(v: Variant, t0: real, sleeps: seq<real>, t: real)
    requires t0 >= 1.0 && Schedule(v, t0, sleeps)
    requires t == Wait(v, t0, |sleeps|) && t <= Cap(v) as real
    ensures Schedule(v, t0, sleeps + [t])
    ensures Next(v, t) == Wait(v, t0, |sleeps + [t]|)
    ensures |sleeps| + 1 <= 2 * Cap(v)
  {
    var n, s' := |sleeps|, sleeps + [t];
    WaitGrows(v, t0, n);
    forall i | 0 <= i < |s'|
      ensures s'[i] == Wait(v, t0, i) && s'[i] <= Cap(v) as real
    {
      if i < n {
        assert s'[i] == sleeps[i];
      }
    }
  }

  lemma {:induction false} WaitMonotone(v: Variant, t0: real, i: nat, j: nat)
    requires t0 >= 1.0 && i <= j
    ensures Wait(v, t0, i) <= Wait(v, t0, j)
    decreases j
  {
    if i < j {
      WaitMonotone(v, t0, i, j - 1);
      WaitGrows(v, t0, j - 1);
    }
  }

  /** When the `n`-th wait is the first above the cap, an exhausted schedule has exactly `n` waits. */
  lemma ExhaustedLength(v: Variant, t0: real, sleeps: seq<real>, n: nat)
    requires t0 >= 1.0 && n >= 1
    requires Wait(v, t0, n - 1) <= Cap(v) as real < Wait(v, t0, n)
    requires Exhausted(v, t0, sleeps)
    ensures |sleeps| == n
  {
    if |sleeps| < n {
      WaitMonotone(v, t0, |sleeps|, n - 1);
    }
  }

  /**
   * backend/google.js gives up after 17 waits when the first `timeOut` is 1
   * (1.5^16 is about 657, 1.5^17 about 985) and after 16 when it is 2, as for news.
   */
  lemma BackendRetryCounts(s1: seq<real>, s2: seq<real>)
    requires Exhausted(Backend, 1.0, s1) && Exhausted(Backend, 2.0, s2)
    ensures |s1| == 17 && |s2| == 16
  {
    assert Wait(Backend, 1.0, 0) == 1.0;
    assert Wait(Backend, 1.0, 1) == 3.0 / 2.0;
    assert Wait(Backend, 1.0, 2) == 9.0 / 4.0;
    assert Wait(Backend, 1.0, 3) == 27.0 / 8.0;
    assert Wait(Backend, 1.0, 4) == 81.0 / 16.0;
    assert Wait(Backend, 1.0, 5) == 243.0 / 32.0;
    assert Wait(Backend, 1.0, 6) == 729.0 / 64.0;
    assert Wait(Backend, 1.0, 7) == 2187.0 / 128.0;
    assert Wait(Backend, 1.0, 8) == 6561.0 / 256.0;
    assert Wait(Backend, 1.0, 9) == 19683.0 / 512.0;
    assert Wait(Backend, 1.0, 10) == 59049.0 / 1024.0;
    assert Wait(Backend, 1.0, 11) == 177147.0 / 2048.0;
    assert Wait(Backend, 1.0, 12) == 531441.0 / 4096.0;
    assert Wait(Backend, 1.0, 13) == 1594323.0 / 8192.0;
    assert Wait(Backend, 1.0, 14) == 4782969.0 / 16384.0;
    assert Wait(Backend, 1.0, 15) == 14348907.0 / 32768.0;
    assert Wait(Backend, 1.0, 16) == 43046721.0 / 65536.0;
    assert Wait(Backend, 1.0, 17) == 129140163.0 / 131072.0;
    assert Wait(Backend, 2.0, 0) == 2.0;
    assert Wait(Backend, 2.0, 1) == 3.0;
    assert Wait(Backend, 2.0, 2) == 9.0 / 2.0;
    assert Wait(Backend, 2.0, 3) == 27.0 / 4.0;
    assert Wait(Backend, 2.0, 4) == 81.0 / 8.0;
    assert Wait(Backend, 2.0, 5) == 243.0 / 16.0;
    assert Wait(Backend, 2.0, 6) == 729.0 / 32.0;
    assert Wait(Backend, 2.0, 7) == 2187.0 / 64.0;
    assert Wait(Backend, 2.0, 8) == 6561.0 / 128.0;
    assert Wait(Backend, 2.0, 9) == 19683.0 / 256.0;
    assert Wait(Backend, 2.0, 10) == 59049.0 / 512.0;
    assert Wait(Backend, 2.0, 11) == 177147.0 / 1024.0;
    assert Wait(Backend, 2.0, 12) == 531441.0 / 2048.0;
    assert Wait(Backend, 2.0, 13) == 1594323.0 / 4096.0;
    assert Wait(Backend, 2.0, 14) == 4782969.0 / 8192.0;
    assert Wait(Backend, 2.0, 15) == 14348907.0 / 16384.0;
    assert Wait(Backend, 2.0, 16) == 43046721.0 / 32768.0;
    ExhaustedLength(Backend, 1.0, s1, 17);
    ExhaustedLength(Backend, 2.0, s2, 16);
  }

  function Sum(s: seq<real>): real {
    if s == [] then 0.0 else s[0] + Sum(s[1..])
  }

  /** google.js waits 1, 2, 4, 8, 16 and 32 seconds, 63 in all, before it gives up. */
  lemma LegacyRetrySchedule(s: seq<real>)
    requires Exhausted(Legacy, 1.0, s)
    ensures s == [1.0, 2.0, 4.0, 8.0, 16.0, 32.0] && Sum(s) == 63.0
  {
    assert Wait(Legacy, 1.0, 0) == 1.0;
    assert Wait(Legacy, 1.0, 1) == 2.0;
    assert Wait(Legacy, 1.0, 2) == 4.0;
    assert Wait(Legacy, 1.0, 3) == 8.0;
    assert Wait(Legacy, 1.0, 4) == 16.0;
    assert Wait(Legacy, 1.0, 5) == 32.0;
    assert Wait(Legacy, 1.0, 6) == 64.0;
    ExhaustedLength(Legacy, 1.0, s, 6);
    assert s[0] == 1.0 && s[1] == 2.0 && s[2] == 4.0 && s[3] == 8.0 && s[4] == 16.0 && s[5] == 32.0;
    assert Sum(s[5..]) == 32.0;
    assert Sum(s[4..]) == 48.0;
    assert Sum(s[3..]) == 56.0;
    assert Sum(s[2..]) == 60.0;
    assert Sum(s[1..]) == 62.0;
  }

  /** A write that reached the calendar stores the body with the footer appended. */
  function WithFooter(body: Event, stamp: string): Event {
    body.(description := Some(Text(body.description) + Footer(stamp)))
  }

  /** What `createEvent` stores: the properties with footer, tagged in the backend only. */
  function Created(v: Variant, p: Fields, stamp: string): Event {
    Event(p.summary, Some(Text(p.description) + Footer(stamp)), p.location, p.transparency,
          p.colorId, p.start.GetOr(When(None, None)), p.end.GetOr(When(None, None)),
          if v == Backend then Some("1") else None)
  }

  datatype Report = Skipped | Updated | Inserted | GaveUp | Dropped(code: Option<int>)

  /**
   * `updateEvent`: try the update; on 403/429 give up when `timeOut` exceeds the cap,
   * otherwise sleep `timeOut` seconds and retry with `timeOut * factor`; any other
   * error is logged and dropped.
   */
  method UpdateEvent(v: Variant, api: Api, id: string, body: Event, stamp: string, timeOut: real)
    returns (api': Api, sleeps: seq<real>, report: Report)
    requires timeOut >= 1.0
    ensures Schedule(v, timeOut, sleeps)
    ensures report == Updated || report == GaveUp || report.Dropped?
    ensures report == Updated ==> id in api.events && api'.events == api.events[id := WithFooter(body, stamp)]
    ensures report != Updated ==> api'.events == api.events
    ensures report == GaveUp ==> Exhausted(v, timeOut, sleeps)
    ensures report.Dropped? ==> report.code.Some? && !Transient(report.code.value)
  {
    var t := timeOut;
    api', sleeps := api, [];
    while true
      invariant api'.events == api.events
      invariant Schedule(v, timeOut, sleeps) && t == Wait(v, timeOut, |sleeps|)
      invariant |sleeps| <= 2 * Cap(v)
      decreases 2 * Cap(v) - |sleeps|
    {
      var r := Update(api', id, WithFooter(body, stamp));
      api' := r.0;
      if r.1.None? {
        report := Updated;
        return;
      }
      var code := r.1.value;
      if !Transient(code) {
        report := Dropped(Some(code));
        return;
      }
      if t > Cap(v) as real {
        report := GaveUp;
        return;
      }
      ScheduleStep(v, timeOut, sleeps, t);
      sleeps := sleeps + [t];
      t := Next(v, t);
    }
  }

  /** `createEvent`: the same loop around `events.insert`. */
  method CreateEvent(v: Variant, api: Api, id: string, p: Fields, stamp: string, timeOut: real)
    returns (api': Api, sleeps: seq<real>, report: Report)
    requires timeOut >= 1.0
    ensures Schedule(v, timeOut, sleeps)
    ensures report == Inserted || report == GaveUp || report.Dropped?
    ensures report == Inserted ==> id !in api.events && api'.events == api.events[id := Created(v, p, stamp)]
    ensures report != Inserted ==> api'.events == api.events
    ensures report == GaveUp ==> Exhausted(v, timeOut, sleeps)
    ensures report.Dropped? ==> report.code.Some? && !Transient(report.code.value)
  {
    var t := timeOut;
    api', sleeps := api, [];
    while true
      invariant api'.events == api.events
      invariant Schedule(v, timeOut, sleeps) && t == Wait(v, timeOut, |sleeps|)
      invariant |sleeps| <= 2 * Cap(v)
      decreases 2 * Cap(v) - |sleeps|
    {
      var r := Insert(api', id, Created(v, p, stamp));
      api' := r.0;
      if r.1.None? {
        report := Inserted;
        return;
      }
      var code := r.1.value;
      if !Transient(code) {
        report := Dropped(Some(code));
        return;
      }
      if t > Cap(v) as real {
        report := GaveUp;
        return;
      }
      ScheduleStep(v, timeOut, sleeps, t);
      sleeps := sleeps + [t];
      t := Next(v, t);
    }
  }

  /**
   * `uploadEvent`: fetch the stored event and decide; a 404 hands the properties to
   * one `createEvent` with a fresh `timeOut` of 1; 403/429 backs off and fetches
   * again; anything else is dropped. `sleeps` are its own waits, `inner` those of
   * the one update or create it ends in.
   */
  method UploadEvent(v: Variant, api: Api, id: string, p: Fields, stamp: string, timeOut: real)
    returns (api': Api, sleeps: seq<real>, inner: seq<real>, report: Report)
    requires timeOut >= 1.0
    ensures Schedule(v, timeOut, sleeps) && Schedule(v, 1.0, inner)
    ensures report == Skipped ==>
              id in api.events && Decide(v, api.events[id], p) == Skip && api'.events == api.events
    ensures report == Updated ==>
              id in api.events && Decide(v, api.events[id], p).Rewrite?
              && api'.events == api.events[id := WithFooter(Decide(v, api.events[id], p).body, stamp)]
    ensures report == Inserted ==> id !in api.events && api'.events == api.events[id := Created(v, p, stamp)]
    ensures report == Dropped(None) ==> id in api.events && Decide(v, api.events[id], p) == Crash && inner == []
    ensures report == GaveUp ==> (inner == [] && Exhausted(v, timeOut, sleeps)) || Exhausted(v, 1.0, inner)
    ensures report == GaveUp || report.Dropped? ==> api'.events == api.events
  {
    var t := timeOut;
    api', sleeps, inner := api, [], [];
    while true
      invariant api'.events == api.events && inner == []
      invariant Schedule(v, timeOut, sleeps) && t == Wait(v, timeOut, |sleeps|)
      invariant |sleeps| <= 2 * Cap(v)
      decreases 2 * Cap(v) - |sleeps|
    {
      var r := Get(api', id);
      api' := r.0;
      if r.1.Ok? {
        var d := Decide(v, r.1.value, p);
        if d == Skip {
          report := Skipped;
        } else if d == Crash {
          report := Dropped(None);
        } else {
          api', inner, report := UpdateEvent(v, api', id, d.body, stamp, 1.0);
        }
        return;
      }
      var code := r.1.error;
      if code == 404 {
        api', inner, report := CreateEvent(v, api', id, p, stamp, 1.0);
        return;
      }
      if !Transient(code) {
        report := Dropped(Some(code));
        return;
      }
      if t > Cap(v) as real {
        report := GaveUp;
        return;
      }
      ScheduleStep(v, timeOut, sleeps, t);
      sleeps := sleeps + [t];
      t := Next(v, t);
    }
  }
}
