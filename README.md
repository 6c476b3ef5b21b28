# WebUntisSync in Dafny

A model of the WebUntisSync core. WebUntisSync copies a pupil's WebUntis timetable into a Google calendar, one event per lesson, holiday and news message. The project models two generations of the code:

- **The backend** (`backend/`):
  - a per-minute scheduler that picks full and quick refreshes for each active user;
  - `refreshUser`, which runs one sync;
  - the configuration and user files, and the per-user log;
  - the WebUntis normalisation: school-year window, news days, holidays, lesson details, merging of consecutive lessons, and homework and exam attachment;
  - the Google uploader: event ids, field building, the skip/update/create decision with back-off, and the bounded task queue that runs these jobs.
- **The older single-file version** (`index.js`, `google.js`):
  - its scheduler, which refreshes everybody when the configuration changes;
  - its uploader, which uses strict equality, doubling back-off and sequential uploads.

The code has no listing of a calendar's events, no diffing, no deletion of stale events and no version-"2" tag, so the model has none of these either.

How the model represents things:

- **Time.** Instants are integer milliseconds in UTC.
- **Absent values.** JavaScript `undefined`/`null` become `Option`; errors become `Result`.
- **Remote services.** The remote calendar is a value: a map from event id to event, plus a script of faults the next calls raise.
- **Files, JSON and YAML.** These are parameters (parsed records, file lists, `read`, `parse`, `stringify`).
- **State changed in place is a class:**
  - the task queue;
  - the configuration store and its user records;
  - the older scheduler's `config`/`lastRefresh`.

Modules:

| module | models |
|---|---|
| `Maybe`, `Strings` | `Option`/`Result`; `split`/`join`, `parseInt`, decimal spelling |
| `Utils` | `backend/utils.js`: the date/time formatters, day arithmetic, `TaskQueue` |
| `EventIds` | the `untisholi…`, `untismotd…m…d…`, `untisless…` event ids of both uploaders |
| `Calendar` | `uploadEvent`/`updateEvent`/`createEvent` of both uploaders, `equal` and `===`, the footer, back-off |
| `Untis` | `backend/untis.js` |
| `Google` | `backend/google.js`: `generateFields`, the `upload*` loops |
| `LegacyGoogle` | `google.js`: its `generateFields` and sequential `upload*` |
| `Config` | `backend/config.js` |
| `Index` | `backend/index.js`: `cycle`, `refreshUser` |
| `Logs` | `backend/logs.js` |
| `LegacyIndex` | `index.js`: `cycle`, `loadConfig`; its `getRefreshProfile` is `Config.GetRefreshProfile` |

## Model

| member | source | states |
|---|---|---|
| Utils.FormatToLocalISOIsDateSpaceTime | backend/utils.js:1-26 | the full stamp is the date stamp, one space, and the time stamp |
| Utils.FormatLengths | backend/utils.js:1-26 | with getter values in range and a four-digit year, the stamps are 10, 8 and 19 characters long |
| Utils.DateStampFields | backend/utils.js:12-18 | the date stamp has 10 characters and its month and day fields read back as the getters' values (month plus one) |
| Utils.TimeStampFields | backend/utils.js:20-26 | the time stamp has 8 characters and its hour, minute and second fields read back as the getters' values |
| Utils.MidnightAndEndOfDay | backend/index.js:43-44 | the day's `setHours(0, 0, 0, 0)` is at or before the instant, and its `setHours(23, 59, 59, 999)` is at or after it |
| Utils.WeekDay | backend/index.js:40 | `getDay()` is one of 0..6 |
| Utils.TaskQueue.constructor | backend/utils.js:28-32 | a new queue is idle: no worker runs, no task waits, no waiter is stored |
| Utils.TaskQueue.Enqueue | backend/utils.js:34-41 | the task joins the tail; a worker starts, and calls that very task, exactly when fewer than `concurrency` run; otherwise the task waits and nothing else changes; workers never exceed `concurrency`, and every task handed in is either called or still waiting |
| Utils.TaskQueue.WorkerStep | backend/utils.js:39-51 | whether the awaited task resolved or threw, the worker calls the head of the list (FIFO); if the list is empty, the worker leaves, and the last one to leave fires the stored waiter and clears it; a waiter fires only when the queue is idle |
| Utils.TaskQueue.WaitUntilEmpty | backend/utils.js:54-61 | resolves at once exactly when idle; otherwise its resolver replaces any earlier one |
| EventIds.KindsNeverCollide | backend/google.js:377-427 | holiday, lesson and news ids never coincide |
| EventIds.HolidayIdInjective | backend/google.js:377 | equal holiday ids have equal WebUntis ids |
| EventIds.LessonIdInjective | backend/google.js:427 | equal lesson ids have equal WebUntis ids |
| EventIds.NewsIdInjective | backend/google.js:405 | a news id determines its month, day and message id |
| Calendar.EqualSymmetric | backend/google.js:256 | `equal` is symmetric |
| Calendar.EqualReflexive | backend/google.js:256 | `equal` holds for every value and itself, NaN included; `===` fails exactly on NaN |
| Calendar.EqualClasses | backend/google.js:256 | two values are `equal` exactly when they are the same, or are `undefined` and `''` |
| Calendar.EqualOfUndefined | backend/google.js:256 | `undefined` is `equal` to itself and to `''` only |
| Calendar.EqualTransitive | backend/google.js:256 | `equal` is transitive |
| Calendar.StripFooter | backend/google.js:239 | the stripped text is the prefix of the description that is 52 characters shorter, or empty when the description is shorter than that |
| Calendar.StripFooterRecovers | backend/google.js:239 | with a 19-character stamp, the footer an update or create appends is exactly 52 characters, and stripping it gives back the original description |
| Calendar.ClassifyVersion | backend/google.js:234-244 | tag '1' and only it is version one; a missing or empty tag is unspecified; anything else is unknown |
| Calendar.Merge | backend/google.js:246-254 | the merged body always carries version tag '1' |
| Calendar.DecideCases | backend/google.js:233-273 | a missing or unknown tag always rewrites; a rewritten body carries tag '1' and every supplied property; a TypeError happens exactly for a version-'1' event without description; a described version-'1' event is skipped exactly when its comparison holds |
| Calendar.UpdatedIsStable | backend/google.js:293-322 | re-uploading the same properties right after an update skips in the backend; in `google.js` it skips only when both start and end carry a `dateTime` |
| Calendar.RereadAfterWrite | backend/google.js:256-273 | with a 19-character stamp, a stored body read back after a write is skipped by the backend comparison; the strict comparison skips it only for timed events |
| Calendar.LegacySkipNeedsTimes | google.js:193-201 | the strict comparison can only skip an event whose stored and new start and end both have a `dateTime` |
| Calendar.StampLength | backend/utils.js:1-10 | an ordinary `formatToLocalISO` stamp is 19 characters |
| Calendar.CreatedIsStable | backend/google.js:323-341 | an event the backend creates is skipped on the next run; one `google.js` creates has no tag and is rewritten |
| Calendar.Get | backend/google.js:228-231 | reading an event never changes the calendar |
| Calendar.Update | backend/google.js:297-307 | a successful update requires the id to exist and stores the body under it; a failure stores nothing |
| Calendar.Insert | backend/google.js:327-341 | a successful insert requires the id to be free and stores the body; a failure stores nothing |
| Calendar.WaitGrows | backend/google.js:279-286 | the n-th retry wait is at least n/2 seconds above the first, so the retry loops end |
| Calendar.WaitMonotone | backend/google.js:279-286 | retry waits never shrink |
| Calendar.ExhaustedLength | backend/google.js:279-286 | a schedule that ran out has exactly as many waits as precede the first one above the cap |
| Calendar.BackendRetryCounts | backend/google.js:279-286 | starting from 1 the backend gives up after 17 waits, and after 16 starting from 2 |
| Calendar.LegacyRetrySchedule | google.js:213-221 | `google.js` waits 1, 2, 4, 8, 16 and 32 seconds, 63 in all, and then gives up |
| Calendar.UpdateEvent | backend/google.js:293-322 | the waits follow the back-off schedule; it either updates the existing id with the footer appended, gives up after an exhausted schedule, or drops a non-403/429 error; nothing is stored unless it updated |
| Calendar.CreateEvent | backend/google.js:323-357 | the same loop around insert; an insert stores the properties with footer under a free id, tagged '1' in the backend only |
| Calendar.UploadEvent | backend/google.js:222-292 | a skip, update or crash follows the decision on the stored event; a 404 ends in exactly one create with a fresh `timeOut` of 1; 403/429 backs off and fetches again; a give-up or drop leaves the calendar unchanged |
| Untis.ClampWindow | backend/untis.js:33-88 | computes `Window`; fails exactly when neither the current nor the latest school year ends at or after `start`; otherwise `start` is raised to the year's first midnight, `end` stays undefined when it was and is then at most the year's last millisecond and not before `start`, and an `end` not before `start` is only capped |
| Untis.FetchWebUntis | backend/untis.js:5-149 | computes `FetchOutcome`: fails only with the school-year or the credentials message, returns data only when given an `end`, and then one news item per message of the fourteen days from the window's start |
| Untis.FetchAsCalledFails | backend/index.js:141-147 | called with `fullRefresh` for `start` and no `end`, the fetch always fails, with the school-year or the credentials message |
| Untis.FetchInWindow | backend/untis.js:5-149 | called with a date and an end, the fetch returns data exactly when the server answers every call it is asked (the latest school year only when the current one is null or ends before `start`) and a school year reaching `start` exists; the window then lies in that year, and the news are the flattened days from its start |
| Untis.BooleanStartQuirk | backend/index.js:141-147 | with `fullRefresh` passed as `start`, the window always begins at the school year's first midnight |
| Untis.FetchNews | backend/untis.js:259-297 | exactly `days` entries, the i-th dated at the midnight `i` days after `start`'s, holding that day's messages; `end` is the last millisecond of the last day |
| Untis.NewsDaysConsecutive | backend/untis.js:279-297 | consecutive news days are one day apart, and the k-th lies on day k from `start` |
| Untis.FlattenNews | backend/untis.js:97-106 | the flat list is every message of every day, in order, each with its day as start and end |
| Untis.FlattenFacts | backend/untis.js:97-106 | every flattened message starts and ends at the same instant, and there is one per message |
| Untis.DaysLabelCases | backend/untis.js:252 | the label is "1 day" exactly for counts up to 1, else the count and " days" |
| Untis.HolidayDays | backend/untis.js:243-252 | the count is the inclusive number of days from start to end date |
| Untis.FetchHolidays | backend/untis.js:237-257 | one holiday per raw entry, in order |
| Untis.IndexById | backend/untis.js:191-236 | the keys are exactly the ids seen, and each holds the entry of the last element with that id |
| Untis.FetchSubjects | backend/untis.js:191-205 | the same for subjects |
| Untis.FetchTeachers | backend/untis.js:206-221 | the same for teachers |
| Untis.FetchRooms | backend/untis.js:222-236 | the same for rooms |
| Untis.LookupAppend | backend/untis.js:401-421 | the lookup of concatenated entries is the concatenation of the lookups, so order is kept |
| Untis.LookupBounds | backend/untis.js:401-437 | a lookup is never longer than its input, is as long exactly when every id is known, and holds known entries only |
| Untis.CollectRefs | backend/untis.js:401-421 | one loop pushes the lookup of every id and of every set `orgid`, and reports whether one was set |
| Untis.ParseLessonDetails | backend/untis.js:392-439 | `cancelled` exactly for code "cancelled"; `irregular` exactly for code "irregular" or some entry with an `orgid`; each list is its lookup with unknown ids dropped |
| Untis.FirstContinuation | backend/untis.js:313-324 | the found entry continues the lesson and no earlier one does; none means no entry does |
| Untis.FindExtension | backend/untis.js:313-324 | the inner loop finds the first continuation |
| Untis.LastHomeworkWins | backend/untis.js:326-351 | the text is that of the last matching homework, or "" when none matches |
| Untis.HitsLoop | backend/untis.js:330-337 | the nested loops find a linked lesson with one of the lesson's subjects exactly when one exists |
| Untis.HomeworkFor | backend/untis.js:326-351 | `newHomework` and `dueHomework` are the last matching texts by `date` and by `dueDate` |
| Untis.LastExamWins | backend/untis.js:353-374 | the exam fields are those of the last overlapping exam about a current or original subject, else empty |
| Untis.ExamFor | backend/untis.js:353-374 | the exam loop computes those fields |
| Untis.GenerateLessons | backend/untis.js:300-391 | the lessons are those generated over the whole timetable |
| Untis.GeneratedBounds | backend/untis.js:304-324 | never more lessons than entries and never more absorbed ids than lessons; every lesson comes from an entry and has no `substText` |
| Untis.GeneratedStep | backend/untis.js:304-309 | an entry whose id was absorbed adds nothing; any other adds exactly its lesson |
| Untis.ExtendedEnd | backend/untis.js:313-324 | a lesson that absorbs a continuation ends where the continuation ends |
| Google.GenerateFields | backend/google.js:436-552 | title and description are the successive appends; `colorId` is set exactly when a colour was chosen; `transparency` is set exactly for a cancelled lesson; `location` is always '' |
| Google.MarkLesson | backend/google.js:440-492 | an exam gives colour '6' over '10'/'2'; '5' only for a flagged lesson with no other colour; '10' exactly for a cancelled lesson without exam; transparent exactly when cancelled |
| Google.AppendNotes | backend/google.js:476-492 | the information and homework blocks follow the status and exam blocks |
| Google.AppendNames | backend/google.js:494-535 | the title gets subjects, teachers and rooms; the description the name lines |
| Google.TitleStartsWithMarks | backend/google.js:443-548 | whatever is appended, the title starts with its marks |
| Google.DescriptionStartsWithStatus | backend/google.js:443-548 | whatever is appended, the description starts with its status block |
| Google.MarksPrecedence | backend/google.js:443-455 | a cancelled lesson starts with the cancellation mark and block, overriding the irregular ones; an irregular lesson that is not cancelled starts with the update mark |
| Google.SubstitutionTextNeverShown | backend/google.js:447 | every generated lesson lacks `substText`, so it always reads "No further information" |
| Google.NewsTitle | backend/google.js:388-391 | the subject when non-empty; else the text when under 30 characters, else its first 28 characters and '...' |
| Google.UploadHolidays | backend/google.js:358-382 | exactly one job per holiday joins the queue, in order, with the holiday id and a `timeOut` of 1; the returned tasks are empty |
| Google.UploadNews | backend/google.js:383-411 | for each day entry, one job per message joins the queue, in order, with a `timeOut` of 2; it throws exactly when some entry is not a day, and then the jobs of the days before the first such entry are the ones queued; the returned tasks are empty |
| Google.UploadNewsItems | backend/google.js:383-411 | the news loop reading flattened messages, each on its `start` day: exactly one job per message joins the queue, in order |
| Google.ItemJobsOfFlatten | backend/untis.js:97-106 | reading the flattened messages queues exactly the jobs `uploadNews` queues for the days they came from |
| Google.FlatEntriesThrow | backend/google.js:385-386 | a list of flattened messages has no day entry before its first element |
| Google.UploadLessons | backend/google.js:412-435 | exactly one job per lesson joins the queue, its fields from `generateFields`; the returned tasks are empty |
| Google.NewsJobsCount | backend/google.js:385-408 | there is one news job per message |
| Google.DistinctIds | backend/google.js:377-427 | holidays and lessons with distinct ids get distinct event ids, and no holiday shares one with a lesson |
| Google.HolidayEndMovedTwice | backend/google.js:362-363 | the holiday event ends two days after the holiday's last day, since the end is moved on once when fetched and once when uploaded |
| Google.JobsDescribe | backend/google.js:358-435 | every job supplies a description and starts with `timeOut` 1, or 2 for news |
| Google.NewsUploadThrows | backend/index.js:204-212 | handed the flattened news as the backend does, `uploadNews` throws exactly when some news day has a message, and queues no news job either way |
| LegacyGoogle.LegacyGenerateFields | google.js:359-466 | the title is subjects, teachers and class names; the location is the rooms and their originals; `colorId` and `transparency` follow the backend's presence rules |
| LegacyGoogle.AppendLegacyNames | google.js:429-444 | the description gets subject, teacher, class and room lines |
| LegacyGoogle.UploadersShareHead | google.js:359-415 | both uploaders agree on colour, transparency, the marks that start the title, and the status, exam, information and homework blocks that start the description |
| LegacyGoogle.LegacyUploadHolidays | google.js:287-311 | each holiday is uploaded in turn with its id; the final calendar replays the reports in order, each explained by the calendar before it |
| LegacyGoogle.LegacyUploadNews | google.js:312-340 | the same for each news message, with the backend's ids and `timeOut` 1 |
| LegacyGoogle.LegacyUploadLessons | google.js:341-358 | the same for each lesson, with the older fields |
| LegacyGoogle.ReplayStep | google.js:289-306 | one more awaited upload extends the explained replay by one |
| LegacyGoogle.ReplayFrame | google.js:287-358 | events no job names are left exactly as they were |
| LegacyGoogle.ReplayStores | google.js:287-358 | with distinct ids, a skipped, updated or inserted job's event is in the calendar at the end; an inserted one holds what `createEvent` wrote |
| Config.FirstNamed | backend/config.js:131-134 | the index of the first profile named as the user's setting, none only when no profile is |
| Config.LastDefault | backend/config.js:125-137 | the result is named "default"; it is the last such profile, or the built-in empty one when none |
| Config.GetRefreshProfile | backend/config.js:124-141 | the first profile named as the user's setting; failing that, the last "default" one or the built-in empty default |
| Config.ProfileComesFromConfig | backend/config.js:124-141 | the profile is always one of the configured ones or the built-in default |
| Config.UserConfigFileLength | backend/config.js:41-47 | a name passing the filter is at least 12 characters, so prefix and suffix never overlap |
| Config.UserOfFile | backend/config.js:47 | the user name is the file name less the 12 characters of `config-` and `.json` |
| Config.FileUserRoundTrip | backend/config.js:41-47 | a listed file's user name leads back to that very file |
| Config.UserFileRoundTrip | backend/config.js:84 | every user's file passes the filter, and the name read back from it is the user's |
| Config.LoadConfigFile | backend/config.js:66-79 | accepted only at version "1.2", otherwise null |
| Config.LoadUserFile | backend/config.js:81-105 | accepted only at version "1.0"; the record gets its refresh profile and a date, the epoch when none was stored |
| Config.SaveLoadRoundTrip | backend/config.js:81-122 | saving then loading gives the record back, with the profile looked up again under the current profiles |
| Config.LoadedProfile | backend/config.js:98 | a loaded record's profile is the one `getRefreshProfile` picks |
| Config.User.constructor | backend/config.js:81-105 | the object holds the loaded record |
| Config.SaveUserFile | backend/config.js:107-122 | writes `users/config-<name>.json` with the record minus its profile; the object is unchanged |
| Config.ConfigStore.constructor | backend/config.js:5-10 | nothing is loaded and there are no users |
| Config.ConfigStore.LoadConfig | backend/config.js:12-64 | exits exactly when no usable file exists on the first load; a usable file replaces the settings, a missing one keeps them; `users` becomes exactly the users whose listed file loads, each with its loaded record |
| Config.LoadUsers | backend/config.js:45-59 | the users are exactly those with a listed `config-<u>.json` that loads, each a fresh record of it |
| Index.RefreshAtClock | backend/index.js:63-65 | "HH:MM" with two-digit fields is that time of today |
| Index.ScheduledRefreshProceeds | backend/index.js:45-113 | a refresh that `cycle` schedules is not turned away by `refreshUser`'s guard when it runs later, provided no other sync has stamped the user in between |
| Index.NotDueRightAfter | backend/index.js:45-85 | right after a sync stamped `now`, neither trigger fires again at `now` |
| Index.FullOncePerDay | backend/index.js:43-50 | the midnight trigger keeps firing on a day until a sync, and never fires twice in one day |
| Index.FirstFiring | backend/index.js:62-85 | the first profile time that fires, none when no time does |
| Index.CheckUser | backend/index.js:38-85 | the refresh scheduled for an active user is the full one when due, else a quick one when some time fires, else none |
| Index.Cycle | backend/index.js:26-87 | every scheduled refresh is for an active user that is due it; users appear in order, each at most once; every due active user is scheduled; delays start at 0 and grow by 5 minutes per full refresh and 8 s per quick one |
| Index.Classify | backend/index.js:226-277 | four exclusive and exhaustive outcomes: no errors and no writes, no errors, some writes, failure |
| Index.EarlyExitsAreErrors | backend/index.js:99-178 | every early exit is logged as an error; only a finished sync may report success |
| Index.CeilSeconds | backend/index.js:104-108 | the rounded-up number of seconds left |
| Index.RefreshUser | backend/index.js:89-287 | a sync within the time-out is skipped with the seconds left and changes nothing; otherwise it stamps `now` and saves the record before anything else; then the missing password, decrypt, fetch, API and calendar exits are taken in that order, the fetch failing with its own message; with the calls as written, no sync gets past the fetch; with the calls as intended, a sync past the calendar queues the holiday, news and lesson jobs and reports "nothing changed"; an unexpected error happens only as written, after the holiday jobs, when there are news |
| Index.Upload | backend/index.js:187-286 | the end of a sync as written: the holiday jobs are queued; then, exactly when the flattened news are non-empty, the news upload throws and the sync ends in the unexpected-error log with only the holiday jobs queued; otherwise the lesson jobs follow and the untouched counters classify as "nothing changed" |
| Index.UploadIntended | backend/index.js:187-277 | the end of a sync with the news read message by message: holiday, news and lesson jobs are queued in that order on a fresh queue of five, and the untouched counters classify as "nothing changed" |
| Logs.Log | backend/logs.js:32-61 | the line is `<ms>;<json>` and a newline; each listener of that user gets the entry once, in order; a user without listeners gets no calls |
| Logs.Accept | backend/logs.js:11-24 | a kept line is non-blank with a `;`, its prefix parses as an integer not at or after `before`, and the entry is the parse of the text after the first `;` |
| Logs.AcceptKeeps | backend/logs.js:11-24 | conversely, a non-blank line with a `;` whose prefix parses as an integer not at or after `before` gives the parse of the text after the first `;`, so it is kept exactly when that text is JSON |
| Logs.LoadLogs | backend/logs.js:7-30 | an unreadable file gives nothing; otherwise the entries kept from the lines read, in order; the scan stops right after the entry that reaches `limit`, and never earlier; at most `limit` entries (one for a limit below one) |
| Logs.Scan | backend/logs.js:10-25 | the lines read are kept as `Kept` says; the scan stops right after the entry that reaches `limit`, and never earlier |
| Logs.ReadLine | backend/logs.js:11-24 | one callback: the line's entry, if kept, joins the list, and the scan stops exactly when that brings it to `limit` |
| Logs.KeptStep | backend/logs.js:11-24 | reading one more line adds its entry, if kept |
| Logs.LoggedLineLoads | backend/logs.js:11-41 | every line `log` writes loads back as its entry, unless filtered by `before` |
| LegacyIndex.LoadLegacyConfig | index.js:54-69 | accepted only at version "1.1", otherwise null |
| LegacyIndex.StampedNeverFires | index.js:43-46 | once stamped with `now`, no profile time fires again in that cycle |
| LegacyIndex.FiresAfterGap | index.js:43 | five minutes after the last refresh, any passed time later than it fires |
| LegacyIndex.ScanStep | index.js:32-50 | one user of the scan keeps the scan's invariant |
| LegacyIndex.Scheduler.constructor | index.js:8-9 | no configuration and no stamps |
| LegacyIndex.Scheduler.Cycle | index.js:12-52 | exits exactly when no configuration loads and none is stored; a changed configuration is stored and refreshes and stamps every user; otherwise users are refreshed in order, each at most once, and, with distinct names, exactly those due under the old stamps; other stamps are untouched |
| LegacyIndex.Scheduler.RefreshAll | index.js:22-30 | every user is refreshed and stamped, in order |
| LegacyIndex.Scheduler.RefreshDue | index.js:32-50 | the scan refreshes every user whose times fire, once each |
| LegacyIndex.Scheduler.RefreshUserIfDue | index.js:39-48 | the time loop refreshes the user once when some time fires, and never twice, since the stamp it leaves stops every later time |

## Left out

- OAuth and calendar setup are not modelled: `generateAuthUrl`, `processAuth`, `deleteAuth`, `loadApi`, `getCalendar`, `createCalendar`, `getColors` in `backend/google.js`, and `authorize`, `getCalendar`, `createCalendar`, `getColors` and the credential helpers in `google.js`. They are foreign Google and file calls; `refreshUser` receives their results as `Services`.
- The WebUntis requests (`login`, `getTimetable`, `getNewsWidget` and the others) are not modelled; their answers are the `Untis.Server` input. There, a `false` flag (`loginOk`, `currentOk`, `latestOk`, `newsOk`) or `answers == None` is a call that throws, while `current` or `latest` being `None` is a null school year from a call that answered. `convertUntisDate`/`convertUntisTime` are read in UTC. The `log` and `logout` calls inside `fetchWebUntis` are not modelled.
- File, YAML, JSON and stream I/O are parameters: the parsed records, the file list, `read`, `parse`, `stringify`, the lines of the reverse reader, and the failed write in `log`.
- Time zones, `Intl` and invalid `Date` values are not modelled. Every date is UTC milliseconds, and a month or hour past its range carries over as in `setHours`.
- Concurrency is not modelled: `setTimeout` and `setInterval` in both schedulers, and the interleaving of queue workers. The queue is a step machine; `Index.Upload` models the jobs handed to it, not their execution.
- `Index.RefreshUser`: the log line of each exit is `MessageOf`/`LogTypeOf` of the outcome, not a `Logs.Log` call; the random execution id and the `saveUserFile` write are not traced beyond the saved copy.
- `Index.RefreshUser`: the catch of `refreshUser` is modelled for the news upload, the one call in the model that throws; throws from `log`, `saveUserFile` or the Google client are not. The window of the intended fetch is a parameter (`Calls.Intended`), since the code does not say which window it meant.
- `Google.NewsTitle`: lengths and cuts count Unicode characters. JavaScript's `length` and `substring` count UTF-16 code units, so a text with characters outside the Basic Multilingual Plane is cut at a different place, possibly inside a surrogate pair.
- `Strings.IsSpace`: `trim` and `parseInt` skip only ASCII white space here. JavaScript also skips the other Unicode spaces (no-break space, line and paragraph separators, the byte order mark and the rest).
- `Config.GetRefreshProfile`: profile names and the user's setting are strings, compared by string equality. The code uses loose `==` (also in `backend/index.js` at lines 80 and 83), which differs only for non-string values from the YAML file.
- `Untis.Continues`: the `JSON.stringify` comparison of two lesson details is modelled as equality of the modelled fields. A class (`Klass`) keeps only `name` and `longname`, so classes differing in other raw fields compare equal here.
- `Google.UploadLessons`: the per-lesson `try`/`catch` is not modelled. No lesson's fields can fail in the model, since invalid dates are left out.
- `Index.Cycle`: the model reads one clock per cycle, so every user is judged at the same `now`. The code reads `new Date()` again for each user (backend/index.js lines 39, 43 and 64), so a user late in a long loop sees a slightly later clock.
- `Index.NumberOf`: `Number()` is modelled for blank strings and digit runs only; signs, decimals, exponents and surrounding spaces read as NaN.
- The `queued` map of `backend/index.js` is left out. It stores `new Date() + timeout`, a string, so the subtraction is NaN and the guard never skips.
- The `!user.lastRefresh` alternatives of `backend/index.js` are left out. `loadUserFile` always sets `lastRefresh` to a date, at the latest the epoch.
- `LegacyIndex.Scheduler.Cycle`: the clock is read once per cycle, so every stamp is `now`. The code stamps `new Date()` per user, which is never earlier.
- `LegacyIndex.Scheduler.Cycle`: the `JSON.stringify` comparison of configurations is modelled as value equality.
- `refreshUser` of `index.js` is left out. It calls into the root `untis.js`, which is not part of this model.
- The root `utils.js` that `google.js` imports is not part of this model. The footer lemmas assume the backend formatter and a 19-character stamp.
- `Calendar.UpdateEvent`, `Calendar.CreateEvent`, `Calendar.UploadEvent`: these require a first `timeOut` of at least 1. Every caller passes 1 or 2; a 0 would retry forever.
- `backend/api.js`, the frontend and the Python scripts are not modelled; they are an HTTP surface, UI code and bare data classes.

## Findings

| source | as written | input that shows it | evidently intended | confidence | as-written member | corrected member |
|---|---|---|---|---|---|---|
| backend/index.js:141-147 | `refreshUser` calls `fetchWebUntis` with `fullRefresh` in the place of `start` and no `end`. At best `start` is raised to the school year's first midnight, `end` stays `undefined`, and `formatToLocalISO(end)` in `fetchTimetable` throws, so every fetch fails | any sync that gets past the password checks, for instance a full refresh with a current school year starting after 1970-01-01: it logs "Failed to fetch WebUntis data: Please check your credentials!" | pass the dates of the window to fetch as `start` and `end` | not executed | Untis.FetchAsCalledFails | Untis.FetchInWindow |
| backend/index.js:204-212 | `refreshUser` passes `data.news`, the flat list of messages, to `uploadNews`, which iterates `day.messages` of each element; a message has no `messages`, so the loop throws a TypeError before queuing any news, and the sync ends in "Unexpected error during sync: Please contact support!" without uploading lessons | a sync whose fetch returns data (only once the call above passes dates) and whose fourteen news days from the window's start hold a message | read each flattened message with its day from `start`, so that each message becomes one job | not executed | Index.Upload | Index.UploadIntended |
