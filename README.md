# Activity lifecycle demo: status store, lifecycle recorder and log reader

A small Android application shows the activity lifecycle with three
screens, A, B and C. Every screen writes its latest lifecycle state to a
shared key-value store ("activity_statuses") and a tagged line to the
system log on each callback; it shows the three statuses and, newest
first, the tagged log lines. This project models, in Dafny, screen A's
recorder (`A.java`) and the log reader `getLog` (`Activities.java`), and
proves what they do.

- `Wrappers.dfy`: `Option`, standing in for Java's nullable values (the
  "caller" extra).
- `Activities.dfy` (module `Activities`): the shared constants, Java's
  `indexOf`/`contains`, and `getLog` as the method `GetLog` with a loop
  that inserts each reduced line at the front of a builder. It is proved
  equal to the specification function `ExpectedLog`, and the text it builds
  is proved to be the reverse of a filter and a map over the input lines.
- `ScreenA.dfy` (module `ScreenA`): the class `Screen` holding the store
  (a `map`), the log (a sequence of `Log.d` records) and the two text
  views, with one method per lifecycle callback, `updateViews`,
  `handleMessage`; the pure step function `Step` and its fold `Run` over a
  sequence of callbacks; the status text and the navigation intents.

Modelling decisions:

- The output of `logcat -d` is a parameter: the lines `readLine` returns
  (none holds a newline) and a flag `readFails` saying that the reader
  raises an `IOException` after those lines. An `IOException` while the
  command starts is the case of no lines and `readFails`.
- `substring(k)` with `k` past the end raises
  `StringIndexOutOfBoundsException`. That is not an `IOException`, so it
  leaves `getLog`: besides the text and the sentinel, `getLog` can raise.
  The model returns `OutOfRange(i)` for the first line `i` whose first
  `TAG` ends the line. A line with exactly one character after `TAG`
  contributes just "\n".
- `saveCurrentState` logs "Activity A.<method>()" under `TAG`. The line
  cut in `getLog` removes everything up to the first `TAG` and the one
  character after it.
- `SharedPreferences` is an in-memory map written at once. Only screen A
  writes to it here.

## Model

| member | source | states |
|---|---|---|
| Activities.IndexFromFindsFirst | app/src/main/java/com/example/activitylifecycle/Activities.java:73 | `indexOf(t, from)` is -1 exactly when `t` occurs nowhere at or after `from`, else the first such occurrence |
| Activities.IndexOfFindsFirst | app/src/main/java/com/example/activitylifecycle/Activities.java:71-73 | `indexOf` (and so `contains`) is non-negative iff `t` occurs in `s`, and then it is an occurrence with none before it |
| Activities.IndexOf | app/src/main/java/com/example/activitylifecycle/Activities.java:73 | `line.indexOf(TAG)`: -1, or an index at which the tag fits inside the line (first occurrence by `IndexOfFindsFirst`) |
| Activities.Contains | app/src/main/java/com/example/activitylifecycle/Activities.java:71 | `line.contains(TAG)`, defined as `indexOf >= 0`; it only holds when the tag fits in the line |
| Activities.Reduce | app/src/main/java/com/example/activitylifecycle/Activities.java:73 | `line.substring(indexOf(TAG) + TAG.length() + 1) + '\n'`: a newline-terminated suffix of the line, shorter than it by at least the tag |
| Activities.OutOfRangeIffTagEndsLine | app/src/main/java/com/example/activitylifecycle/Activities.java:73 | `substring` raises exactly on a tagged line whose first `TAG` ends the line |
| Activities.ReduceCutsAtFirstTag | app/src/main/java/com/example/activitylifecycle/Activities.java:73 | a line `p + TAG + c + rest` with no earlier `TAG` contributes `rest + "\n"`, so later tags stay in the rest and one trailing character gives "\n" |
| Activities.TagEndingLineRaises | app/src/main/java/com/example/activitylifecycle/Activities.java:73 | a line whose first `TAG` ends it makes `getLog` raise the range error, even when reading would fail later |
| Activities.FirstOutOfRange | app/src/main/java/com/example/activitylifecycle/Activities.java:69-73 | the first line at or after `from` on which `substring` raises, or -1 when there is none |
| Activities.ExpectedLog | app/src/main/java/com/example/activitylifecycle/Activities.java:57-84 | range error at the first offending line iff some line raises; otherwise the sentinel "failed to read from logcat" on an I/O failure; otherwise the newest-first text |
| Activities.ExpectedLogRaisesAt | app/src/main/java/com/example/activitylifecycle/Activities.java:69-73 | the first line that raises, after lines that do not, decides the outcome whatever reading does later |
| Activities.NewestFirst | app/src/main/java/com/example/activitylifecycle/Activities.java:66-79 | the text the builder holds after the loop, each tagged line's contribution inserted at the front; when not empty it ends with a newline |
| Activities.NewestFirstStep | app/src/main/java/com/example/activitylifecycle/Activities.java:73-76 | each line read puts its contribution in front of the text built so far |
| Activities.GetLog | app/src/main/java/com/example/activitylifecycle/Activities.java:57-84 | the loop with its string builder yields exactly `ExpectedLog` of the lines and the failure flag |
| Activities.RetainedSubset | app/src/main/java/com/example/activitylifecycle/Activities.java:71 | the retained lines are input lines and all carry `TAG` |
| Activities.RetainedSnoc | app/src/main/java/com/example/activitylifecycle/Activities.java:71 | reading one more line retains it iff it is tagged |
| Activities.ReverseAt | app/src/main/java/com/example/activitylifecycle/Activities.java:76 | position `k` of the newest-first order holds input item `n - 1 - k` |
| Activities.NewestFirstIsReversedFilterMap | app/src/main/java/com/example/activitylifecycle/Activities.java:69-76 | the text is the concatenation of the reverse of the reduced tagged lines: exactly the tagged lines contribute, newest first |
| Activities.NoTaggedLineGivesEmptyLog | app/src/main/java/com/example/activitylifecycle/Activities.java:66-79 | with no tagged line, empty input included, nothing raises and the text is empty |
| Activities.NewlinePerTaggedLine | app/src/main/java/com/example/activitylifecycle/Activities.java:69-79 | the text holds exactly one newline per tagged line |
| ScreenA.Reset | app/src/main/java/com/example/activitylifecycle/A.java:47-54 | the reset sets A, B and C to "null" and only those keys |
| ScreenA.ResetStoreOfThreeScreens | app/src/main/java/com/example/activitylifecycle/A.java:49-53 | a store holding only the three screens' entries is reset to exactly three "null" entries |
| ScreenA.Save | app/src/main/java/com/example/activitylifecycle/A.java:108-117 | `saveCurrentState` on values: the store gains exactly key A, set to "A: <state>", and the log one record tagged `TAG` |
| ScreenA.Step | app/src/main/java/com/example/activitylifecycle/A.java:153-181 | the effect of one callback (creation: A.java:47-54 and 84): A's entry exists afterwards and the log grows by one |
| ScreenA.Run | app/src/main/java/com/example/activitylifecycle/A.java:153-181 | callbacks delivered in order; the log grows by exactly their number |
| ScreenA.StepRecords | app/src/main/java/com/example/activitylifecycle/A.java:108-117 | a callback sets this screen's entry to "A: <state>", appends one record, and touches no other entry unless it is a creation without a caller, which sets B and C to "null" |
| ScreenA.RunLogsEveryCallback | app/src/main/java/com/example/activitylifecycle/A.java:116 | over any sequence of callbacks the log grows by one record per callback, in order |
| ScreenA.RunEndsInLastState | app/src/main/java/com/example/activitylifecycle/A.java:112 | after any non-empty sequence of callbacks the entry for A names the last callback's state |
| ScreenA.RunKeepsOtherEntries | app/src/main/java/com/example/activitylifecycle/A.java:110-113 | without a launch by the platform, no entry other than A's changes over a whole sequence |
| ScreenA.FreshLaunchScenario | app/src/main/java/com/example/activitylifecycle/A.java:47-84 | a launch without caller leaves {A: "A: created", B: "null", C: "null"} and logs "Activity A.onCreate()" |
| ScreenA.StatusTextLines | app/src/main/java/com/example/activitylifecycle/A.java:92-97 | the status text splits back into the statuses of A, B and C in that order, each "null" when missing |
| ScreenA.StatusText | app/src/main/java/com/example/activitylifecycle/A.java:93-96 | the status text: at least three characters, newline-terminated, starting with A's status |
| ScreenA.StartBByA | app/src/main/java/com/example/activitylifecycle/A.java:123-126 | the intent to B carries a non-null caller extra |
| ScreenA.StartCByA | app/src/main/java/com/example/activitylifecycle/A.java:132-135 | the intent to C carries a non-null caller extra |
| ScreenA.NavigationFromASkipsReset | app/src/main/java/com/example/activitylifecycle/A.java:123-135 | both intents from A carry the caller "A"; a creation following A's rule with that caller skips the reset and keeps every entry but the creating screen's own |
| ScreenA.Screen.SaveCurrentState | app/src/main/java/com/example/activitylifecycle/A.java:108-117 | writes only key A, to "A: <state>", and appends exactly the record ("Activity_TAG", "Activity A.<method>()") |
| ScreenA.Screen.OnCreate | app/src/main/java/com/example/activitylifecycle/A.java:31-85 | without a caller, B and C become "null"; with one, they keep their values; A becomes "A: created"; "Activity A.onCreate()" is logged |
| ScreenA.Screen.OnStart | app/src/main/java/com/example/activitylifecycle/A.java:153-157 | records ("started", "onStart") |
| ScreenA.Screen.OnResume | app/src/main/java/com/example/activitylifecycle/A.java:159-163 | records ("resumed", "onResume") |
| ScreenA.Screen.OnPause | app/src/main/java/com/example/activitylifecycle/A.java:165-169 | records ("paused", "onPause") |
| ScreenA.Screen.OnStop | app/src/main/java/com/example/activitylifecycle/A.java:171-175 | records ("stopped", "onStop") |
| ScreenA.Screen.OnDestroy | app/src/main/java/com/example/activitylifecycle/A.java:177-181 | records ("destroyed", "onDestroy") |
| ScreenA.Screen.UpdateViews | app/src/main/java/com/example/activitylifecycle/A.java:90-101 | shows the status text of the store and the outcome of `getLog`, leaving the store and the log alone |
| ScreenA.Screen.HandleMessage | app/src/main/java/com/example/activitylifecycle/A.java:57-65 | only `what == UPDATE_VIEWS` (1) refreshes; any other message changes nothing |
| ScreenA.RefreshIsIdempotent | app/src/main/java/com/example/activitylifecycle/A.java:90-101 | two refreshes with no write in between show the same texts |

## Left out

- `Runtime.exec("logcat -d")` and the `BufferedReader`: an external process and I/O. Their output is a parameter (the lines and a failure flag).
- The worker thread with its endless loop, `Thread.sleep(WAIT_TIME)`, the interrupted-sleep handler and the posting of messages: a perpetual concurrent poller. Only `handleMessage` is modelled; `WAIT_TIME` is kept as a constant.
- Persistence of the store and the asynchronous `apply()`: the store is an in-memory map written at once. Writes by the other screens and their ordering are not modelled.
- `Log.d` itself: modelled as appending a record to the `log` field. How logcat renders a record as a text line is not modelled, so records and logcat lines are not linked.
- All UI work: `setContentView`, `findViewById`, `setMovementMethod`, `Activities.setButtonsBackground`, `startActivity`, `finishA`/`finish()` and `startDialog`. (`TextView.setText` is modelled as assigning the view fields, and `Activities.updateLogToView` is folded into `UpdateViews`.)
- Strings are sequences of Unicode scalar values, not of UTF-16 code units as in Java, so `indexOf` and `substring` count differently once a supplementary character comes before or at the cut: a supplementary character right after `TAG` is cut whole here, while Java's `substring` splits its surrogate pair and keeps the low half. The "just \n" case above holds in Java only for a character of the Basic Multilingual Plane. The stack trace that `getLog` prints on an `IOException` (`e.printStackTrace()`) is output only and is not modelled.
- `MyDialog.java`: a dialog with a close button only; not part of this model.
- `B.java` and `C.java` are not part of this model; the store reset rule is the one of `A.java`.
- `ScreenA.Screen.UpdateViews`: when `getLog` raises, the model returns the error instead of ending the process.
