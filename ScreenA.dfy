/**
 * Screen A (app/src/main/java/com/example/activitylifecycle/A.java): the
 * lifecycle recorder that writes the screen's state to the shared status
 * store and to the log on every callback, the reset of the store on a
 * launch by the platform, the status text it displays, the caller tag it
 * attaches when navigating and the dispatch of refresh messages.
 *
 * The key-value store (`SharedPreferences` named "activity_statuses") is
 * an in-memory map written immediately; `Log.d` appends a record to a
 * sequence; the two text views are string fields.
 */
module ScreenA {
  import opened Wrappers
  import Activities

  /** The identity of this screen, used as its key in the store. */
  const ID: string := "A"
  /** The value the store holds for a screen whose state is unknown. */
  const UNSET: string := "null"

  /** One call of `Log.d(tag, message)`. */
  datatype LogRecord = LogRecord(tag: string, message: string)

  /** The store and the log: the state the recorder changes. */
  datatype Recorded = Recorded(prefs: map<string, string>, log: seq<LogRecord>)

  /** The lifecycle callbacks of the screen; `Create` carries the caller extra of the starting intent. */
  datatype Callback = Create(caller: Option<string>) | Start | Resume | Pause | Stop | Destroy

  /** The navigation request handed to the platform: target screen and the "caller" extra. */
  datatype Intent = Intent(target: string, caller: Option<string>)

  /** `preferences.getString(key, default)`. */
  function GetString(prefs: map<string, string>, key: string, default: string): string
  {
    if key in prefs then prefs[key] else default
  }

  /** The state word each callback records. */
  function PhaseState(cb: Callback): string
  {
    match cb
    case Create(_) => "created"
    case Start => "started"
    case Resume => "resumed"
    case Pause => "paused"
    case Stop => "stopped"
    case Destroy => "destroyed"
  }

  /** The name of the method each callback records. */
  function PhaseMethod(cb: Callback): string
  {
    match cb
    case Create(_) => "onCreate"
    case Start => "onStart"
    case Resume => "onResume"
    case Pause => "onPause"
    case Stop => "onStop"
    case Destroy => "onDestroy"
  }

  /** The status string of this screen in a given state. */
  function Status(state: string): string
  {
    ID + ": " + state
  }

  /** The log record of one call of `methodName`, tagged with the shared tag. */
  function Entry(methodName: string): LogRecord
  {
    LogRecord(Activities.TAG, "Activity " + ID + "." + methodName + "()")
  }

  /** The store after the reset done on a launch by the platform. */
  function Reset(prefs: map<string, string>): (r: map<string, string>)
    ensures r.Keys == prefs.Keys + {"A", "B", "C"}
    ensures r["A"] == UNSET && r["B"] == UNSET && r["C"] == UNSET
    ensures forall k :: k in prefs && k !in {"A", "B", "C"} ==> r[k] == prefs[k]
  {
    prefs["A" := UNSET]["B" := UNSET]["C" := UNSET]
  }

  /** `saveCurrentState(state, methodName)` as a function on the recorded state. */
  function Save(st: Recorded, state: string, methodName: string): (r: Recorded)
    ensures r.prefs.Keys == st.prefs.Keys + {ID} && r.prefs[ID] == Status(state)
    ensures |r.log| == |st.log| + 1 && r.log[|st.log|].tag == Activities.TAG
  {
    Recorded(st.prefs[ID := Status(state)], st.log + [Entry(methodName)])
  }

  /** The effect of one callback on the store and the log. */
  function Step(st: Recorded, cb: Callback): (r: Recorded)
    ensures ID in r.prefs && |r.log| == |st.log| + 1
  {
    match cb
    case Create(caller) =>
      var prefs := if caller.None? then Reset(st.prefs) else st.prefs;
      Save(Recorded(prefs, st.log), PhaseState(cb), PhaseMethod(cb))
    case _ => Save(st, PhaseState(cb), PhaseMethod(cb))
  }

  /** Other screens' entries are the same in both stores. */
  ghost predicate SameOthers(p: map<string, string>, q: map<string, string>)
  {
    forall k :: k != ID ==> (k in p <==> k in q) && (k in p ==> p[k] == q[k])
  }

  /**
   * One callback sets this screen's entry to its state and appends one log
   * record; it leaves every other entry alone, except a creation without a
   * caller, which sets B and C to "null".
   */
  lemma StepRecords(st: Recorded, cb: Callback)
    ensures ID in Step(st, cb).prefs && Step(st, cb).prefs[ID] == Status(PhaseState(cb))
    ensures Step(st, cb).log == st.log + [Entry(PhaseMethod(cb))]
    ensures cb != Create(None) ==> SameOthers(Step(st, cb).prefs, st.prefs)
    ensures cb == Create(None) ==> "B" in Step(st, cb).prefs && Step(st, cb).prefs["B"] == UNSET
    ensures cb == Create(None) ==> "C" in Step(st, cb).prefs && Step(st, cb).prefs["C"] == UNSET
  {
  }

  /** A sequence of callbacks delivered in order. */
  function Run(st: Recorded, cbs: seq<Callback>): (r: Recorded)
    ensures |r.log| == |st.log| + |cbs|
    decreases |cbs|
  {
    if cbs == [] then st else Run(Step(st, cbs[0]), cbs[1..])
  }

  /** The log records one sequence of callbacks emits, in order. */
  function Entries(cbs: seq<Callback>): seq<LogRecord>
  {
    if cbs == [] then [] else [Entry(PhaseMethod(cbs[0]))] + Entries(cbs[1..])
  }

  /** Over any sequence of callbacks the log grows by exactly one record per callback, in order. */
  lemma {:induction false} RunLogsEveryCallback(st: Recorded, cbs: seq<Callback>)
    ensures Run(st, cbs).log == st.log + Entries(cbs)
    decreases |cbs|
  {
    if cbs == [] {
      assert st.log + Entries(cbs) == st.log;
    } else {
      var next, e := Step(st, cbs[0]), Entry(PhaseMethod(cbs[0]));
      StepRecords(st, cbs[0]);
      RunLogsEveryCallback(next, cbs[1..]);
      assert Run(st, cbs) == Run(next, cbs[1..]);
      assert Entries(cbs) == [e] + Entries(cbs[1..]);
      LogAppendAssoc(st.log, e, Entries(cbs[1..]));
    }
  }

  /** Concatenation of logs is associative. */
  lemma LogAppendAssoc(log: seq<LogRecord>, e: LogRecord, more: seq<LogRecord>)
    ensures (log + [e]) + more == log + ([e] + more)
  {
  }

  /** After any non-empty sequence of callbacks the store holds this screen's last recorded state. */
  lemma {:induction false} RunEndsInLastState(st: Recorded, cbs: seq<Callback>)
    requires cbs != []
    ensures ID in Run(st, cbs).prefs && Run(st, cbs).prefs[ID] == Status(PhaseState(cbs[|cbs| - 1]))
    decreases |cbs|
  {
    StepRecords(st, cbs[0]);
    if |cbs| == 1 {
      assert cbs[1..] == [];
    } else {
      RunEndsInLastState(Step(st, cbs[0]), cbs[1..]);
      assert cbs[1..][|cbs[1..]| - 1] == cbs[|cbs| - 1];
    }
  }

  /**
   * When no callback of the sequence is a launch by the platform (every
   * creation names its caller), no entry other than this screen's own is
   * touched.
   */
  lemma {:induction false} RunKeepsOtherEntries(st: Recorded, cbs: seq<Callback>)
    requires forall i :: 0 <= i < |cbs| ==> cbs[i] != Create(None)
    ensures SameOthers(Run(st, cbs).prefs, st.prefs)
    decreases |cbs|
  {
    if cbs != [] {
      var next := Step(st, cbs[0]);
      StepRecords(st, cbs[0]);
      assert forall i :: 0 <= i < |cbs[1..]| ==> cbs[1..][i] == cbs[i + 1];
      RunKeepsOtherEntries(next, cbs[1..]);
    }
  }

  /**
   * A launch by the platform of a screen that has never run: the store
   * reads {A: "A: created", B: "null", C: "null"} and the log ends with
   * "Activity A.onCreate()".
   */
  lemma CreatedEntry()
    ensures Status("created") == "A: created"
    ensures Entry("onCreate") == LogRecord("Activity_TAG", "Activity A.onCreate()")
  {
  }

  lemma FreshLaunchScenario(st: Recorded)
    requires st.prefs.Keys <= {"A", "B", "C"}
    ensures Run(st, [Create(None)]).prefs.Keys == {"A", "B", "C"}
    ensures Run(st, [Create(None)]).prefs["A"] == "A: created"
    ensures Run(st, [Create(None)]).prefs["B"] == "null" && Run(st, [Create(None)]).prefs["C"] == "null"
    ensures Run(st, [Create(None)]).log == st.log + [LogRecord("Activity_TAG", "Activity A.onCreate()")]
  {
    assert [Create(None)][1..] == [];
    assert Run(st, [Create(None)]) == Step(st, Create(None));
    CreatedEntry();
    ResetStoreOfThreeScreens(st.prefs);
  }

  /** A store holding at most the three screens' entries is reset to three "null" entries. */
  lemma ResetStoreOfThreeScreens(prefs: map<string, string>)
    requires prefs.Keys <= {"A", "B", "C"}
    ensures Reset(prefs) == map["A" := UNSET, "B" := UNSET, "C" := UNSET]
  {
    var r, expected := Reset(prefs), map["A" := UNSET, "B" := UNSET, "C" := UNSET];
    assert r.Keys == expected.Keys;
    assert forall k :: k in r ==> r[k] == expected[k];
  }

  /** The text shown in the status view: the three screens' statuses, one per line, in the order A, B, C. */
  function StatusText(prefs: map<string, string>): (r: string)
    ensures |r| >= 3 && r[|r| - 1] == '\n'
    ensures |GetString(prefs, "A", UNSET)| < |r| && r[..|GetString(prefs, "A", UNSET)|] == GetString(prefs, "A", UNSET)
  {
    GetString(prefs, "A", UNSET) + "\n" + GetString(prefs, "B", UNSET) + "\n" + GetString(prefs, "C", UNSET) + "\n"
  }

  /** Index of the first newline at or after `from`, or `|s|` when there is none. */
  function NewlineFrom(s: string, from: nat): (k: nat)
    requires from <= |s|
    ensures from <= k <= |s|
    decreases |s| - from
  {
    if from == |s| || s[from] == '\n' then from else NewlineFrom(s, from + 1)
  }

  /** Splits newline-terminated text into its lines. */
  function Lines(s: string): seq<string>
    decreases |s|
  {
    if s == [] then []
    else
      var k := NewlineFrom(s, 0);
      [s[..k]] + (if k < |s| then Lines(s[k + 1..]) else [])
  }

  lemma {:induction false} NewlineAfter(a: string, rest: string, from: nat)
    requires '\n' !in a && from <= |a|
    ensures NewlineFrom(a + "\n" + rest, from) == |a|
    decreases |a| - from
  {
    var s := a + "\n" + rest;
    if from < |a| {
      assert s[from] == a[from];
      NewlineAfter(a, rest, from + 1);
    } else {
      assert s[from] == '\n';
    }
  }

  lemma LinesCons(a: string, rest: string)
    requires '\n' !in a
    ensures Lines(a + "\n" + rest) == [a] + Lines(rest)
  {
    var s := a + "\n" + rest;
    NewlineAfter(a, rest, 0);
    assert s[..|a|] == a;
    assert s[|a| + 1..] == rest;
  }

  /**
   * The status text splits back into exactly the three statuses, in the
   * order A, B, C, each "null" when the store has no entry for it.
   */
  lemma StatusTextLines(prefs: map<string, string>)
    requires forall k :: k in prefs ==> '\n' !in prefs[k]
    ensures Lines(StatusText(prefs)) == [GetString(prefs, "A", UNSET), GetString(prefs, "B", UNSET), GetString(prefs, "C", UNSET)]
  {
    assert '\n' !in UNSET;
    ThreeLines(GetString(prefs, "A", UNSET), GetString(prefs, "B", UNSET), GetString(prefs, "C", UNSET));
  }

  lemma OneLine(c: string)
    requires '\n' !in c
    ensures Lines(c + "\n") == [c]
  {
    LinesCons(c, "");
    assert c + "\n" + "" == c + "\n";
    assert Lines("") == [];
  }

  lemma ThreeLines(a: string, b: string, c: string)
    requires '\n' !in a && '\n' !in b && '\n' !in c
    ensures Lines(a + "\n" + b + "\n" + c + "\n") == [a, b, c]
  {
    var tailC := c + "\n";
    var tailB := b + "\n" + tailC;
    OneLine(c);
    LinesCons(b, tailC);
    LinesCons(a, tailB);
    assert a + "\n" + b + "\n" + c + "\n" == a + "\n" + tailB;
  }

  /** `startBByA`: the intent that opens screen B. */
  function StartBByA(): (i: Intent)
    ensures i.target == "B" && i.caller.Some?
  {
    Intent("B", Some(ID))
  }

  /** `startCByA`: the intent that opens screen C. */
  function StartCByA(): (i: Intent)
    ensures i.target == "C" && i.caller.Some?
  {
    Intent("C", Some(ID))
  }

  /**
   * Navigation from A always carries the caller tag "A". B and C are not
   * part of this model: assuming the destination follows A's creation rule
   * (A.java:47), a creation with that non-null caller skips the reset, so
   * only the creating screen's own entry changes. `Step` is A's creation,
   * so that entry is "A" here; the target of the intent plays no part.
   */
  lemma NavigationFromASkipsReset(st: Recorded, intent: Intent)
    requires intent == StartBByA() || intent == StartCByA()
    ensures intent.caller == Some("A")
    ensures forall k :: k != ID && k in st.prefs ==> Step(st, Create(intent.caller)).prefs[k] == st.prefs[k]
  {
  }

  /** The recorder of screen A with the store, the log and its two text views. */
  class Screen {
    var prefs: map<string, string>
    var log: seq<LogRecord>
    /** Text of the status view. */
    var statusView: string
    /** Text of the log view. */
    var logView: string

    function State(): Recorded
      reads this
    {
      Recorded(prefs, log)
    }

    /** A screen object over the store and the log as they already are. */
    constructor (prefs0: map<string, string>, log0: seq<LogRecord>)
      ensures prefs == prefs0 && log == log0 && statusView == "" && logView == ""
    {
      prefs, log := prefs0, log0;
      statusView, logView := "", "";
    }

    /** Writes "A: <state>" under this screen's key and logs "Activity A.<methodName>()". */
    method SaveCurrentState(state: string, methodName: string)
      modifies this`prefs, this`log
      ensures prefs == old(prefs)[ID := ID + ": " + state]
      ensures log == old(log) + [LogRecord(Activities.TAG, "Activity " + ID + "." + methodName + "()")]
      ensures State() == Save(old(State()), state, methodName)
    {
      prefs := prefs[ID := ID + ": " + state];
      log := log + [LogRecord(Activities.TAG, "Activity " + ID + "." + methodName + "()")];
    }

    /** `onCreate`: resets the store when no caller is named, then records "created". */
    method OnCreate(caller: Option<string>)
      modifies this`prefs, this`log
      ensures caller.None? ==> prefs == old(prefs)["A" := "A: created"]["B" := UNSET]["C" := UNSET]
      ensures caller.Some? ==> prefs == old(prefs)["A" := "A: created"]
      ensures log == old(log) + [LogRecord(Activities.TAG, "Activity A.onCreate()")]
      ensures State() == Step(old(State()), Create(caller))
    {
      if caller == None {
        prefs := prefs["A" := UNSET]["B" := UNSET]["C" := UNSET];
      }
      assert ID + ": " + "created" == "A: created";
      assert "Activity " + ID + "." + "onCreate" + "()" == "Activity A.onCreate()";
      SaveCurrentState("created", "onCreate");
    }

    method OnStart()
      modifies this`prefs, this`log
      ensures prefs == old(prefs)["A" := "A: started"]
      ensures log == old(log) + [LogRecord(Activities.TAG, "Activity A.onStart()")]
      ensures State() == Step(old(State()), Start)
    {
      assert ID + ": " + "started" == "A: started";
      assert "Activity " + ID + "." + "onStart" + "()" == "Activity A.onStart()";
      SaveCurrentState("started", "onStart");
    }

    method OnResume()
      modifies this`prefs, this`log
      ensures prefs == old(prefs)["A" := "A: resumed"]
      ensures log == old(log) + [LogRecord(Activities.TAG, "Activity A.onResume()")]
      ensures State() == Step(old(State()), Resume)
    {
      assert ID + ": " + "resumed" == "A: resumed";
      assert "Activity " + ID + "." + "onResume" + "()" == "Activity A.onResume()";
      SaveCurrentState("resumed", "onResume");
    }

    method OnPause()
      modifies this`prefs, this`log
      ensures prefs == old(prefs)["A" := "A: paused"]
      ensures log == old(log) + [LogRecord(Activities.TAG, "Activity A.onPause()")]
      ensures State() == Step(old(State()), Pause)
    {
      assert ID + ": " + "paused" == "A: paused";
      assert "Activity " + ID + "." + "onPause" + "()" == "Activity A.onPause()";
      SaveCurrentState("paused", "onPause");
    }

    method OnStop()
      modifies this`prefs, this`log
      ensures prefs == old(prefs)["A" := "A: stopped"]
      ensures log == old(log) + [LogRecord(Activities.TAG, "Activity A.onStop()")]
      ensures State() == Step(old(State()), Stop)
    {
      assert ID + ": " + "stopped" == "A: stopped";
      assert "Activity " + ID + "." + "onStop" + "()" == "Activity A.onStop()";
      SaveCurrentState("stopped", "onStop");
    }

    method OnDestroy()
      modifies this`prefs, this`log
      ensures prefs == old(prefs)["A" := "A: destroyed"]
      ensures log == old(log) + [LogRecord(Activities.TAG, "Activity A.onDestroy()")]
      ensures State() == Step(old(State()), Destroy)
    {
      assert ID + ": " + "destroyed" == "A: destroyed";
      assert "Activity " + ID + "." + "onDestroy" + "()" == "Activity A.onDestroy()";
      SaveCurrentState("destroyed", "onDestroy");
    }

    /**
     * `updateViews`: shows the status text built from the store, then the
     * log read from `logcat -d` (given as `logcat` and `readFails`). The
     * store and the log are not touched. When `getLog` raises, the log view
     * keeps its text and the error is returned.
     */
    method UpdateViews(logcat: seq<string>, readFails: bool) returns (outcome: Activities.LogResult)
      modifies this`statusView, this`logView
      ensures statusView == StatusText(prefs)
      ensures outcome == Activities.ExpectedLog(logcat, readFails)
      ensures logView == if outcome.Text? then outcome.text else old(logView)
    {
      var initStatuses := "";
      initStatuses := initStatuses + GetString(prefs, "A", UNSET) + "\n";
      initStatuses := initStatuses + GetString(prefs, "B", UNSET) + "\n";
      initStatuses := initStatuses + GetString(prefs, "C", UNSET) + "\n";
      assert initStatuses == StatusText(prefs);
      statusView := initStatuses;
      outcome := Activities.GetLog(logcat, readFails);
      if outcome.Text? {
        logView := outcome.text;
      }
    }

    /** `handleMessage`: only a message whose `what` is UPDATE_VIEWS refreshes the views. */
    method HandleMessage(what: int, logcat: seq<string>, readFails: bool) returns (outcome: Option<Activities.LogResult>)
      modifies this`statusView, this`logView
      ensures what == Activities.UPDATE_VIEWS ==>
                statusView == StatusText(prefs)
                && outcome == Some(Activities.ExpectedLog(logcat, readFails))
                && logView == if outcome.value.Text? then outcome.value.text else old(logView)
      ensures what != Activities.UPDATE_VIEWS ==>
                outcome == None && statusView == old(statusView) && logView == old(logView)
    {
      if what == Activities.UPDATE_VIEWS {
        var r := UpdateViews(logcat, readFails);
        outcome := Some(r);
      } else {
        outcome := None;
      }
    }
  }

  /**
   * Refreshing twice with nothing written in between shows the same texts
   * both times, and the store and the log stay as they were.
   */
  method RefreshIsIdempotent(s: Screen, logcat: seq<string>, readFails: bool)
    returns (firstStatus: string, secondStatus: string, firstLog: string, secondLog: string)
    modifies s`statusView, s`logView
    ensures firstStatus == secondStatus == StatusText(s.prefs)
    ensures firstLog == secondLog
    ensures s.prefs == old(s.prefs) && s.log == old(s.log)
  {
    var _ := s.UpdateViews(logcat, readFails);
    firstStatus, firstLog := s.statusView, s.logView;
    var _ := s.UpdateViews(logcat, readFails);
    secondStatus, secondLog := s.statusView, s.logView;
  }
}
