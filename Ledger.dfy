/**
 * The achievement ledger of scripts/achievement-tracker.js as values: the
 * stats record (a JSON object of counters and dates), the list of unlocked
 * achievement ids, the fixed rule table, and the effect of each hook event
 * (tool use, prompt, session start) on them.  The class in Tracker.dfy
 * performs these effects step by step on its files; here they are functions,
 * and the lemmas below state what the tracker promises about them.
 */
module Ledger {

  datatype Option<T> = None | Some(value: T)

  /** A JSON value stored in stats.json: counters are numbers, dates are strings. */
  datatype Value = Num(n: int) | Text(s: string)

  /** The parsed stats.json object. */
  type Stats = map<string, Value>

  /** What a JSON file holds: nothing yet, text that does not parse into the expected shape, or a value. */
  datatype OnDisk<T> = Absent | Corrupt | Json(value: T)

  /** One line appended to activity.log when an achievement unlocks (the timestamp is not modelled). */
  datatype LogLine = Unlocked(id: string, name: string)

  /** The tracker's persistent state: stats.json, unlocked.json and the lines it appended to activity.log. */
  datatype World = World(stats: OnDisk<Stats>, unlocked: OnDisk<seq<string>>, log: seq<LogLine>)

  // ---------------------------------------------------------------------------
  // Stat keys
  // ---------------------------------------------------------------------------

  const BugsFixed: string := "bugs_fixed"
  const TestsWritten: string := "tests_written"
  const UnsafeAvoidedDays: string := "unsafe_avoided_days"
  const UnsafeUsed: string := "unsafe_used"
  const CodeReviews: string := "code_reviews"
  const DocsWritten: string := "docs_written"
  const ErrorsResolved: string := "errors_resolved"
  const Refactors: string := "refactors"
  const StreakDays: string := "streak_days"
  const TotalSessions: string := "total_sessions"
  const RustQuestions: string := "rust_questions"
  const SkillsUsed: string := "skills_used"
  const LastDate: string := "last_date"
  const LastUnsafeDate: string := "last_unsafe_date"
  const FirstSessionDate: string := "first_session_date"

  /** The keys that hold dates rather than counters. */
  const DateKeys: set<string> := {LastDate, LastUnsafeDate, FirstSessionDate}

  /** The counters the streak engine may reset. */
  const StreakKeys: set<string> := {StreakDays, UnsafeAvoidedDays}

  /** The record written when stats.json does not exist yet. */
  const InitialStats: Stats := map[
    BugsFixed := Num(0), TestsWritten := Num(0), UnsafeAvoidedDays := Num(0),
    UnsafeUsed := Num(0), CodeReviews := Num(0), DocsWritten := Num(0),
    ErrorsResolved := Num(0), Refactors := Num(0), StreakDays := Num(0),
    TotalSessions := Num(0), RustQuestions := Num(0), SkillsUsed := Num(0),
    LastDate := Text(""), LastUnsafeDate := Text(""), FirstSessionDate := Text("")
  ]

  // ---------------------------------------------------------------------------
  // JavaScript value semantics used by the stat helpers
  // ---------------------------------------------------------------------------

  /** JavaScript truthiness of a number or a string. */
  predicate Truthy(v: Value) {
    match v
    case Num(n) => n != 0
    case Text(t) => t != ""
  }

  /** `stats[key] || 0` */
  function Or0(s: Stats, key: string): Value {
    if key in s && Truthy(s[key]) then s[key] else Num(0)
  }

  /** `v || ''` */
  function OrEmpty(v: Value): Value {
    if Truthy(v) then v else Text("")
  }

  /** `getStat(key) || ''`, how the session handler reads a date. */
  function DateOr(s: Stats, key: string): Value {
    OrEmpty(Or0(s, key))
  }

  /** `v + 1` in JavaScript: addition on a number, concatenation on a string. */
  function Plus1(v: Value): Value {
    match v
    case Num(n) => Num(n + 1)
    case Text(t) => Text(t + "1")
  }

  /** The integer a counter reads as (a missing key or a string counts as 0). */
  function Count(s: Stats, key: string): int {
    if key in s && s[key].Num? then s[key].n else 0
  }

  /** The stats record as `incrementStat(key)` leaves it. */
  function Inc(s: Stats, key: string): Stats {
    s[key := Plus1(Or0(s, key))]
  }

  /**
   * The record is well formed: dates are strings, every other value is a
   * non-negative number.
   */
  ghost predicate WellFormed(s: Stats) {
    forall k :: k in s ==> if k in DateKeys then s[k].Text? else s[k].Num? && s[k].n >= 0
  }

  /** Counters that never go down: everything but the dates and the two streaks. */
  ghost predicate NoCounterDecreased(s: Stats, s': Stats) {
    forall k :: k !in DateKeys && k !in StreakKeys ==> Count(s, k) <= Count(s', k)
  }

  // ---------------------------------------------------------------------------
  // The rule table
  // ---------------------------------------------------------------------------

  /** An achievement: unlocked once the stat `metric` reaches `threshold`. */
  datatype Rule = Rule(id: string, name: string, metric: string, threshold: int)

  const Rules: seq<Rule> := [
    Rule("first_blood", "First Blood", BugsFixed, 1),
    Rule("bug_hunter", "Bug Hunter", BugsFixed, 10),
    Rule("bug_slayer", "Bug Slayer", BugsFixed, 50),
    Rule("bug_terminator", "Bug Terminator", BugsFixed, 100),
    Rule("test_curious", "Test Curious", TestsWritten, 1),
    Rule("test_believer", "Test Believer", TestsWritten, 10),
    Rule("test_enthusiast", "Test Enthusiast", TestsWritten, 50),
    Rule("tdd_master", "TDD Master", TestsWritten, 100),
    Rule("getting_started", "Getting Started", StreakDays, 3),
    Rule("week_warrior", "Week Warrior", StreakDays, 7),
    Rule("monthly_master", "Monthly Master", StreakDays, 30),
    Rule("unstoppable", "Unstoppable", StreakDays, 100),
    Rule("safety_first", "Safety First", UnsafeAvoidedDays, 7),
    Rule("safe_rustacean", "Safe Rustacean", UnsafeAvoidedDays, 30),
    Rule("safety_champion", "Safety Champion", UnsafeAvoidedDays, 100),
    Rule("error_whisperer", "Error Whisperer", ErrorsResolved, 1),
    Rule("borrow_checker_friend", "Borrow Checker's Friend", ErrorsResolved, 25),
    Rule("compiler_whisperer", "Compiler Whisperer", ErrorsResolved, 100),
    Rule("code_reviewer", "Code Reviewer", CodeReviews, 1),
    Rule("quality_guardian", "Quality Guardian", CodeReviews, 10),
    Rule("documenter", "Documenter", DocsWritten, 5),
    Rule("doc_master", "Documentation Master", DocsWritten, 25),
    Rule("code_cleaner", "Code Cleaner", Refactors, 5),
    Rule("architect", "Architect", Refactors, 25),
    Rule("curious_crab", "Curious Crab", RustQuestions, 10),
    Rule("knowledge_seeker", "Knowledge Seeker", RustQuestions, 50),
    Rule("rust_scholar", "Rust Scholar", RustQuestions, 100),
    Rule("hello_rust", "Hello, Rust!", TotalSessions, 1),
    Rule("regular", "Regular", TotalSessions, 50),
    Rule("dedicated", "Dedicated", TotalSessions, 200)
  ]

  /** `getStat(key)`: the stored value or 0, and 0 when stats.json cannot be read. */
  function StatOf(d: OnDisk<Stats>, key: string): (r: Value)
    ensures Truthy(r) <==> d.Json? && key in d.value && Truthy(d.value[key])
    ensures Truthy(r) ==> r == d.value[key]
    ensures !Truthy(r) ==> r == Num(0)
  {
    match d
    case Json(s) => Or0(s, key)
    case _ => Num(0)
  }

  /** `stat >= threshold` (a string stat never compares as reached; see README). */
  predicate Reached(v: Value, threshold: int) {
    v.Num? && v.n >= threshold
  }

  predicate Qualifies(d: OnDisk<Stats>, r: Rule) {
    Reached(StatOf(d, r.metric), r.threshold)
  }

  /** The rules of `rs` whose condition holds, in table order. */
  function Qualifying(d: OnDisk<Stats>, rs: seq<Rule>): (q: seq<Rule>)
    ensures forall r :: r in q <==> r in rs && Qualifies(d, r)
  {
    if rs == [] then []
    else
      var q := Qualifying(d, rs[..|rs| - 1]);
      var r := rs[|rs| - 1];
      assert rs == rs[..|rs| - 1] + [r];
      if Qualifies(d, r) then q + [r] else q
  }

  // ---------------------------------------------------------------------------
  // Unlocking
  // ---------------------------------------------------------------------------

  /** `unlockAchievement(rule)`: append the id once and log it; an unreadable list is left alone but still logged. */
  function UnlockOne(w: World, r: Rule): World {
    match w.unlocked
    case Json(u) =>
      if r.id in u then w else World(w.stats, Json(u + [r.id]), w.log + [Unlocked(r.id, r.name)])
    case _ => World(w.stats, w.unlocked, w.log + [Unlocked(r.id, r.name)])
  }

  /** `unlockAchievement` on each rule of `rs` in turn. */
  function UnlockAll(w: World, rs: seq<Rule>): World
    decreases |rs|
  {
    if rs == [] then w else UnlockOne(UnlockAll(w, rs[..|rs| - 1]), rs[|rs| - 1])
  }

  /** `checkAchievements()`: unlock every rule whose threshold the current stats reach. */
  function Evaluate(w: World): World {
    UnlockAll(w, Qualifying(w.stats, Rules))
  }

  function Ids(rs: seq<Rule>): (ids: seq<string>)
    ensures |ids| == |rs|
    ensures forall i :: 0 <= i < |rs| ==> ids[i] == rs[i].id
  {
    if rs == [] then [] else Ids(rs[..|rs| - 1]) + [rs[|rs| - 1].id]
  }

  function LoggedIds(log: seq<LogLine>): (ids: seq<string>)
    ensures |ids| == |log|
    ensures forall i :: 0 <= i < |log| ==> ids[i] == log[i].id
  {
    if log == [] then [] else LoggedIds(log[..|log| - 1]) + [log[|log| - 1].id]
  }

  ghost predicate NoDuplicates(u: seq<string>) {
    forall i, j :: 0 <= i < j < |u| ==> u[i] != u[j]
  }

  // ---------------------------------------------------------------------------
  // Event effects on the stats record
  // ---------------------------------------------------------------------------

  /** The free-text patterns of the tool and prompt handlers, left uninterpreted. */
  datatype Pattern =
    | TestCode       // Edit/Write input looks like a test
    | UnsafeBlock    // Edit/Write input contains `unsafe {`
    | BugFix         // Edit/Write input mentions a fix
    | Refactoring    // Edit/Write input mentions a refactoring
    | CargoTest      // Bash command runs the tests
    | CargoLint      // Bash command runs clippy or fmt
    | RustTopic      // the prompt is about Rust
    | CompilerError  // the prompt quotes a compiler error

  /** The classifier: whether a pattern matches a text, and how many doc-comment lines a text holds. */
  datatype Classifier = Classifier(matches: (Pattern, string) -> bool, docCommentLines: string -> nat)

  /** The hook payload taken from the environment (an absent variable reads as ""). */
  datatype Event = Event(toolName: string, toolInput: string, prompt: string)

  /** Unsafe code seen on `today`: one more unsafe use, the date recorded, the safe-day count back to 0. */
  function UnsafeStats(s: Stats, today: string): Stats {
    Inc(s, UnsafeUsed)[LastUnsafeDate := Text(today)][UnsafeAvoidedDays := Num(0)]
  }

  /** Increment `key` when `b` holds. */
  function IncIf(s: Stats, b: bool, key: string): Stats {
    if b then Inc(s, key) else s
  }

  /** The first updates of an Edit or Write call: test code, then unsafe code. */
  function EditHead(s: Stats, input: string, today: string, c: Classifier): Stats {
    var s1 := IncIf(s, c.matches(TestCode, input), TestsWritten);
    if c.matches(UnsafeBlock, input) then UnsafeStats(s1, today) else s1
  }

  /** The remaining updates of an Edit or Write call: documentation, bug fixes, refactoring. */
  function EditTail(s: Stats, input: string, c: Classifier): Stats {
    var s3 := IncIf(s, c.docCommentLines(input) > 2, DocsWritten);
    var s4 := IncIf(s3, c.matches(BugFix, input), BugsFixed);
    IncIf(s4, c.matches(Refactoring, input), Refactors)
  }

  /** The stats updates of `handleToolUse` for an Edit or Write call. */
  function EditStats(s: Stats, input: string, today: string, c: Classifier): Stats {
    EditTail(EditHead(s, input, today, c), input, c)
  }

  /** The stats updates of `handleToolUse` for a Bash call. */
  function BashStats(s: Stats, input: string, c: Classifier): Stats {
    var s1 := if c.matches(CargoTest, input) then Inc(s, TestsWritten) else s;
    if c.matches(CargoLint, input) then Inc(s1, CodeReviews) else s1
  }

  /** The stats updates of `handleToolUse`: other tools change nothing. */
  function ToolUseStats(s: Stats, tool: string, input: string, today: string, c: Classifier): Stats {
    if tool == "Edit" || tool == "Write" then EditStats(s, input, today, c)
    else if tool == "Bash" then BashStats(s, input, c)
    else s
  }

  /** The stats updates of `handlePrompt`. */
  function PromptStats(s: Stats, prompt: string, c: Classifier): Stats {
    var s1 := if c.matches(RustTopic, prompt) then Inc(s, RustQuestions) else s;
    if c.matches(CompilerError, prompt) then Inc(s1, ErrorsResolved) else s1
  }

  /** The first-session date is written once, while it is still empty. */
  function FirstSessionStats(s: Stats, today: string): Stats {
    if !Truthy(DateOr(s, FirstSessionDate)) then s[FirstSessionDate := Text(today)] else s
  }

  /**
   * The new-day branch of `handleSessionStart`, where `last` is the last
   * active day read before the session started.
   */
  function NewDayStats(s: Stats, last: Value, today: string, yesterday: string): Stats {
    var s2 := Inc(s, TotalSessions);
    var s3 := if Truthy(last) && last == Text(yesterday) then Inc(s2, StreakDays) else s2[StreakDays := Num(1)];
    var lastUnsafe := DateOr(s3, LastUnsafeDate);
    var s4 := if !Truthy(lastUnsafe) || lastUnsafe != Text(today) then Inc(s3, UnsafeAvoidedDays) else s3;
    s4[LastDate := Text(today)]
  }

  /** The stats updates of `handleSessionStart` on `today`, given the date before it. */
  function SessionStats(s: Stats, today: string, yesterday: string): Stats {
    var last := DateOr(s, LastDate);
    var s1 := FirstSessionStats(s, today);
    if last == Text(today) then s1 else NewDayStats(s1, last, today, yesterday)
  }

  // ---------------------------------------------------------------------------
  // Event effects on the whole state
  // ---------------------------------------------------------------------------

  /** The files after the module initialisation: a missing file is created with its zero value. */
  function Initialised(stats: OnDisk<Stats>, unlocked: OnDisk<seq<string>>): World {
    World(if stats.Absent? then Json(InitialStats) else stats,
          if unlocked.Absent? then Json([]) else unlocked,
          [])
  }

  function MapStats(d: OnDisk<Stats>, f: Stats -> Stats): OnDisk<Stats> {
    match d
    case Json(s) => Json(f(s))
    case _ => d
  }

  /** `handleToolUse()`: nothing at all without a tool name; otherwise update the stats, then evaluate. */
  function ToolUse(w: World, tool: string, input: string, today: string, c: Classifier): World {
    if tool == "" then w
    else Evaluate(w.(stats := MapStats(w.stats, s => ToolUseStats(s, tool, input, today, c))))
  }

  /** `handlePrompt()`: nothing at all without a prompt; otherwise update the stats, then evaluate. */
  function Prompt(w: World, prompt: string, c: Classifier): World {
    if prompt == "" then w
    else Evaluate(w.(stats := MapStats(w.stats, s => PromptStats(s, prompt, c))))
  }

  /** `handleSessionStart()`: update sessions and streaks, then evaluate. */
  function SessionStart(w: World, today: string, yesterday: string): World {
    Evaluate(w.(stats := MapStats(w.stats, s => SessionStats(s, today, yesterday))))
  }

  /** `main()`: route on the hook type (`PostToolUse` when none is given). */
  function Dispatch(w: World, hook: string, ev: Event, today: string, yesterday: string, c: Classifier): World {
    var h := if hook == "" then "PostToolUse" else hook;
    if h == "UserPromptSubmit" then Prompt(SessionStart(w, today, yesterday), ev.prompt, c)
    else if h == "SessionStart" then SessionStart(w, today, yesterday)
    else ToolUse(w, ev.toolName, ev.toolInput, today, c)
  }

  /** Whether `main` ends by evaluating the rules (it does not when the payload it needs is empty). */
  predicate Evaluates(hook: string, ev: Event) {
    var h := if hook == "" then "PostToolUse" else hook;
    h == "UserPromptSubmit" || h == "SessionStart" || ev.toolName != ""
  }
}
