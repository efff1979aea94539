/**
 * The achievement tracker as the script runs it: two JSON files that every
 * helper re-reads and rewrites through `atomicUpdate`, and the activity log
 * it appends to.  Each method performs the script's sequence of reads and
 * writes and is proved to leave exactly the state the matching function of
 * Ledger describes, so every lemma of LedgerProperties holds of it.
 */
module Tracker {
  import opened Ledger

  /** A JSON file on disk, read and rewritten as a whole. */
  class JsonFile<T> {
    var content: OnDisk<T>

    constructor (initial: OnDisk<T>)
      ensures content == initial
    {
      content := initial;
    }

    /**
     * `atomicUpdate(file, updater)`: read and parse the file, store the
     * updater's result and return it; when the file is missing or does not
     * parse, return null and leave the file as it was.
     */
    method AtomicUpdate(updater: T -> T) returns (r: Option<T>)
      modifies this
      ensures old(content).Json? ==> r == Some(updater(old(content).value)) && content == Json(r.value)
      ensures !old(content).Json? ==> r == None && content == old(content)
    {
      match content
      case Json(data) =>
        var updated := updater(data);
        content := Json(updated);
        r := Some(updated);
      case _ =>
        r := None;
    }
  }

  class AchievementTracker {
    /** stats.json */
    const stats: JsonFile<Stats>
    /** unlocked.json, reduced to its `unlocked` array */
    const unlocked: JsonFile<seq<string>>
    /** The unlock lines appended to activity.log */
    var log: seq<LogLine>

    ghost predicate Valid()
      reads this
    {
      stats as object != unlocked as object
    }

    ghost function State(): World
      reads this, stats, unlocked
    {
      World(stats.content, unlocked.content, log)
    }

    /** The module initialisation: a missing stats.json or unlocked.json is created with its zero value. */
    constructor (statsFile: OnDisk<Stats>, unlockedFile: OnDisk<seq<string>>)
      ensures Valid()
      ensures State() == Initialised(statsFile, unlockedFile)
    {
      stats := new JsonFile(if statsFile.Absent? then Json(InitialStats) else statsFile);
      unlocked := new JsonFile(if unlockedFile.Absent? then Json([]) else unlockedFile);
      log := [];
    }

    /** `setStat(key, value)`: replace one key of a readable record. */
    method SetStat(key: string, value: Value)
      requires Valid()
      modifies stats
      ensures stats.content == MapStats(old(stats.content), s => s[key := value])
    {
      var _ := stats.AtomicUpdate(s => s[key := value]);
    }

    /** `incrementStat(key)`: add one to a readable record's counter and return its new value, or null. */
    method IncrementStat(key: string) returns (count: Option<Value>)
      requires Valid()
      modifies stats
      ensures stats.content == MapStats(old(stats.content), s => Inc(s, key))
      ensures old(stats.content).Json? ==> count == Some(Plus1(Or0(old(stats.content).value, key)))
      ensures !old(stats.content).Json? ==> count == None
    {
      var updated := stats.AtomicUpdate(s => Inc(s, key));
      count := if updated.Some? then Some(updated.value[key]) else None;
    }

    /** `isUnlocked(id)`: false when unlocked.json cannot be read. */
    function IsUnlocked(id: string): (b: bool)
      reads this, unlocked
      ensures b <==> unlocked.content.Json? && id in unlocked.content.value
    {
      match unlocked.content
      case Json(u) => id in u
      case _ => false
    }

    /** `unlockAchievement(rule)`: append a new id to the list and log it. */
    method UnlockAchievement(rule: Rule)
      requires Valid()
      modifies this, unlocked
      ensures State() == UnlockOne(old(State()), rule)
    {
      if IsUnlocked(rule.id) {
        return;
      }
      var _ := unlocked.AtomicUpdate(u => u + [rule.id]);
      log := log + [Unlocked(rule.id, rule.name)];
    }

    /** `checkAchievements()`: unlock, in table order, every rule whose stat reaches its threshold. */
    method CheckAchievements()
      requires Valid()
      modifies this, unlocked
      ensures State() == Evaluate(old(State()))
    {
      CheckRules(Rules);
    }

    /** The loop of `checkAchievements()` over a table of rules. */
    method CheckRules(rules: seq<Rule>)
      requires Valid()
      modifies this, unlocked
      ensures State() == UnlockAll(old(State()), Qualifying(old(State()).stats, rules))
    {
      ghost var w0 := State();
      for i := 0 to |rules|
        invariant stats.content == w0.stats
        invariant State() == UnlockAll(w0, Qualifying(w0.stats, rules[..i]))
      {
        var rule := rules[i];
        assert rules[..i + 1][..i] == rules[..i];
        if Reached(StatOf(stats.content, rule.metric), rule.threshold) {
          UnlockAchievement(rule);
        }
      }
      assert rules[..|rules|] == rules;
    }

    /** `handleToolUse()`: count what an Edit/Write or Bash call shows, then check the rules; nothing without a tool name. */
    method HandleToolUse(tool: string, input: string, today: string, c: Classifier)
      requires Valid()
      modifies this, stats, unlocked
      ensures State() == ToolUse(old(State()), tool, input, today, c)
    {
      if tool == "" {
        return;
      }
      if tool == "Edit" || tool == "Write" {
        HandleEdit(input, today, c);
      } else if tool == "Bash" {
        HandleBash(input, c);
      }
      CheckAchievements();
    }

    /** The Edit/Write branch of `handleToolUse`. */
    method HandleEdit(input: string, today: string, c: Classifier)
      requires Valid()
      modifies stats
      ensures stats.content == MapStats(old(stats.content), s => EditStats(s, input, today, c))
    {
      ghost var d0 := stats.content;
      if c.matches(TestCode, input) {
        var count := IncrementStat(TestsWritten);
      }
      if c.matches(UnsafeBlock, input) {
        RecordUnsafe(today);
      }
      ghost var d2 := stats.content;
      assert d2 == MapStats(d0, s => EditHead(s, input, today, c));
      HandleEditTail(input, c);
    }

    /** The documentation, bug-fix and refactoring counters of an Edit or Write call. */
    method HandleEditTail(input: string, c: Classifier)
      requires Valid()
      modifies stats
      ensures stats.content == MapStats(old(stats.content), s => EditTail(s, input, c))
    {
      if c.docCommentLines(input) > 2 {
        var _ := IncrementStat(DocsWritten);
      }
      if c.matches(BugFix, input) {
        var count := IncrementStat(BugsFixed);
      }
      if c.matches(Refactoring, input) {
        var _ := IncrementStat(Refactors);
      }
    }

    /** Unsafe code in an edit: count it, record today as its date and restart the safe-day count. */
    method RecordUnsafe(today: string)
      requires Valid()
      modifies stats
      ensures stats.content == MapStats(old(stats.content), s => UnsafeStats(s, today))
    {
      var _ := IncrementStat(UnsafeUsed);
      SetStat(LastUnsafeDate, Text(today));
      SetStat(UnsafeAvoidedDays, Num(0));
    }

    /** The Bash branch of `handleToolUse`. */
    method HandleBash(input: string, c: Classifier)
      requires Valid()
      modifies stats
      ensures stats.content == MapStats(old(stats.content), s => BashStats(s, input, c))
    {
      if c.matches(CargoTest, input) {
        var _ := IncrementStat(TestsWritten);
      }
      if c.matches(CargoLint, input) {
        var _ := IncrementStat(CodeReviews);
      }
    }

    /** `handlePrompt()`: count Rust questions and compiler errors, then check the rules; nothing without a prompt. */
    method HandlePrompt(prompt: string, c: Classifier)
      requires Valid()
      modifies this, stats, unlocked
      ensures State() == Prompt(old(State()), prompt, c)
    {
      if prompt == "" {
        return;
      }
      ghost var d0 := stats.content;
      if c.matches(RustTopic, prompt) {
        var _ := IncrementStat(RustQuestions);
      }
      if c.matches(CompilerError, prompt) {
        var _ := IncrementStat(ErrorsResolved);
      }
      assert stats.content == MapStats(d0, s => PromptStats(s, prompt, c));
      CheckAchievements();
    }

    /** `handleSessionStart()` on `today`, with `yesterday` the date before it. */
    method HandleSessionStart(today: string, yesterday: string)
      requires Valid()
      modifies this, stats, unlocked
      ensures State() == SessionStart(old(State()), today, yesterday)
    {
      ghost var d0 := stats.content;
      var lastDate := OrEmpty(StatOf(stats.content, LastDate));
      var firstDate := OrEmpty(StatOf(stats.content, FirstSessionDate));
      if !Truthy(firstDate) {
        SetStat(FirstSessionDate, Text(today));
      }
      ghost var d1 := stats.content;
      assert d1 == MapStats(d0, s => FirstSessionStats(s, today));
      if lastDate != Text(today) {
        StartNewDay(lastDate, today, yesterday);
      }
      assert stats.content == MapStats(d0, s => SessionStats(s, today, yesterday));
      CheckAchievements();
    }

    /** The new-day branch of `handleSessionStart`: one more session, the streaks, and today as the last active day. */
    method StartNewDay(lastDate: Value, today: string, yesterday: string)
      requires Valid()
      modifies stats
      ensures stats.content == MapStats(old(stats.content), s => NewDayStats(s, lastDate, today, yesterday))
    {
      var _ := IncrementStat(TotalSessions);
      if Truthy(lastDate) {
        if lastDate == Text(yesterday) {
          var _ := IncrementStat(StreakDays);
        } else {
          SetStat(StreakDays, Num(1));
        }
      } else {
        SetStat(StreakDays, Num(1));
      }
      var lastUnsafe := OrEmpty(StatOf(stats.content, LastUnsafeDate));
      if !Truthy(lastUnsafe) || lastUnsafe != Text(today) {
        var _ := IncrementStat(UnsafeAvoidedDays);
      }
      SetStat(LastDate, Text(today));
    }

    /** `main()`: route on the hook type, `PostToolUse` when none is given. */
    method HandleHook(hook: string, ev: Event, today: string, yesterday: string, c: Classifier)
      requires Valid()
      modifies this, stats, unlocked
      ensures State() == Dispatch(old(State()), hook, ev, today, yesterday, c)
    {
      var hookType := if hook == "" then "PostToolUse" else hook;
      if hookType == "PostToolUse" {
        HandleToolUse(ev.toolName, ev.toolInput, today, c);
      } else if hookType == "UserPromptSubmit" {
        HandleSessionStart(today, yesterday);
        HandlePrompt(ev.prompt, c);
      } else if hookType == "SessionStart" {
        HandleSessionStart(today, yesterday);
      } else {
        HandleToolUse(ev.toolName, ev.toolInput, today, c);
      }
    }
  }
}
