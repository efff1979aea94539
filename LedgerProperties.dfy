/**
 * What the achievement tracker promises, proved about the effects in Ledger:
 * the unlocked list only grows and never repeats an id, every reached tier is
 * unlocked and a second evaluation unlocks nothing, the session/streak rules,
 * and that no counter other than the two streaks ever goes down.
 */
module LedgerProperties {
  import opened Ledger

  // ---------------------------------------------------------------------------
  // Unlocking
  // ---------------------------------------------------------------------------

  /** `u'` is `u` with ids appended. */
  ghost predicate Extends<T>(u: seq<T>, u': seq<T>) {
    |u| <= |u'| && u'[..|u|] == u
  }

  /**
   * On a readable unlocked list, unlocking a run of rules only appends to the
   * list and to the log, and the log names exactly the appended ids, in order.
   */
  lemma {:induction false} UnlockAllOnIntactList(w: World, rs: seq<Rule>)
    requires w.unlocked.Json?
    ensures UnlockAll(w, rs).stats == w.stats
    ensures UnlockAll(w, rs).unlocked.Json?
    ensures var u, u' := w.unlocked.value, UnlockAll(w, rs).unlocked.value;
      && Extends(u, u') && Extends(w.log, UnlockAll(w, rs).log)
      && LoggedIds(UnlockAll(w, rs).log) == LoggedIds(w.log) + u'[|u|..]
    decreases |rs|
  {
    if rs != [] {
      var front, r := rs[..|rs| - 1], rs[|rs| - 1];
      UnlockAllOnIntactList(w, front);
      var w1 := UnlockAll(w, front);
      var u, u1 := w.unlocked.value, w1.unlocked.value;
      assert UnlockAll(w, rs) == UnlockOne(w1, r);
      if r.id !in u1 {
        var u' := u1 + [r.id];
        assert u'[..|u|] == u1[..|u|];
        var log' := w1.log + [Unlocked(r.id, r.name)];
        assert log'[..|w.log|] == w1.log[..|w.log|];
        assert UnlockAll(w, rs).log == log' && UnlockAll(w, rs).unlocked.value == u';
        calc {
          LoggedIds(log');
          { LoggedIdsSnoc(w1.log, Unlocked(r.id, r.name)); }
          LoggedIds(w1.log) + [r.id];
          LoggedIds(w.log) + u1[|u|..] + [r.id];
          { assert u'[|u|..] == u1[|u|..] + [r.id]; }
          LoggedIds(w.log) + u'[|u|..];
        }
      }
    }
  }

  /**
   * On a readable unlocked list, unlocking a run of rules records exactly
   * the ids not yet present, once each: afterwards an id is in the list when
   * it was before or one of the rules carries it.
   */
  lemma {:induction false} UnlockAllMembers(w: World, rs: seq<Rule>)
    requires w.unlocked.Json?
    ensures UnlockAll(w, rs).unlocked.Json?
    ensures var u, u' := w.unlocked.value, UnlockAll(w, rs).unlocked.value;
      && (NoDuplicates(u) ==> NoDuplicates(u'))
      && (forall x :: x in u' <==> x in u || x in Ids(rs))
    decreases |rs|
  {
    if rs != [] {
      var front, r := rs[..|rs| - 1], rs[|rs| - 1];
      UnlockAllMembers(w, front);
      assert Ids(rs) == Ids(front) + [r.id];
    }
  }

  lemma LoggedIdsSnoc(log: seq<LogLine>, line: LogLine)
    ensures LoggedIds(log + [line]) == LoggedIds(log) + [line.id]
  {
    assert (log + [line])[..|log|] == log;
  }

  /** On an unreadable unlocked list nothing is recorded, but every rule run through is logged again. */
  lemma {:induction false} UnlockAllOnUnreadableList(w: World, rs: seq<Rule>)
    requires !w.unlocked.Json?
    ensures UnlockAll(w, rs).stats == w.stats
    ensures UnlockAll(w, rs).unlocked == w.unlocked
    ensures |w.log| <= |UnlockAll(w, rs).log|
    ensures UnlockAll(w, rs).log[..|w.log|] == w.log
    ensures LoggedIds(UnlockAll(w, rs).log[|w.log|..]) == Ids(rs)
    decreases |rs|
  {
    if rs != [] {
      var front, r := rs[..|rs| - 1], rs[|rs| - 1];
      UnlockAllOnUnreadableList(w, front);
      var log1 := UnlockAll(w, front).log;
      var log' := log1 + [Unlocked(r.id, r.name)];
      assert log'[..|w.log|] == log1[..|w.log|];
      assert log'[|w.log|..] == log1[|w.log|..] + [Unlocked(r.id, r.name)];
    }
  }

  /** Unlocking rules whose ids are all recorded already changes nothing. */
  lemma {:induction false} UnlockAllRecorded(w: World, rs: seq<Rule>)
    requires w.unlocked.Json?
    requires forall r :: r in rs ==> r.id in w.unlocked.value
    ensures UnlockAll(w, rs) == w
    decreases |rs|
  {
    if rs != [] {
      assert rs[|rs| - 1] in rs;
      forall r | r in rs[..|rs| - 1] ensures r.id in w.unlocked.value {
        assert r in rs;
      }
      UnlockAllRecorded(w, rs[..|rs| - 1]);
    }
  }

  /**
   * Unlocking the reached rules of a table, on a readable list: afterwards an
   * id is unlocked exactly when it was before or some reached rule carries it.
   */
  lemma UnlockReachedRules(w: World, rs: seq<Rule>)
    requires w.unlocked.Json?
    ensures var w' := UnlockAll(w, Qualifying(w.stats, rs));
      && w'.stats == w.stats && w'.unlocked.Json?
      && var u, u' := w.unlocked.value, w'.unlocked.value;
      && Extends(u, u') && (NoDuplicates(u) ==> NoDuplicates(u'))
      && (forall x :: x in u' <==> x in u || exists i :: 0 <= i < |rs| && Qualifies(w.stats, rs[i]) && rs[i].id == x)
      && Extends(w.log, w'.log) && LoggedIds(w'.log) == LoggedIds(w.log) + u'[|u|..]
  {
    var q := Qualifying(w.stats, rs);
    UnlockAllOnIntactList(w, q);
    UnlockAllMembers(w, q);
    forall x ensures x in Ids(q) <==> exists i :: 0 <= i < |rs| && Qualifies(w.stats, rs[i]) && rs[i].id == x {
      if x in Ids(q) {
        var k :| 0 <= k < |q| && Ids(q)[k] == x;
        assert q[k] in q;
        var i :| 0 <= i < |rs| && rs[i] == q[k];
      }
      if exists i :: 0 <= i < |rs| && Qualifies(w.stats, rs[i]) && rs[i].id == x {
        var i :| 0 <= i < |rs| && Qualifies(w.stats, rs[i]) && rs[i].id == x;
        assert rs[i] in q;
        var k :| 0 <= k < |q| && q[k] == rs[i];
        assert Ids(q)[k] == x;
      }
    }
  }

  /**
   * `checkAchievements` on a readable list: afterwards an id is unlocked
   * exactly when it was before or some rule for it is reached; the list only
   * grows, keeps its ids distinct, and the log names exactly the new ids.
   */
  lemma EvaluateUnlocksReachedTiers(w: World)
    requires w.unlocked.Json?
    ensures Evaluate(w).stats == w.stats
    ensures Evaluate(w).unlocked.Json?
    ensures var u, u' := w.unlocked.value, Evaluate(w).unlocked.value;
      && Extends(u, u') && (NoDuplicates(u) ==> NoDuplicates(u'))
      && (forall x :: x in u' <==> x in u || exists i :: 0 <= i < |Rules| && Qualifies(w.stats, Rules[i]) && Rules[i].id == x)
      && Extends(w.log, Evaluate(w).log) && LoggedIds(Evaluate(w).log) == LoggedIds(w.log) + u'[|u|..]
  {
    UnlockReachedRules(w, Rules);
  }

  /** A second `checkAchievements` with unchanged stats unlocks and logs nothing. */
  lemma EvaluateIdempotent(w: World)
    requires w.unlocked.Json?
    ensures Evaluate(Evaluate(w)) == Evaluate(w)
  {
    var w1 := Evaluate(w);
    EvaluateUnlocksReachedTiers(w);
    var q := Qualifying(w1.stats, Rules);
    forall r | r in q ensures r.id in w1.unlocked.value {
      assert r in Rules && Qualifies(w.stats, r);
      var i :| 0 <= i < |Rules| && Rules[i] == r;
    }
    UnlockAllRecorded(w1, q);
  }

  /**
   * With an unreadable unlocked list every reached rule is announced again on
   * every evaluation, and nothing is ever recorded.
   */
  lemma EvaluateOnUnreadableList(w: World)
    requires !w.unlocked.Json?
    ensures Evaluate(w).unlocked == w.unlocked
    ensures |w.log| <= |Evaluate(w).log| && Evaluate(w).log[..|w.log|] == w.log
    ensures LoggedIds(Evaluate(w).log[|w.log|..]) == Ids(Qualifying(w.stats, Rules))
  {
    UnlockAllOnUnreadableList(w, Qualifying(w.stats, Rules));
  }

  /** With stats.json unreadable every stat reads 0, so no rule is reached and nothing unlocks. */
  lemma UnreadableStatsUnlockNothing(w: World)
    requires !w.stats.Json?
    ensures Evaluate(w) == w
  {
    ThresholdsPositive();
    NothingQualifiesOnUnreadableStats(w.stats, Rules);
  }

  /** Every rule of the table asks for at least 1. */
  lemma ThresholdsPositive()
    ensures forall i :: 0 <= i < |Rules| ==> Rules[i].threshold >= 1
  {
  }

  lemma {:induction false} NothingQualifiesOnUnreadableStats(d: OnDisk<Stats>, rs: seq<Rule>)
    requires !d.Json?
    requires forall i :: 0 <= i < |rs| ==> rs[i].threshold >= 1
    ensures Qualifying(d, rs) == []
    decreases |rs|
  {
    if rs != [] {
      NothingQualifiesOnUnreadableStats(d, rs[..|rs| - 1]);
    }
  }

  /**
   * `tests_written` going from 9 to 11 in one step unlocks the 1- and 10-test
   * tiers together but not the 50-test tier.
   */
  lemma TestsNineToEleven(w: World)
    requires w.unlocked.Json? && "test_enthusiast" !in w.unlocked.value
    requires StatOf(w.stats, TestsWritten) == Num(11)
    ensures Evaluate(w).unlocked.Json?
    ensures "test_curious" in Evaluate(w).unlocked.value
    ensures "test_believer" in Evaluate(w).unlocked.value
    ensures "test_enthusiast" !in Evaluate(w).unlocked.value
  {
    TestTiers();
    ReachedRuleUnlocked(w, 4);
    ReachedRuleUnlocked(w, 5);
    TestEnthusiastNotReached(w.stats);
    EvaluateUnlocksReachedTiers(w);
  }

  /** The 1- and 10-test tiers of the table. */
  lemma TestTiers()
    ensures Rules[4] == Rule("test_curious", "Test Curious", TestsWritten, 1)
    ensures Rules[5] == Rule("test_believer", "Test Believer", TestsWritten, 10)
  {
  }

  /** After `checkAchievements` on a readable list, every reached rule's id is unlocked. */
  lemma ReachedRuleUnlocked(w: World, i: nat)
    requires w.unlocked.Json? && i < |Rules| && Qualifies(w.stats, Rules[i])
    ensures Evaluate(w).unlocked.Json? && Rules[i].id in Evaluate(w).unlocked.value
  {
    EvaluateUnlocksReachedTiers(w);
  }

  /** At 11 tests no rule with the id "test_enthusiast" is reached. */
  lemma TestEnthusiastNotReached(d: OnDisk<Stats>)
    requires StatOf(d, TestsWritten) == Num(11)
    ensures forall i :: 0 <= i < |Rules| && Rules[i].id == "test_enthusiast" ==> !Qualifies(d, Rules[i])
  {
    TestEnthusiastIsTierSix();
    assert Rules[6].metric == TestsWritten && Rules[6].threshold == 50;
  }

  /** Within the rule table the id "test_enthusiast" belongs to the 50-test tier only. */
  lemma TestEnthusiastIsTierSix()
    ensures forall i :: 0 <= i < |Rules| && Rules[i].id == "test_enthusiast" ==> i == 6
  {
  }

  // ---------------------------------------------------------------------------
  // Sessions and streaks
  // ---------------------------------------------------------------------------

  /** A session start on the day already recorded changes nothing but, at most, an empty first-session date. */
  lemma SameDayChangesNoCounter(s: Stats, today: string, yesterday: string)
    requires DateOr(s, LastDate) == Text(today)
    ensures SessionStats(s, today, yesterday) - {FirstSessionDate} == s - {FirstSessionDate}
  {
  }

  /** The first-session date is written only while it is empty, and then to today. */
  lemma FirstSessionDateSetOnce(s: Stats, today: string, yesterday: string)
    ensures var r := SessionStats(s, today, yesterday);
      FirstSessionDate in r &&
      r[FirstSessionDate] == if Truthy(DateOr(s, FirstSessionDate)) then s[FirstSessionDate] else Text(today)
  {
  }

  /**
   * A session start on a new day: one more session; the streak grows by one
   * when the last active day was yesterday and restarts at 1 otherwise
   * (including the very first session); the days without unsafe code grow
   * unless unsafe code was seen today; the last active day becomes today.
   */
  lemma NewDaySession(s: Stats, today: string, yesterday: string)
    requires WellFormed(s)
    requires DateOr(s, LastDate) != Text(today)
    ensures var r := SessionStats(s, today, yesterday);
      && Count(r, TotalSessions) == Count(s, TotalSessions) + 1
      && Count(r, StreakDays) == (if yesterday != "" && DateOr(s, LastDate) == Text(yesterday)
                                  then Count(s, StreakDays) + 1 else 1)
      && Count(r, UnsafeAvoidedDays) == (if today != "" && DateOr(s, LastUnsafeDate) == Text(today)
                                         then Count(s, UnsafeAvoidedDays) else Count(s, UnsafeAvoidedDays) + 1)
      && r[LastDate] == Text(today)
      && forall k :: k in s && k !in {TotalSessions, StreakDays, UnsafeAvoidedDays, LastDate, FirstSessionDate}
           ==> k in r && r[k] == s[k]
  {
    SetDateStep(s, FirstSessionDate, today);
    NewDayCounters(FirstSessionStats(s, today), DateOr(s, LastDate), today, yesterday);
  }

  /** The counter `key` holds a number when present. */
  predicate NumOrAbsent(s: Stats, key: string) {
    key in s ==> s[key].Num?
  }

  /** The counters of the new-day branch. */
  lemma NewDayCounters(s: Stats, last: Value, today: string, yesterday: string)
    requires NumOrAbsent(s, TotalSessions) && NumOrAbsent(s, StreakDays) && NumOrAbsent(s, UnsafeAvoidedDays)
    ensures var r := NewDayStats(s, last, today, yesterday);
      && Count(r, TotalSessions) == Count(s, TotalSessions) + 1
      && Count(r, StreakDays) == (if Truthy(last) && last == Text(yesterday) then Count(s, StreakDays) + 1 else 1)
      && Count(r, UnsafeAvoidedDays) == (if today != "" && DateOr(s, LastUnsafeDate) == Text(today)
                                         then Count(s, UnsafeAvoidedDays) else Count(s, UnsafeAvoidedDays) + 1)
      && r[LastDate] == Text(today)
      && forall k :: k in s && k !in {TotalSessions, StreakDays, UnsafeAvoidedDays, LastDate} ==> k in r && r[k] == s[k]
  {
    NewDayTotal(s, last, today, yesterday);
    NewDayStreak(s, last, today, yesterday);
    NewDayUnsafe(s, last, today, yesterday);
    NewDayOthers(s, last, today, yesterday);
  }

  lemma NewDayTotal(s: Stats, last: Value, today: string, yesterday: string)
    requires NumOrAbsent(s, TotalSessions)
    ensures Count(NewDayStats(s, last, today, yesterday), TotalSessions) == Count(s, TotalSessions) + 1
  {
  }

  lemma NewDayStreak(s: Stats, last: Value, today: string, yesterday: string)
    requires NumOrAbsent(s, StreakDays)
    ensures Count(NewDayStats(s, last, today, yesterday), StreakDays) ==
      if Truthy(last) && last == Text(yesterday) then Count(s, StreakDays) + 1 else 1
  {
  }

  lemma NewDayUnsafe(s: Stats, last: Value, today: string, yesterday: string)
    requires NumOrAbsent(s, UnsafeAvoidedDays)
    ensures Count(NewDayStats(s, last, today, yesterday), UnsafeAvoidedDays) ==
      if today != "" && DateOr(s, LastUnsafeDate) == Text(today) then Count(s, UnsafeAvoidedDays) else Count(s, UnsafeAvoidedDays) + 1
  {
  }

  lemma NewDayOthers(s: Stats, last: Value, today: string, yesterday: string)
    ensures var r := NewDayStats(s, last, today, yesterday);
      && r[LastDate] == Text(today)
      && forall k :: k in s && k !in {TotalSessions, StreakDays, UnsafeAvoidedDays, LastDate} ==> k in r && r[k] == s[k]
  {
  }

  /** Repeating a session start on the same day changes nothing more. */
  lemma SessionIdempotent(s: Stats, today: string, yesterday: string)
    ensures SessionStats(SessionStats(s, today, yesterday), today, yesterday) == SessionStats(s, today, yesterday)
  {
    var r := SessionStats(s, today, yesterday);
    assert DateOr(r, LastDate) == Text(today);
    FirstSessionDateSetOnce(s, today, yesterday);
    assert r[FirstSessionDate := Text(today)] == r || Truthy(DateOr(r, FirstSessionDate));
  }

  /** Session starts keep the record well formed and never lower a counter other than the streaks. */
  lemma SessionMonotone(s: Stats, today: string, yesterday: string)
    requires WellFormed(s)
    ensures WellFormed(SessionStats(s, today, yesterday))
    ensures NoCounterDecreased(s, SessionStats(s, today, yesterday))
  {
    var last := DateOr(s, LastDate);
    var s1 := if !Truthy(DateOr(s, FirstSessionDate)) then s[FirstSessionDate := Text(today)] else s;
    SetDateStep(s, FirstSessionDate, today);
    if last != Text(today) {
      var s2 := Inc(s1, TotalSessions);
      IncStep(s1, TotalSessions);
      var s3 := if Truthy(last) && last == Text(yesterday) then Inc(s2, StreakDays) else s2[StreakDays := Num(1)];
      IncStep(s2, StreakDays);
      SetStreakStep(s2, StreakDays, 1);
      var lastUnsafe := DateOr(s3, LastUnsafeDate);
      var s4 := if !Truthy(lastUnsafe) || lastUnsafe != Text(today) then Inc(s3, UnsafeAvoidedDays) else s3;
      IncStep(s3, UnsafeAvoidedDays);
      SetDateStep(s4, LastDate, today);
      CounterChain(s, s1, s2);
      CounterChain(s, s2, s3);
      CounterChain(s, s3, s4);
      CounterChain(s, s4, s4[LastDate := Text(today)]);
    }
  }

  /** Incrementing a counter keeps the record well formed, raises that counter by one and lowers none. */
  lemma IncStep(s: Stats, key: string)
    requires WellFormed(s) && key !in DateKeys
    ensures WellFormed(Inc(s, key))
    ensures NoCounterDecreased(s, Inc(s, key))
    ensures Count(Inc(s, key), key) == Count(s, key) + 1
  {
  }

  /** Writing a date keeps the record well formed and lowers no counter. */
  lemma SetDateStep(s: Stats, key: string, date: string)
    requires WellFormed(s) && key in DateKeys
    ensures WellFormed(s[key := Text(date)])
    ensures NoCounterDecreased(s, s[key := Text(date)])
  {
  }

  /** Resetting a streak keeps the record well formed and lowers no other counter. */
  lemma SetStreakStep(s: Stats, key: string, n: nat)
    requires WellFormed(s) && key in StreakKeys
    ensures WellFormed(s[key := Num(n)])
    ensures NoCounterDecreased(s, s[key := Num(n)])
  {
  }

  lemma CounterChain(s: Stats, s1: Stats, s2: Stats)
    requires NoCounterDecreased(s, s1) && NoCounterDecreased(s1, s2)
    ensures NoCounterDecreased(s, s2)
  {
  }

  /** Sessions on 2024-01-01, -02, -03 and then 2024-01-10: four sessions, streak back to 1. */
  lemma StreakScenario()
    ensures var d1 := SessionStats(InitialStats, "2024-01-01", "2023-12-31");
      var d2 := SessionStats(d1, "2024-01-02", "2024-01-01");
      var d3 := SessionStats(d2, "2024-01-03", "2024-01-02");
      var d10 := SessionStats(d3, "2024-01-10", "2024-01-09");
      && Count(d3, TotalSessions) == 3 && Count(d3, StreakDays) == 3
      && Count(d10, TotalSessions) == 4 && Count(d10, StreakDays) == 1
  {
    var d1 := SessionStats(InitialStats, "2024-01-01", "2023-12-31");
    FirstDay(InitialStats, "2024-01-01", "2023-12-31");
    var d2 := SessionStats(d1, "2024-01-02", "2024-01-01");
    NextDay(d1, "2024-01-02", "2024-01-01");
    var d3 := SessionStats(d2, "2024-01-03", "2024-01-02");
    NextDay(d2, "2024-01-03", "2024-01-02");
    NewDaySession(d3, "2024-01-10", "2024-01-09");
  }

  /** The first session of a fresh install starts a streak of one. */
  lemma FirstDay(s: Stats, today: string, yesterday: string)
    requires s == InitialStats && today != ""
    ensures var r := SessionStats(s, today, yesterday);
      && WellFormed(r) && DateOr(r, LastDate) == Text(today)
      && Count(r, TotalSessions) == 1 && Count(r, StreakDays) == 1
  {
    InitialWellFormed();
    NewDaySession(s, today, yesterday);
    SessionMonotone(s, today, yesterday);
  }

  /** A session on the day after the last active one extends the streak by one. */
  lemma NextDay(s: Stats, today: string, yesterday: string)
    requires WellFormed(s) && yesterday != "" && today != "" && today != yesterday
    requires DateOr(s, LastDate) == Text(yesterday)
    ensures var r := SessionStats(s, today, yesterday);
      && WellFormed(r) && DateOr(r, LastDate) == Text(today)
      && Count(r, TotalSessions) == Count(s, TotalSessions) + 1
      && Count(r, StreakDays) == Count(s, StreakDays) + 1
  {
    NewDaySession(s, today, yesterday);
    SessionMonotone(s, today, yesterday);
  }

  /** The record created for a fresh install is well formed, with every counter at 0 and no date. */
  lemma InitialWellFormed()
    ensures WellFormed(InitialStats)
    ensures DateOr(InitialStats, LastDate) == Text("")
    ensures DateOr(InitialStats, LastUnsafeDate) == Text("")
    ensures Count(InitialStats, TotalSessions) == 0 && Count(InitialStats, StreakDays) == 0
  {
  }

  // ---------------------------------------------------------------------------
  // Tool use and prompts
  // ---------------------------------------------------------------------------

  /** A tool other than Edit, Write or Bash changes no stat; an empty tool name changes nothing at all. */
  lemma OtherToolsChangeNoStat(w: World, tool: string, input: string, today: string, c: Classifier)
    requires tool != "Edit" && tool != "Write" && tool != "Bash"
    ensures ToolUse(w, tool, input, today, c).stats == w.stats
    ensures tool == "" ==> ToolUse(w, tool, input, today, c) == w
  {
    if tool != "" {
      var w1 := w.(stats := MapStats(w.stats, s => ToolUseStats(s, tool, input, today, c)));
      assert w1 == w;
      UnlockAllStats(w, Qualifying(w.stats, Rules));
    }
  }

  lemma {:induction false} UnlockAllStats(w: World, rs: seq<Rule>)
    ensures UnlockAll(w, rs).stats == w.stats
    decreases |rs|
  {
    if rs != [] {
      UnlockAllStats(w, rs[..|rs| - 1]);
    }
  }

  /** Unsafe code in an Edit/Write: one more unsafe use, today as the unsafe date, and the safe-day count back to 0. */
  lemma UnsafeEditResetsSafeDays(s: Stats, tool: string, input: string, today: string, c: Classifier)
    requires WellFormed(s)
    requires tool == "Edit" || tool == "Write"
    requires c.matches(UnsafeBlock, input)
    ensures var r := ToolUseStats(s, tool, input, today, c);
      && Count(r, UnsafeUsed) == Count(s, UnsafeUsed) + 1
      && r[LastUnsafeDate] == Text(today)
      && r[UnsafeAvoidedDays] == Num(0)
  {
  }

  /** Tool use keeps the record well formed and never lowers a counter other than the streaks. */
  lemma ToolUseMonotone(s: Stats, tool: string, input: string, today: string, c: Classifier)
    requires WellFormed(s)
    ensures WellFormed(ToolUseStats(s, tool, input, today, c))
    ensures NoCounterDecreased(s, ToolUseStats(s, tool, input, today, c))
  {
    if tool == "Edit" || tool == "Write" {
      EditMonotone(s, input, today, c);
    } else if tool == "Bash" {
      var s1 := if c.matches(CargoTest, input) then Inc(s, TestsWritten) else s;
      IncIfStep(s, TestsWritten, c.matches(CargoTest, input));
      IncIfStep(s1, CodeReviews, c.matches(CargoLint, input));
      CounterChain(s, s1, BashStats(s, input, c));
    }
  }

  lemma EditMonotone(s: Stats, input: string, today: string, c: Classifier)
    requires WellFormed(s)
    ensures WellFormed(EditStats(s, input, today, c))
    ensures NoCounterDecreased(s, EditStats(s, input, today, c))
  {
    var s1 := IncIf(s, c.matches(TestCode, input), TestsWritten);
    IncIfStep(s, TestsWritten, c.matches(TestCode, input));
    var s2 := EditHead(s, input, today, c);
    UnsafeStep(s1, today);
    CounterChain(s, s1, s2);
    var s3 := IncIf(s2, c.docCommentLines(input) > 2, DocsWritten);
    IncIfStep(s2, DocsWritten, c.docCommentLines(input) > 2);
    CounterChain(s, s2, s3);
    var s4 := IncIf(s3, c.matches(BugFix, input), BugsFixed);
    IncIfStep(s3, BugsFixed, c.matches(BugFix, input));
    CounterChain(s, s3, s4);
    IncIfStep(s4, Refactors, c.matches(Refactoring, input));
    CounterChain(s, s4, EditStats(s, input, today, c));
  }

  lemma IncIfStep(s: Stats, key: string, b: bool)
    requires WellFormed(s) && key !in DateKeys
    ensures var r := if b then Inc(s, key) else s;
      WellFormed(r) && NoCounterDecreased(s, r)
  {
    IncStep(s, key);
  }

  /** The unsafe-code branch of an edit: one more unsafe use, the date, and the safe-day streak reset. */
  lemma UnsafeStep(s: Stats, today: string)
    requires WellFormed(s)
    ensures WellFormed(UnsafeStats(s, today)) && NoCounterDecreased(s, UnsafeStats(s, today))
  {
    var a := Inc(s, UnsafeUsed);
    IncStep(s, UnsafeUsed);
    SetDateStep(a, LastUnsafeDate, today);
    SetStreakStep(a[LastUnsafeDate := Text(today)], UnsafeAvoidedDays, 0);
    CounterChain(s, a, a[LastUnsafeDate := Text(today)]);
    CounterChain(s, a[LastUnsafeDate := Text(today)], a[LastUnsafeDate := Text(today)][UnsafeAvoidedDays := Num(0)]);
  }

  /** Prompts keep the record well formed and only raise counters. */
  lemma PromptMonotone(s: Stats, prompt: string, c: Classifier)
    requires WellFormed(s)
    ensures WellFormed(PromptStats(s, prompt, c))
    ensures NoCounterDecreased(s, PromptStats(s, prompt, c))
  {
  }

  // ---------------------------------------------------------------------------
  // Whole hook invocations
  // ---------------------------------------------------------------------------

  /** After `checkAchievements` on a readable list, every rule its stats reach is unlocked. */
  lemma EvaluateUnlocksAllReached(w: World)
    requires w.unlocked.Json?
    ensures Evaluate(w).stats == w.stats && Evaluate(w).unlocked.Json?
    ensures Extends(w.unlocked.value, Evaluate(w).unlocked.value)
    ensures NoDuplicates(w.unlocked.value) ==> NoDuplicates(Evaluate(w).unlocked.value)
    ensures forall i :: 0 <= i < |Rules| && Qualifies(w.stats, Rules[i]) ==> Rules[i].id in Evaluate(w).unlocked.value
  {
    ReachedRulesUnlocked(w, Rules);
  }

  lemma ReachedRulesUnlocked(w: World, rs: seq<Rule>)
    requires w.unlocked.Json?
    ensures var w' := UnlockAll(w, Qualifying(w.stats, rs));
      && w'.stats == w.stats && w'.unlocked.Json?
      && Extends(w.unlocked.value, w'.unlocked.value)
      && (NoDuplicates(w.unlocked.value) ==> NoDuplicates(w'.unlocked.value))
      && forall i :: 0 <= i < |rs| && Qualifies(w.stats, rs[i]) ==> rs[i].id in w'.unlocked.value
  {
    UnlockReachedRules(w, rs);
  }

  /** Every hook invocation keeps a readable unlocked list readable, only appends to it, and never repeats an id. */
  lemma DispatchKeepsUnlockedList(w: World, hook: string, ev: Event, today: string, yesterday: string, c: Classifier)
    requires w.unlocked.Json? && NoDuplicates(w.unlocked.value)
    ensures var w' := Dispatch(w, hook, ev, today, yesterday, c);
      && w'.unlocked.Json? && Extends(w.unlocked.value, w'.unlocked.value)
      && NoDuplicates(w'.unlocked.value)
  {
    var h := if hook == "" then "PostToolUse" else hook;
    if h == "UserPromptSubmit" {
      var w1 := SessionStart(w, today, yesterday);
      EvaluateUnlocksAllReached(w.(stats := MapStats(w.stats, s => SessionStats(s, today, yesterday))));
      if ev.prompt != "" {
        EvaluateUnlocksAllReached(w1.(stats := MapStats(w1.stats, s => PromptStats(s, ev.prompt, c))));
      }
      ExtendsChain(w.unlocked.value, w1.unlocked.value, Dispatch(w, hook, ev, today, yesterday, c).unlocked.value);
    } else if h == "SessionStart" {
      EvaluateUnlocksAllReached(w.(stats := MapStats(w.stats, s => SessionStats(s, today, yesterday))));
    } else if ev.toolName != "" {
      EvaluateUnlocksAllReached(w.(stats := MapStats(w.stats, s => ToolUseStats(s, ev.toolName, ev.toolInput, today, c))));
    }
  }

  lemma ExtendsChain(u: seq<string>, u1: seq<string>, u2: seq<string>)
    requires Extends(u, u1) && Extends(u1, u2)
    ensures Extends(u, u2)
  {
    assert u2[..|u|] == u2[..|u1|][..|u|];
  }

  /**
   * Every hook invocation keeps a well-formed stats record well formed and
   * never lowers a counter other than the two streaks.
   */
  lemma DispatchMonotone(w: World, hook: string, ev: Event, today: string, yesterday: string, c: Classifier)
    requires w.stats.Json? && WellFormed(w.stats.value)
    ensures var w' := Dispatch(w, hook, ev, today, yesterday, c);
      && w'.stats.Json? && WellFormed(w'.stats.value)
      && NoCounterDecreased(w.stats.value, w'.stats.value)
  {
    var s := w.stats.value;
    var h := if hook == "" then "PostToolUse" else hook;
    if h == "UserPromptSubmit" {
      var w1 := SessionStart(w, today, yesterday);
      SessionMonotone(s, today, yesterday);
      UnlockAllStats(w.(stats := MapStats(w.stats, s => SessionStats(s, today, yesterday))), Qualifying(Json(SessionStats(s, today, yesterday)), Rules));
      var s1 := SessionStats(s, today, yesterday);
      assert w1.stats == Json(s1);
      if ev.prompt != "" {
        PromptMonotone(s1, ev.prompt, c);
        UnlockAllStats(w1.(stats := MapStats(w1.stats, s => PromptStats(s, ev.prompt, c))), Qualifying(Json(PromptStats(s1, ev.prompt, c)), Rules));
        CounterChain(s, s1, PromptStats(s1, ev.prompt, c));
      }
    } else if h == "SessionStart" {
      SessionMonotone(s, today, yesterday);
      UnlockAllStats(w.(stats := MapStats(w.stats, s => SessionStats(s, today, yesterday))), Qualifying(Json(SessionStats(s, today, yesterday)), Rules));
    } else if ev.toolName != "" {
      ToolUseMonotone(s, ev.toolName, ev.toolInput, today, c);
      UnlockAllStats(w.(stats := MapStats(w.stats, s => ToolUseStats(s, ev.toolName, ev.toolInput, today, c))),
                     Qualifying(Json(ToolUseStats(s, ev.toolName, ev.toolInput, today, c)), Rules));
    }
  }

  /**
   * A hook invocation that evaluates the rules leaves, on a readable list,
   * no reached achievement locked: each rule whose threshold the final stats
   * reach has its id in the unlocked list.
   */
  lemma DispatchUnlocksEveryReachedRule(w: World, hook: string, ev: Event, today: string, yesterday: string, c: Classifier)
    requires w.unlocked.Json? && Evaluates(hook, ev)
    ensures var w' := Dispatch(w, hook, ev, today, yesterday, c);
      && w'.unlocked.Json?
      && forall i :: 0 <= i < |Rules| && Qualifies(w'.stats, Rules[i]) ==> Rules[i].id in w'.unlocked.value
  {
    var h := if hook == "" then "PostToolUse" else hook;
    if h == "UserPromptSubmit" {
      var w1 := SessionStart(w, today, yesterday);
      EvaluateUnlocksAllReached(w.(stats := MapStats(w.stats, s => SessionStats(s, today, yesterday))));
      if ev.prompt != "" {
        EvaluateUnlocksAllReached(w1.(stats := MapStats(w1.stats, s => PromptStats(s, ev.prompt, c))));
      }
    } else if h == "SessionStart" {
      EvaluateUnlocksAllReached(w.(stats := MapStats(w.stats, s => SessionStats(s, today, yesterday))));
    } else {
      EvaluateUnlocksAllReached(w.(stats := MapStats(w.stats, s => ToolUseStats(s, ev.toolName, ev.toolInput, today, c))));
    }
  }
}
