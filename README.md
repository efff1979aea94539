# Rust-skills tooling: a verified model of its scripts

This project models the logic of the maintenance scripts that come with a
collection of Rust skills, agents and commands. It proves properties of that
logic.

- **The achievement ledger** (`scripts/achievement-tracker.js`). A hook
  process reads two JSON files:
  - `stats.json` holds counters and three dates;
  - `unlocked.json` holds the list of unlocked achievement ids.

  Each hook event updates the counters. A tool use may bump tests, unsafe code,
  docs, bug fixes, refactors and code reviews. A prompt may bump Rust questions
  and compiler errors. A session start bumps sessions and the two day streaks.
  After every event, each rule of a fixed table of thresholds is evaluated,
  and every rule now reached is unlocked, once.
- **The frontmatter parser** (`scripts/utils/frontmatter.js`). It splits a
  `---`-delimited `key: value` header from the body of a markdown file.
- **The quality checker** (`scripts/quality-check.js`):
  - the markdown link scanner;
  - the external/anchor classification of a link target;
  - the error and warning counters and the checks that raise them;
  - the final verdict.
- **The Rust doc extractor** (`scripts/extract-rust-docs.js`):
  - `key = "value"` lookup and `[section]` slicing in `Cargo.toml`;
  - the README overview;
  - the selection of `//!` lines.
- **The index generator** (`scripts/generate-index.js`):
  - the first heading and the core question of a skill;
  - the shortened description of a skill row;
  - the model, tool count and purpose of an agent row;
  - the usage and description of a command row.

Layout:

- `JsText.dfy` models the JavaScript string behaviour these scripts rely on:
  - the `\s` class, which is also what `trim()` strips;
  - the line terminators that `^`/`$` respect under the `m` flag;
  - `split`/`join` on one character;
  - `substring` and `startsWith`/`includes`.
- Every regular expression of the parsers is written as an explicit scanner. Each scanner has a
  soundness and a completeness statement (for `ToolAt` and `HeaderEnd`, one
  if-and-only-if lemma gives both), and a "leftmost match" function
  mirrors how `match`/`exec` search.
- `Ledger.dfy` models the ledger as values. It holds the stats record, the
  unlocked list, the rule table and the effect of each event as a function.
- `Tracker.dfy` holds the tracker as a class:
  - two `JsonFile` objects, for stats and unlocked, with `AtomicUpdate`;
  - the activity log;
  - methods that carry out each handler's read-modify-write calls one at a
    time. Each method is proved to leave exactly the state that the
    corresponding `Ledger` function describes.
- `LedgerProperties.dfy` proves what the tracker promises about those
  functions:
  - tiers unlock when reached;
  - unlocking never repeats;
  - the unlocked list only grows and never holds a duplicate;
  - same-day sessions are idempotent;
  - the streak arithmetic;
  - counters never decrease.

Values follow the code:

- A stat is a JSON number or string (`Value`). `|| 0`, `|| ''`, truthiness
  and `+ 1` behave as in JavaScript, so `+ 1` on a string concatenates.
- A file is absent, unparsable or parsed (`OnDisk`).
- `today` and `yesterday` are parameters.
- The free-text patterns are an uninterpreted `Classifier`.

Three behaviours of the code are easy to misread; the model follows the code:

- **Repeat unlocks.** `unlockAchievement` only checks `unlocked.json` when that
  file is readable. When the file is unparsable, the unlock is logged again on
  every event. `LedgerProperties.EvaluateOnUnreadableList` states this.
- **The secondary streak.** The "unsafe-avoided days" count is reset to 0 when
  unsafe code is seen. On the next new day it is raised by one unless the
  last unsafe date is that same day. It is therefore not re-evaluated against
  the day the unsafe code was seen. This is modelled as written.
- **The first-session date.** It is written whenever it is still empty, on any
  session start, including a same-day one.

## Model

| member | source | states |
|---|---|---|
| Tracker.JsonFile.AtomicUpdate | scripts/achievement-tracker.js:67-98 | when the file holds parsed JSON, the updater's result is both stored and returned; when it is absent or unparsable, nothing is returned and the file is not written |
| Tracker.AchievementTracker.constructor | scripts/achievement-tracker.js:32-57 | a missing stats file starts as the zero record with empty dates, and a missing unlocked file as the empty list; existing files are kept as they are |
| Tracker.AchievementTracker.SetStat | scripts/achievement-tracker.js:115-120 | exactly one key of a readable stats record is replaced, and every other key is unchanged; an unreadable record is left alone |
| Tracker.AchievementTracker.IncrementStat | scripts/achievement-tracker.js:125-131 | only the named key changes: it becomes its old value (a missing or falsy one read as 0) plus one, and that new value is returned; nothing is returned when the stats cannot be read |
| Tracker.AchievementTracker.IsUnlocked | scripts/achievement-tracker.js:136-143 | true exactly when the unlocked list is readable and holds the id |
| Tracker.AchievementTracker.UnlockAchievement | scripts/achievement-tracker.js:148-175 | an id already present changes nothing; otherwise it is appended once and one log line is written (on an unreadable list the line is still written) |
| Tracker.AchievementTracker.CheckAchievements | scripts/achievement-tracker.js:181-242 | the new state is the evaluation of the rule table on the stats as they were |
| Tracker.AchievementTracker.CheckRules | scripts/achievement-tracker.js:194-241 | walking the rules in table order unlocks exactly the rules whose stat reaches their threshold, without touching the stats |
| Tracker.AchievementTracker.HandleToolUse | scripts/achievement-tracker.js:269-326 | an empty tool name changes nothing; Edit/Write and Bash update their counters, any other tool none, and the rules are then evaluated |
| Tracker.AchievementTracker.HandleEdit | scripts/achievement-tracker.js:278-310 | every Edit/Write counter update in the source order (tests, unsafe code, docs, bug fixes, refactors) |
| Tracker.AchievementTracker.HandleEditTail | scripts/achievement-tracker.js:295-309 | docs go up when the input holds more than two doc-comment lines, and bug fixes and refactors go up when their patterns match |
| Tracker.AchievementTracker.RecordUnsafe | scripts/achievement-tracker.js:287-292 | unsafe code counts one more use, records today as the last unsafe date and sets the safe-day count to 0 |
| Tracker.AchievementTracker.HandleBash | scripts/achievement-tracker.js:312-322 | a test run counts a test, and a lint or format run counts a code review |
| Tracker.AchievementTracker.HandlePrompt | scripts/achievement-tracker.js:328-345 | an empty prompt changes nothing; otherwise the Rust-question and compiler-error counters are updated and the rules evaluated |
| Tracker.AchievementTracker.HandleSessionStart | scripts/achievement-tracker.js:347-393 | the first-session date is set while it is empty; a new day runs the new-day updates; the rules are then evaluated |
| Tracker.AchievementTracker.StartNewDay | scripts/achievement-tracker.js:358-383 | the new-day updates: sessions, the two streaks, and the last date |
| Tracker.AchievementTracker.HandleHook | scripts/achievement-tracker.js:399-428 | the hook type (PostToolUse when none is given) selects the handler; UserPromptSubmit runs the session step and then the prompt step |
| Ledger.StatOf | scripts/achievement-tracker.js:103-110 | a stat reads as its stored value exactly when stats.json parses and holds a truthy value under the key; otherwise it reads as 0, also when the file cannot be read |
| Ledger.Qualifying | scripts/achievement-tracker.js:194-241 | a rule is selected exactly when it is in the table and its stat, read as `getStat` reads it, reaches its threshold |
| LedgerProperties.UnlockAllOnIntactList | scripts/achievement-tracker.js:148-157 | unlocking a run of rules on a readable list leaves the stats alone and only appends to the list and the log; the log gains exactly the ids appended to the list |
| LedgerProperties.UnlockAllMembers | scripts/achievement-tracker.js:148-157 | afterwards the list holds exactly the old ids plus the run's ids, and a list without duplicates keeps none |
| LedgerProperties.UnlockAllOnUnreadableList | scripts/achievement-tracker.js:148-175 | on an unreadable list nothing is recorded, and every rule of the run is logged, in order |
| LedgerProperties.UnlockAllRecorded | scripts/achievement-tracker.js:136-157 | unlocking rules that are all recorded already changes nothing at all |
| LedgerProperties.UnlockReachedRules | scripts/achievement-tracker.js:181-242 | evaluating any list of rules leaves the stats alone, only appends, keeps the list free of duplicates, and afterwards holds exactly the old ids plus those of reached rules |
| LedgerProperties.EvaluateUnlocksReachedTiers | scripts/achievement-tracker.js:181-242 | the same for the tracker's own rule table |
| LedgerProperties.EvaluateIdempotent | scripts/achievement-tracker.js:181-242 | a second evaluation with unchanged stats unlocks nothing and logs nothing |
| LedgerProperties.EvaluateOnUnreadableList | scripts/achievement-tracker.js:148-175 | when unlocked.json cannot be parsed, evaluation records nothing, and it logs every reached rule again |
| LedgerProperties.UnreadableStatsUnlockNothing | scripts/achievement-tracker.js:103-110 | when stats.json cannot be read every stat reads 0, and evaluation changes nothing |
| LedgerProperties.NothingQualifiesOnUnreadableStats | scripts/achievement-tracker.js:103-110 | with unreadable stats no rule with a positive threshold is reached |
| LedgerProperties.TestsNineToEleven | scripts/achievement-tracker.js:200-202 | with 11 tests written, evaluation unlocks the 1-test and 10-test tiers but not the 50-test tier |
| LedgerProperties.ReachedRuleUnlocked | scripts/achievement-tracker.js:181-242 | every reached rule of the table is unlocked after evaluation |
| LedgerProperties.TestEnthusiastNotReached | scripts/achievement-tracker.js:202 | 11 tests do not reach the third test tier |
| LedgerProperties.SameDayChangesNoCounter | scripts/achievement-tracker.js:358 | a session start on the last active day changes nothing but the first-session date |
| LedgerProperties.FirstSessionDateSetOnce | scripts/achievement-tracker.js:353-355 | the first-session date is set to today when empty, and never changed otherwise |
| LedgerProperties.NewDaySession | scripts/achievement-tracker.js:358-383 | on a new day: sessions +1; the streak +1 when the last day was yesterday and 1 otherwise; safe days +1 unless unsafe code was seen today; the last date becomes today; every other key is unchanged |
| LedgerProperties.NewDayCounters | scripts/achievement-tracker.js:358-383 | the same new-day arithmetic for the step alone, from any last date |
| LedgerProperties.SessionIdempotent | scripts/achievement-tracker.js:347-383 | a second session start on the same day changes nothing |
| LedgerProperties.SessionMonotone | scripts/achievement-tracker.js:347-383 | a session start keeps the record well formed and lowers no counter except the two streaks |
| LedgerProperties.IncStep | scripts/achievement-tracker.js:125-131 | an increment raises the named counter by exactly one and lowers none |
| LedgerProperties.StreakScenario | scripts/achievement-tracker.js:358-375 | sessions on days 1, 2 and 3 give 3 sessions and a streak of 3; day 10 then gives 4 sessions and a streak of 1 |
| LedgerProperties.FirstDay | scripts/achievement-tracker.js:353-383 | the very first session gives one session and a streak of 1 |
| LedgerProperties.NextDay | scripts/achievement-tracker.js:358-375 | a session the day after the last one extends the streak and the session count by one |
| LedgerProperties.InitialWellFormed | scripts/achievement-tracker.js:34-50 | the zero record is well formed, with empty dates and zero counts |
| LedgerProperties.OtherToolsChangeNoStat | scripts/achievement-tracker.js:269-323 | a tool other than Edit, Write or Bash changes no stat, and an empty tool name changes nothing at all |
| LedgerProperties.UnsafeEditResetsSafeDays | scripts/achievement-tracker.js:287-292 | an unsafe Edit/Write adds one unsafe use, records today and sets the safe-day count to 0 |
| LedgerProperties.ToolUseMonotone | scripts/achievement-tracker.js:269-323 | a tool use keeps the record well formed and lowers no counter except the two streaks |
| LedgerProperties.EditMonotone | scripts/achievement-tracker.js:278-310 | the same for the Edit/Write updates |
| LedgerProperties.PromptMonotone | scripts/achievement-tracker.js:328-345 | a prompt keeps the record well formed and lowers no counter |
| LedgerProperties.EvaluateUnlocksAllReached | scripts/achievement-tracker.js:181-242 | after evaluation every reached tier is unlocked, the list only grew, and it has no duplicates if it had none |
| LedgerProperties.ReachedRulesUnlocked | scripts/achievement-tracker.js:181-242 | the same for any list of rules |
| LedgerProperties.DispatchKeepsUnlockedList | scripts/achievement-tracker.js:399-417 | any hook event only appends to a readable unlocked list and never adds a duplicate |
| LedgerProperties.DispatchMonotone | scripts/achievement-tracker.js:399-417 | any hook event keeps the stats well formed and lowers no counter except the two streaks |
| LedgerProperties.DispatchUnlocksEveryReachedRule | scripts/achievement-tracker.js:399-417 | after a hook event that evaluates, every rule the new stats reach is unlocked |
| Frontmatter.NormalizeLineEndings | scripts/utils/frontmatter.js:17 | the text never grows, keeps a text without `\r` unchanged, and introduces no character that was not there |
| Frontmatter.NormalizedLines | scripts/utils/frontmatter.js:17-18 | the lines of the CRLF-normalised text are the raw lines with one trailing carriage return removed from each line but the last |
| Frontmatter.StripCrsParts | scripts/utils/frontmatter.js:17-18 | every line but the last loses one trailing carriage return; the last is unchanged |
| Frontmatter.Unquote | scripts/utils/frontmatter.js:45-48 | one pair of matching `"` or `'` around the value is removed, a lone quote becomes empty, and anything else is kept |
| Frontmatter.ParseLine | scripts/utils/frontmatter.js:39-48 | a parsed key is the whole run of word characters and `-` at the start of the line, starting with a word character, and a colon follows it |
| Frontmatter.ParseLineSound | scripts/utils/frontmatter.js:39-48 | a parsed line has the shape `key`, white space, `:`, white space, value, with a key of word characters and `-` that starts with a word character; the value is trimmed and unquoted |
| Frontmatter.ParseLineComplete | scripts/utils/frontmatter.js:39-48 | every line of that shape is parsed, with that key and value |
| Frontmatter.LocateShaped | scripts/utils/frontmatter.js:39 | on a line of that shape the scanner finds that key and colon, and the value after the white space |
| Frontmatter.CollectLookup | scripts/utils/frontmatter.js:38-52 | a key is present exactly when some line sets it (except `__proto__`, which a plain object does not store), and it holds the value of the last such line |
| Frontmatter.FieldsLookup | scripts/utils/frontmatter.js:38-52 | the same, stated over the header lines: a later duplicate key overwrites an earlier one, and lines of other shapes are ignored |
| Frontmatter.Closing | scripts/utils/frontmatter.js:32-35 | the header runs up to the first later line that is exactly `---`, or to the end |
| Frontmatter.ClosingAt | scripts/utils/frontmatter.js:32-35 | the first `---` after the opening line is where the header closes |
| Frontmatter.ParseFrontmatter | scripts/utils/frontmatter.js:12-71 | a read failure gives empty fields, content and body; otherwise content is the normalised text; without an opening `---` the body is all of it; with one, the fields are those of the header lines and the body is the lines after the closing `---`, joined (empty without one) |
| Frontmatter.BodyAfterBlock | scripts/utils/frontmatter.js:32-55 | for a header block followed by lines, the body is exactly those lines joined |
| QualityCheck.MatchAt | scripts/quality-check.js:53 | a match at a position is `[text](url)` with a non-empty text without `]` and a non-empty url without `)` |
| QualityCheck.MatchAtSound | scripts/quality-check.js:53 | every match has that shape, with its groups as the text and url |
| QualityCheck.MatchAtComplete | scripts/quality-check.js:53 | every occurrence of that shape is a match |
| QualityCheck.Exec | scripts/quality-check.js:57 | `exec` finds the leftmost match at or after the scan position, or reports that none exists |
| QualityCheck.Matches | scripts/quality-check.js:57-62 | every match found lies inside the text and is a match of the pattern at its position |
| QualityCheck.ExtractMarkdownLinks | scripts/quality-check.js:52-65 | the loop collects the groups of the successive matches, and every link is well formed |
| QualityCheck.MatchesOrdered | scripts/quality-check.js:57-62 | the matches come in order of occurrence and never overlap |
| QualityCheck.MatchesNext | scripts/quality-check.js:57-62 | each match after the first is the one `exec` finds from where the previous match ended |
| QualityCheck.MatchesLast | scripts/quality-check.js:57-62 | after the last match, or from the start when there is none, `exec` finds nothing, so the loop stops |
| QualityCheck.MatchesLeftmost | scripts/quality-check.js:57-62 | no match is skipped: before the first, between two successive ones and after the last there is none |
| QualityCheck.NoLinksWithoutMarker | scripts/quality-check.js:53 | a text without the `](` sequence has no links |
| QualityCheck.IsExternalOrAnchor | scripts/quality-check.js:70-74 | a skipped target starts with `#` or with `http` and is at least 7 characters long; every target starting with `#` is skipped |
| QualityCheck.ExternalOrAnchorCases | scripts/quality-check.js:70-74 | a target is skipped exactly when it starts with `#`, `http://` or `https://` |
| QualityCheck.DeadLinks | scripts/quality-check.js:176-189 | at most one dead-link warning per link |
| QualityCheck.OnlyLocalLinksReported | scripts/quality-check.js:176-189 | no warning when every link is external, an anchor or an existing target |
| QualityCheck.MissingDescription | scripts/quality-check.js:104-117 | a missing description is an error for any skill not named `core-*`; for a `core-*` skill it is only noted when the file says "no description" or "Internal tool", and is a warning otherwise |
| QualityCheck.Verdict | scripts/quality-check.js:303-312 | exit 1 and failure exactly when there are errors; otherwise exit 0, a pass with warnings exactly when there are warnings, and a clean pass otherwise |
| QualityCheck.Report.constructor | scripts/quality-check.js:23-24 | both counters start at 0 |
| QualityCheck.Report.Error | scripts/quality-check.js:29-32 | one more error, the warnings unchanged |
| QualityCheck.Report.Warn | scripts/quality-check.js:37-40 | one more warning, the errors unchanged |
| QualityCheck.Report.CheckSkill | scripts/quality-check.js:99-122 | an error for a missing name; a missing description raises what its classification says; a description shorter than 50 characters gives exactly one warning |
| QualityCheck.Report.CheckAgent | scripts/quality-check.js:138-159 | an agent with a frontmatter header gets an error without a `tools:` line and a warning without a `model:` line; any other agent gets a warning without a `# ` heading |
| QualityCheck.Report.CheckLinks | scripts/quality-check.js:171-190 | one warning per local link whose target does not exist, and no error |
| RustDocs.TomlValueAt | scripts/extract-rust-docs.js:55 | the value of an assignment never contains `"` |
| RustDocs.TomlValueAtSound | scripts/extract-rust-docs.js:55-57 | a value is found only at a line start with the key, white space, `=`, white space and a quoted string, and it is the quoted text |
| RustDocs.TomlValueAtComplete | scripts/extract-rust-docs.js:55-57 | every such assignment yields its quoted text |
| RustDocs.FindAssignment | scripts/extract-rust-docs.js:56 | the search finds the leftmost assignment, or reports that none exists |
| RustDocs.ParseTomlValue | scripts/extract-rust-docs.js:54-58 | null exactly when there is no assignment of the key; otherwise the quoted text of the first one, which holds no `"` |
| RustDocs.LastLineEnd | scripts/extract-rust-docs.js:64 | the last line end inside the white space after a section header, where the header match ends |
| RustDocs.HeaderEnd | scripts/extract-rust-docs.js:64 | a header match runs past the `\|name\| + 2` characters of `[name]`, holds only white space after them, and ends at a line end (that `[name]` is there at a line start is stated by `HeaderEndIff`) |
| RustDocs.HeaderEndIff | scripts/extract-rust-docs.js:64 | a header matches at a position exactly when such a line is there |
| RustDocs.FindHeader | scripts/extract-rust-docs.js:65 | the search finds the leftmost header, or reports that none exists |
| RustDocs.NextSection | scripts/extract-rust-docs.js:72-73 | the section ends at the first later line start holding `[`, or at the end of the content |
| RustDocs.SectionBounds | scripts/extract-rust-docs.js:63-73 | none exactly when no header matches; otherwise the span that starts where the first header match ends and runs to the next `[` line or to the end, with no `[` line inside |
| RustDocs.HeaderSectionUnique | scripts/extract-rust-docs.js:63-73 | the section of a name is determined: two spans that both start after the first header match and end at the next `[` line or the end are the same span |
| RustDocs.RestLines | scripts/extract-rust-docs.js:72 | searching the slice after the header finds the same `[` lines as searching the whole content |
| RustDocs.ExtractTomlSection | scripts/extract-rust-docs.js:63-76 | null exactly when no `[name]` line is found; otherwise the trimmed text of the section after the first header match, with no leading or trailing white space |
| RustDocs.ReadmeOverview | scripts/extract-rust-docs.js:146-155 | a prefix of the lines, at most 100 long, with no `##` line after the first; it stops early only at such a line |
| RustDocs.StripDocPrefix | scripts/extract-rust-docs.js:169 | `//!` and at most one following white-space character are removed |
| RustDocs.DocLineSingle | scripts/extract-rust-docs.js:167-169 | a `//!` line contributes its stripped text, and any other line contributes nothing |
| RustDocs.DocLinesAppend | scripts/extract-rust-docs.js:167-169 | selection works line by line, so the doc lines of two blocks are the doc lines of each, in order |
| RustDocs.DocLinesCount | scripts/extract-rust-docs.js:167-169 | there are as many doc lines as lines that start with `//!` |
| RustDocs.ModuleDocLines | scripts/extract-rust-docs.js:195-198 | module docs are the first doc lines, at most 10 of them |
| RustDocs.FirstDocLines | scripts/extract-rust-docs.js:195-198 | taking the first n selected lines equals selecting and then cutting |
| RustDocs.ModuleFiles | scripts/extract-rust-docs.js:185-189 | every source path but `lib.rs` and `main.rs` is kept, and nothing else |
| RustDocs.ModuleFilesAppend | scripts/extract-rust-docs.js:185-189 | the filter works path by path, so the module list keeps the order of the paths |
| IndexGen.HeadingAt | scripts/generate-index.js:22 | a heading match starts at a line start with `#` and white space, and its text lies on one line up to a line end |
| IndexGen.HeadingAtComplete | scripts/generate-index.js:22 | `#`, white space and a non-space character at a line start always match, with the text running to the end of that line |
| IndexGen.FirstHeading | scripts/generate-index.js:22 | the search finds the leftmost heading, or reports that none exists |
| IndexGen.ExtractFirstHeading | scripts/generate-index.js:21-24 | the trimmed text of the leftmost heading match whenever there is one, on one line; `''` when there is no heading |
| IndexGen.SecondHeading | scripts/generate-index.js:168 | the first two heading matches do not overlap, and there are no headings before or between them |
| IndexGen.HeadingTextOneLine | scripts/generate-index.js:168-169 | a heading's text is one line |
| IndexGen.AgentPurpose | scripts/generate-index.js:168-170 | the second heading's text cut to 40 characters, on one line, or `Background agent` when there are fewer than two headings |
| IndexGen.CoreQuestionAt | scripts/generate-index.js:33 | the group of a core-question match is enclosed in `**`, and no `**` starts inside it after its first character (the lazy group stops at the first `**` after its first character, so the group itself may begin with `**`) |
| IndexGen.CoreQuestionAtSound | scripts/generate-index.js:33 | every core-question match has `##`, white space, `Core Question`, white space and `**` before its group |
| IndexGen.CoreQuestionAtComplete | scripts/generate-index.js:33 | every such heading with a `**` starting after the group's first character matches, and its group is closed by the first `**` after the group's first character |
| IndexGen.FirstCoreQuestion | scripts/generate-index.js:33 | the search finds the leftmost core-question match, or reports that none exists |
| IndexGen.ExtractCoreQuestion | scripts/generate-index.js:31-35 | the trimmed group of the leftmost match whenever there is one; `''` when there is none |
| IndexGen.SkillDescription | scripts/generate-index.js:86 | the description field, or `''` when it is absent |
| IndexGen.ShortDescription | scripts/generate-index.js:87 | a description of at most 60 characters is kept; a longer one becomes its first 60 characters plus `...`; the result is never longer than 63 |
| IndexGen.ModelAt | scripts/generate-index.js:160 | a model value is a non-empty token without white space |
| IndexGen.ModelAtSound | scripts/generate-index.js:160 | a model match is at a line start with `model:`, and its value is the whole non-space token after the white space that follows |
| IndexGen.ModelAtComplete | scripts/generate-index.js:160 | `model:` at a line start, white space and a non-space token always match, with that token as the value |
| IndexGen.FirstModel | scripts/generate-index.js:160 | the search finds the leftmost `model:` line, or reports that none exists |
| IndexGen.AgentModel | scripts/generate-index.js:160-161 | the token of the leftmost `model:` match whenever there is one, or `haiku` when there is none; never empty and without white space |
| IndexGen.ToolAt | scripts/generate-index.js:164 | a tool match ends after at least one white-space character that follows its first three characters (that these are `  -` at a line start is stated by `ToolAtIff`) |
| IndexGen.ToolAtIff | scripts/generate-index.js:164 | a tool match starts at a position exactly when a tool line starts there |
| IndexGen.FirstTool | scripts/generate-index.js:164 | the search finds the leftmost tool match, or reports that none exists |
| IndexGen.ToolMatchCount | scripts/generate-index.js:164-165 | the global match count as written: at most the length of the text, and 0 exactly when no tool match lies ahead |
| IndexGen.ToolLineCount | scripts/generate-index.js:164-165 | the number of tool lines, at most the length of the text |
| IndexGen.ToolMatchesAtMostLines | scripts/generate-index.js:164-165 | the global match count never exceeds the number of tool lines |
| IndexGen.ToolLinesBefore | scripts/generate-index.js:164-165 | the first tool line counts once, and the count then continues after it |
| IndexGen.ToolLineCountMonotone | scripts/generate-index.js:164-165 | a later scan start counts no more tool lines |
| IndexGen.TrailingSpaceHidesNextTool | scripts/generate-index.js:164-165 | a text with two tool lines, the first holding only `  -` and a space, gives a match count of 1 |
| IndexGen.NoToolFrom | scripts/generate-index.js:164 | with no tool match ahead, the search finds none |
| IndexGen.NoToolLineFrom | scripts/generate-index.js:164 | with no line start ahead, no tool line is counted |
| IndexGen.RowsOfAt | scripts/generate-index.js:154-172 | row i of the index is the row of file i |
| IndexGen.AgentRowUndercounts | scripts/generate-index.js:164-165 | a generated row matches the row with the intended tool-line count in every column but the tools, where it shows no more, and fewer on the example list |
| IndexGen.AgentIndex | scripts/generate-index.js:154-172 | one agent row per file, in order, with the model, the tool match count and the purpose of that file |
| IndexGen.UpperLineAt | scripts/generate-index.js:237 | a description match is a line start with an uppercase letter and at least one more character on the line |
| IndexGen.UpperLineAtComplete | scripts/generate-index.js:237 | an uppercase letter at a line start followed by at least one more character on the line always matches, up to the end of that line |
| IndexGen.FirstUpperLine | scripts/generate-index.js:237 | the search finds the leftmost such line, or reports that none exists |
| IndexGen.CommandDescription | scripts/generate-index.js:237-238 | `''` exactly when no line starts with an uppercase letter; otherwise the first such line cut to 40 characters, followed by `...` |
| IndexGen.NextFence | scripts/generate-index.js:233 | the lazy group ends at the first white space followed by a closing fence |
| IndexGen.UsageAt | scripts/generate-index.js:233 | a usage match starts with `## Usage`, and its group lies after the heading and ends at white space that leads to a closing fence |
| IndexGen.UsageTag | scripts/generate-index.js:233 | when the opening matches, it starts with `## Usage`, and the tag ends no earlier than the twelve characters of the shortest opening (heading, one white-space character, fence) |
| IndexGen.UsageTagAt | scripts/generate-index.js:233 | the heading, white space, fence and tag run fix where the tag ends |
| IndexGen.UsageGroup | scripts/generate-index.js:233 | the lazy group starts after white space and ends at white space that leads to a closing fence |
| IndexGen.UsageAtSound | scripts/generate-index.js:233 | every usage match has `## Usage`, white space, an opening fence and a language tag before its group |
| IndexGen.UsageAtOpen | scripts/generate-index.js:233 | once the opening matches, the match is decided by the group after the tag alone |
| IndexGen.UsageAtComplete | scripts/generate-index.js:233 | a usage block whose code starts with a non-space character matches, and the group runs to the first white space that leads to a fence |
| IndexGen.UsageAtGiveBack | scripts/generate-index.js:233 | with no fence reachable from the code, three or more white-space characters directly before a fence still match, as a group of one white-space character |
| IndexGen.FirstUsage | scripts/generate-index.js:233 | the search finds the leftmost usage match, or reports that none exists |
| IndexGen.NewlinesToSpaces | scripts/generate-index.js:234 | every `\n` becomes a space, and every other character stays |
| IndexGen.CommandUsage | scripts/generate-index.js:233-234 | the usage column holds no line feed; it is the trimmed code of the leftmost usage match with line feeds turned to spaces whenever there is one, and `''` without a usage block |
| IndexGen.CommandIndex | scripts/generate-index.js:228-241 | one command row per file, in order, with the usage and the description of that file |
| JsText.Trim | scripts/utils/frontmatter.js:42 | `trim()` removes all leading and trailing `\s`: the result is empty exactly when the text is all white space, and otherwise starts and ends with another character |
| JsText.TrimSpacePrefix | scripts/utils/frontmatter.js:42 | white space in front of a text does not change its trimmed form |
| JsText.Split | scripts/utils/frontmatter.js:18 | `split` yields at least one part, and no part holds the separator |
| JsText.JoinSplit | scripts/utils/frontmatter.js:18 | joining the parts of a split gives the text back |
| JsText.SplitJoin | scripts/utils/frontmatter.js:55 | splitting joined lines without the separator gives the lines back |
| JsText.SplitCount | scripts/utils/frontmatter.js:18 | there is one more part than there are separators |
| JsText.Prefix | scripts/generate-index.js:170 | `substring(0, n)` is a prefix of length at most n, and the whole text when it is shorter |
| JsText.PrefixOneLine | scripts/generate-index.js:170 | a prefix of one line is one line |

## Left out

- **File-system plumbing** is not modelled: directory creation, existence checks, the `.tmp` write, the rename and its copy fallback, and the glob walks. Files are in-memory values (`OnDisk`), and a write is assumed to succeed.
- **The clock** (`getToday`/`getYesterday`) is not modelled. Today and yesterday are parameters, and no calendar is modelled.
- **Concurrency.** Racing hook processes can lose updates. The code has no locking, so there is nothing to state about it.
- **The free-text patterns** of the tool and prompt handlers are not interpreted. This covers test code, unsafe blocks, fixes, refactorings, cargo commands, Rust topics, compiler errors and the doc-comment count. They are fields of the `Classifier` parameter.
- **Console output** is not modelled: banners, colours, `INFO` notes, the timestamps of log lines, and the error-log append in `main`. The activity log keeps only the id and name of each unlock.
- **Number coercion.** `Ledger.Reached` compares only numeric stats. JavaScript's `>=` would coerce a numeric string, but a string stat here never reaches a threshold. JSON floats, booleans and `null` in stats.json are not represented.
- **String lengths** count characters, not UTF-16 code units. This affects the 40-, 50- and 60-character cuts only for characters outside the Basic Multilingual Plane.
- **Dead-link resolution** uses `path.dirname`/`path.join` and `existsSync`. These are a predicate parameter on the url.
- **Sorting** the glob results is not modelled.
- **Unescaped names in patterns.** `parseTomlValue` and `extractTomlSection` splice the key into a regular expression unescaped. `RustDocs.ParseTomlValue` and `RustDocs.ExtractTomlSection` require a plain name (letters, digits, `_`); a name with pattern metacharacters is not modelled.
- **`cargo`/`rustdoc`/`tree` invocations** are not modelled, nor is rustdoc JSON walking. Public-API extraction and the assembly of the output pages with `+=` are also left out. Rows and doc lines are sequences.
- **Other index pages and checks** are not modelled:
  - the skills-index and triggers-index loops of the index generator, beyond the description shortening;
  - the version, metadata, required-directory and skill-count checks of the quality checker.
- IndexGen.ToolMatchCount models the tool count as written, and the agent rows use it; `IndexGen.IntendedAgentRowOf` builds the row with the corrected count only for comparison.

## Findings

| source | as written | input that shows it | evidently intended | confidence | as-written member | corrected member |
|---|---|---|---|---|---|---|
| scripts/generate-index.js:164-165 | the tool count is the number of matches of `/^  -\s+/gm`; `\s+` crosses line ends, so a tool line that ends in white space swallows the indentation of the next tool line when it holds nothing but `  -` and white space (an item such as `  - Read ` is not affected, since the match stops at `R`) | `"  - \n  - Read"`: two tool lines, one match, so the row shows 1 tool | the number of lines that begin with two spaces, `-` and white space | not executed | IndexGen.TrailingSpaceHidesNextTool | IndexGen.ToolLineCount |
