/**
 * The logic of scripts/quality-check.js: the markdown link scanner, the
 * external/anchor classification of a link target, the error and warning
 * counters, the SKILL.md field checks, the agent declaration checks and
 * the final verdict.
 */
module QualityCheck {
  import opened JsText

  datatype Option<T> = None | Some(value: T)

  // ---------------------------------------------------------------------------
  // Markdown links: /\[([^\]]+)\]\(([^)]+)\)/g
  // ---------------------------------------------------------------------------

  /** `{ text: match[1], url: match[2] }` */
  datatype Link = Link(text: string, url: string)

  /** One match of the link pattern: where it starts, where it ends, and its groups. */
  datatype Match = Match(start: nat, end: nat, link: Link)

  /**
   * The match of the link pattern that starts at `p`, if any. Both groups are
   * greedy runs of characters other than their closing character, so there is
   * at most one match at each position.
   */
  function MatchAt(s: string, p: nat): (r: Option<Match>)
    requires p <= |s|
    ensures r.Some? ==> r.value.start == p && p + 4 <= r.value.end <= |s| && WellFormed(r.value.link)
  {
    if p < |s| && s[p] == '[' then
      var e := RunEnd(s, p + 1, ']');
      if p + 1 < e && e + 1 < |s| && s[e + 1] == '(' then
        var f := RunEnd(s, e + 2, ')');
        if e + 2 < f < |s| then Some(Match(p, f + 1, Link(s[p + 1..e], s[e + 2..f]))) else None
      else None
    else None
  }

  /**
   * `[text](url)` at `p`: a non-empty text without `]` and a non-empty url
   * without `)`, with the closing `)` at `f`.
   */
  predicate LinkShape(s: string, p: nat, e: nat, f: nat) {
    p + 1 < e && e + 2 < f < |s| && s[p] == '[' && s[e] == ']' && s[e + 1] == '(' && s[f] == ')'
    && (forall j :: p + 1 <= j < e ==> s[j] != ']')
    && (forall j :: e + 2 <= j < f ==> s[j] != ')')
  }

  /** Every match has the pattern's shape. */
  lemma MatchAtSound(s: string, p: nat)
    requires p <= |s| && MatchAt(s, p).Some?
    ensures exists e: nat, f: nat :: LinkShape(s, p, e, f)
              && MatchAt(s, p) == Some(Match(p, f + 1, Link(s[p + 1..e], s[e + 2..f])))
  {
    var e := RunEnd(s, p + 1, ']');
    var f := RunEnd(s, e + 2, ')');
    assert LinkShape(s, p, e, f);
  }

  /** Every occurrence of the pattern's shape is the match at its position. */
  lemma MatchAtComplete(s: string, p: nat, e: nat, f: nat)
    requires LinkShape(s, p, e, f)
    ensures MatchAt(s, p) == Some(Match(p, f + 1, Link(s[p + 1..e], s[e + 2..f])))
  {
    RunEndAt(s, p + 1, e, ']');
    RunEndAt(s, e + 2, f, ')');
  }

  /** `linkRegex.exec(content)` with `lastIndex == from`: the leftmost match at or after `from`. */
  function Exec(s: string, from: nat): (r: Option<Match>)
    requires from <= |s|
    ensures r.Some? ==> from <= r.value.start <= |s| && MatchAt(s, r.value.start) == r
    ensures r.Some? ==> forall q :: from <= q < r.value.start ==> MatchAt(s, q).None?
    ensures r.None? ==> forall q :: from <= q <= |s| ==> MatchAt(s, q).None?
    decreases |s| - from
  {
    if from == |s| then None
    else if MatchAt(s, from).Some? then MatchAt(s, from)
    else Exec(s, from + 1)
  }

  /** The matches a global `exec` loop finds when it starts at `from`. */
  function Matches(s: string, from: nat): (ms: seq<Match>)
    requires from <= |s|
    ensures forall i :: 0 <= i < |ms| ==> from <= ms[i].start < |s| && MatchAt(s, ms[i].start) == Some(ms[i])
    decreases |s| - from
  {
    match Exec(s, from)
    case None => []
    case Some(m) => [m] + Matches(s, m.end)
  }

  function Links(ms: seq<Match>): (ls: seq<Link>)
    ensures |ls| == |ms|
    ensures forall i :: 0 <= i < |ms| ==> ls[i] == ms[i].link
  {
    if ms == [] then [] else [ms[0].link] + Links(ms[1..])
  }

  /** `extractMarkdownLinks(content)` */
  method ExtractMarkdownLinks(content: string) returns (links: seq<Link>)
    ensures links == Links(Matches(content, 0))
    ensures forall i :: 0 <= i < |links| ==> WellFormed(links[i])
  {
    links := [];
    var lastIndex := 0;
    var m := Exec(content, lastIndex);
    ghost var found := [];
    while m.Some?
      invariant lastIndex <= |content|
      invariant m == Exec(content, lastIndex)
      invariant Matches(content, 0) == found + Matches(content, lastIndex)
      invariant links == Links(found)
      decreases |content| - lastIndex
    {
      MatchesStep(content, lastIndex, found);
      LinksSnoc(found, m.value);
      found := found + [m.value];
      links := links + [m.value.link];
      lastIndex := m.value.end;
      m := Exec(content, lastIndex);
    }
    assert found == Matches(content, 0);
  }

  lemma MatchesStep(s: string, from: nat, found: seq<Match>)
    requires from <= |s| && Exec(s, from).Some?
    ensures found + Matches(s, from) == (found + [Exec(s, from).value]) + Matches(s, Exec(s, from).value.end)
  {
  }

  lemma LinksSnoc(ms: seq<Match>, m: Match)
    ensures Links(ms + [m]) == Links(ms) + [m.link]
  {
  }

  /** A link's text is non-empty without `]` and its url non-empty without `)`. */
  predicate WellFormed(l: Link) {
    l.text != [] && ']' !in l.text && l.url != [] && ')' !in l.url
  }

  /** Each match after the first is what `exec` finds from where the one before it ended. */
  lemma {:induction false} MatchesNext(s: string, from: nat, i: nat)
    requires from <= |s| && i + 1 < |Matches(s, from)|
    ensures var ms := Matches(s, from);
      ms[i].end <= |s| && Exec(s, ms[i].end) == Some(ms[i + 1])
    decreases i
  {
    var m := Exec(s, from).value;
    var rest := Matches(s, m.end);
    assert Matches(s, from) == [m] + rest;
    if i > 0 {
      MatchesNext(s, m.end, i - 1);
    }
  }

  /** After the last match (or from the start, without one) `exec` finds nothing. */
  lemma {:induction false} MatchesLast(s: string, from: nat)
    requires from <= |s|
    ensures var ms := Matches(s, from);
      var e := if |ms| == 0 then from else ms[|ms| - 1].end;
      e <= |s| && Exec(s, e).None?
    decreases |s| - from
  {
    match Exec(s, from)
    case None =>
    case Some(m) =>
      MatchesLast(s, m.end);
      var rest := Matches(s, m.end);
      assert Matches(s, from) == [m] + rest;
  }

  /** The matches come in the order they occur and never overlap: scanning resumes after each one. */
  lemma MatchesOrdered(s: string, from: nat)
    requires from <= |s|
    ensures var ms := Matches(s, from);
      forall i :: 0 <= i < |ms| - 1 ==> ms[i].end <= ms[i + 1].start
  {
    var ms := Matches(s, from);
    forall i | 0 <= i < |ms| - 1
      ensures ms[i].end <= ms[i + 1].start
    {
      MatchesNext(s, from, i);
    }
  }

  /** No position in `[a, b)` starts a match. */
  predicate NoMatchIn(s: string, a: nat, b: nat) {
    forall q :: a <= q < b && q <= |s| ==> MatchAt(s, q).None?
  }

  /**
   * No match is skipped: before the first match, between two matches and
   * after the last one, no position starts a match.
   */
  lemma MatchesLeftmost(s: string, from: nat)
    requires from <= |s|
    ensures var ms := Matches(s, from);
      |ms| > 0 ==> NoMatchIn(s, from, ms[0].start)
    ensures var ms := Matches(s, from);
      forall i :: 0 <= i < |ms| - 1 ==> NoMatchIn(s, ms[i].end, ms[i + 1].start)
    ensures var ms := Matches(s, from);
      NoMatchIn(s, if |ms| == 0 then from else ms[|ms| - 1].end, |s| + 1)
  {
    var ms := Matches(s, from);
    forall i | 0 <= i < |ms| - 1
      ensures NoMatchIn(s, ms[i].end, ms[i + 1].start)
    {
      MatchesNext(s, from, i);
    }
    MatchesLast(s, from);
  }

  /** Text without the two characters `](` holds no link. */
  lemma NoLinksWithoutMarker(s: string, from: nat)
    requires from <= |s|
    requires forall j :: 0 <= j < |s| - 1 ==> !(s[j] == ']' && s[j + 1] == '(')
    ensures Matches(s, from) == []
  {
  }

  // ---------------------------------------------------------------------------
  // Link targets
  // ---------------------------------------------------------------------------

  /** `isExternalOrAnchor(url)` */
  function IsExternalOrAnchor(url: string): (b: bool)
    ensures b ==> |url| >= 1 && (url[0] == '#' || (|url| >= 7 && url[..4] == "http"))
    ensures |url| >= 1 && url[0] == '#' ==> b
  {
    StartsWith(url, "http://") || StartsWith(url, "https://") || StartsWith(url, "#")
  }

  /**
   * Character by character: a target is skipped exactly when it begins with
   * `#`, or with `http` followed by `://` or `s://`.
   */
  lemma ExternalOrAnchorCases(url: string)
    ensures IsExternalOrAnchor(url) <==>
      (|url| >= 1 && url[0] == '#')
      || (|url| >= 7 && url[0] == 'h' && url[1] == 't' && url[2] == 't' && url[3] == 'p'
          && ((url[4] == ':' && url[5] == '/' && url[6] == '/')
              || (|url| >= 8 && url[4] == 's' && url[5] == ':' && url[6] == '/' && url[7] == '/')))
  {
    if |url| >= 7 {
      assert StartsWith(url, "http://") <==> url[..7] == "http://";
      assert url[..7] == "http://" <==> (url[0] == 'h' && url[1] == 't' && url[2] == 't' && url[3] == 'p'
        && url[4] == ':' && url[5] == '/' && url[6] == '/');
    }
    if |url| >= 8 {
      assert url[..8] == "https://" <==> (url[0] == 'h' && url[1] == 't' && url[2] == 't' && url[3] == 'p'
        && url[4] == 's' && url[5] == ':' && url[6] == '/' && url[7] == '/');
    }
    if |url| >= 1 {
      assert url[..1] == "#" <==> url[0] == '#';
    }
  }

  /** The number of links that are neither external nor anchors and whose target does not exist. */
  function DeadLinks(links: seq<Link>, exists_: string -> bool): (n: nat)
    ensures n <= |links|
  {
    if links == [] then 0
    else
      var l := links[|links| - 1];
      DeadLinks(links[..|links| - 1], exists_) + (if !IsExternalOrAnchor(l.url) && !exists_(l.url) then 1 else 0)
  }

  /** No link whose target is external or an anchor is ever reported dead. */
  lemma {:induction false} OnlyLocalLinksReported(links: seq<Link>, exists_: string -> bool)
    requires forall i :: 0 <= i < |links| ==> IsExternalOrAnchor(links[i].url) || exists_(links[i].url)
    ensures DeadLinks(links, exists_) == 0
  {
    if links != [] {
      OnlyLocalLinksReported(links[..|links| - 1], exists_);
    }
  }

  // ---------------------------------------------------------------------------
  // Counters, findings and the verdict
  // ---------------------------------------------------------------------------

  /** How a missing `description` field is reported. */
  datatype Severity = Info | Warning | Error

  /**
   * A SKILL.md without a description: a `core-*` skill that explains itself
   * ("no description" or "Internal tool" in the raw file) is only noted, any
   * other `core-*` skill is warned about, and every other skill is an error.
   */
  function MissingDescription(skillName: string, raw: string): (sev: Severity)
    ensures sev == Error <==> !StartsWith(skillName, "core-")
    ensures sev == Info <==> StartsWith(skillName, "core-")
                             && (Contains(raw, "no description") || Contains(raw, "Internal tool"))
  {
    if StartsWith(skillName, "core-") then
      if Contains(raw, "no description") || Contains(raw, "Internal tool") then Info else Warning
    else Error
  }

  /** `if (!frontmatter.key)`: absent or the empty string. */
  predicate Missing(fm: map<string, string>, key: string) {
    key !in fm || fm[key] == ""
  }

  /** The outcome of the run. */
  datatype Outcome = Failed | PassedWithWarnings | Passed

  /** The summary line and exit code chosen from the counters. */
  function Verdict(errors: nat, warnings: nat): (r: (Outcome, int))
    ensures r.1 == 1 <==> errors > 0
    ensures r.1 == 0 <==> errors == 0
    ensures r.0 == Passed <==> errors == 0 && warnings == 0
    ensures r.0 == PassedWithWarnings <==> errors == 0 && warnings > 0
  {
    if errors > 0 then (Failed, 1)
    else if warnings > 0 then (PassedWithWarnings, 0)
    else (Passed, 0)
  }

  /** The `ERRORS` and `WARNINGS` counters the checks raise. */
  class Report {
    var errors: nat
    var warnings: nat

    constructor()
      ensures errors == 0 && warnings == 0
    {
      errors := 0;
      warnings := 0;
    }

    /** `error(message)` */
    method Error()
      modifies this
      ensures errors == old(errors) + 1 && warnings == old(warnings)
    {
      errors := errors + 1;
    }

    /** `warn(message)` */
    method Warn()
      modifies this
      ensures warnings == old(warnings) + 1 && errors == old(errors)
    {
      warnings := warnings + 1;
    }

    /**
     * The checks on one SKILL.md: its parsed fields and its raw text. A
     * missing name is an error; a missing description is reported as
     * MissingDescription says; a description under 50 characters gets one
     * warning.
     */
    method CheckSkill(skillName: string, fm: map<string, string>, raw: string)
      modifies this
      ensures errors == old(errors) + (if Missing(fm, "name") then 1 else 0)
        + (if Missing(fm, "description") && MissingDescription(skillName, raw) == Severity.Error then 1 else 0)
      ensures warnings == old(warnings)
        + (if Missing(fm, "description") && MissingDescription(skillName, raw) == Severity.Warning then 1 else 0)
        + (if !Missing(fm, "description") && |fm["description"]| < 50 then 1 else 0)
    {
      if Missing(fm, "name") {
        Error();
      }
      if Missing(fm, "description") {
        if StartsWith(skillName, "core-") {
          if Contains(raw, "no description") || Contains(raw, "Internal tool") {
          } else {
            Warn();
          }
        } else {
          Error();
        }
      }
      if !Missing(fm, "description") && |fm["description"]| < 50 {
        Warn();
      }
    }

    /**
     * The checks on one agent file: one that starts with `---` once trimmed
     * needs a `tools:` line (else an error) and a `model:` line (else a
     * warning); any other needs a `# ` heading line (else a warning).
     */
    method CheckAgent(normalized: string)
      modifies this
      ensures var fmStyle := StartsWith(Trim(normalized), "---");
        errors == old(errors) + (if fmStyle && !HasLine(normalized, "tools:") then 1 else 0)
        && warnings == old(warnings)
          + (if fmStyle && !HasLine(normalized, "model:") then 1 else 0)
          + (if !fmStyle && !HasLine(normalized, "# ") then 1 else 0)
    {
      if StartsWith(Trim(normalized), "---") {
        if !HasLine(normalized, "tools:") {
          Error();
        }
        if !HasLine(normalized, "model:") {
          Warn();
        }
      } else {
        if !HasLine(normalized, "# ") {
          Warn();
        }
      }
    }

    /** The dead-link check over the links of one file: one warning per dead local link. */
    method CheckLinks(links: seq<Link>, exists_: string -> bool)
      modifies this
      ensures warnings == old(warnings) + DeadLinks(links, exists_) && errors == old(errors)
    {
      for i := 0 to |links|
        invariant warnings == old(warnings) + DeadLinks(links[..i], exists_) && errors == old(errors)
      {
        assert links[..i + 1][..i] == links[..i];
        if !IsExternalOrAnchor(links[i].url) && !exists_(links[i].url) {
          Warn();
        }
      }
      assert links[..|links|] == links;
    }
  }

  /** `content.match(/^lit/m)`: some line of the text starts with `lit`. */
  predicate HasLine(s: string, lit: string) {
    exists p :: 0 <= p <= |s| && LineStart(s, p) && At(s, p, lit)
  }
}
