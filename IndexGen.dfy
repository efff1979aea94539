/**
 * The field extraction of scripts/generate-index.js: the first heading and
 * the core question of a skill, the shortened description of a skill row,
 * and the model, tool count and purpose of an agent row and the usage and
 * description of a command row.
 */
module IndexGen {
  import opened JsText

  datatype Option<T> = None | Some(value: T)

  /** The end of the line that contains `from`: the first line terminator at or after it, or the end. */
  function LineRestEnd(s: string, from: nat): (k: nat)
    requires from <= |s|
    ensures from <= k <= |s| && LineEnd(s, k)
    ensures forall j :: from <= j < k ==> !IsLineTerminator(s[j])
    decreases |s| - from
  {
    if from < |s| && !IsLineTerminator(s[from]) then LineRestEnd(s, from + 1) else from
  }

  /** The end of the run of characters other than `\s` that starts at `from`. */
  function SkipNonSpace(s: string, from: nat): (k: nat)
    requires from <= |s|
    ensures from <= k <= |s|
    ensures forall j :: from <= j < k ==> !IsSpace(s[j])
    ensures k < |s| ==> IsSpace(s[k])
    decreases |s| - from
  {
    if from < |s| && !IsSpace(s[from]) then SkipNonSpace(s, from + 1) else from
  }

  // ---------------------------------------------------------------------------
  // Headings: /^#\s+(.+)$/m
  // ---------------------------------------------------------------------------

  /**
   * A heading match: it starts at `start` and ends at `end`; the heading
   * text, what follows `#` and its white space, is `s[text..end]`.
   */
  datatype Heading = Heading(start: nat, text: nat, end: nat)

  /** The last position in `s[lo..hi]` that is not a line terminator. */
  function LastOnLine(s: string, lo: nat, hi: nat): (r: Option<nat>)
    requires lo <= hi <= |s|
    ensures r.Some? ==> lo <= r.value < hi && !IsLineTerminator(s[r.value])
    ensures r.None? ==> forall q :: lo <= q < hi ==> IsLineTerminator(s[q])
    decreases hi
  {
    if hi == lo then None
    else if !IsLineTerminator(s[hi - 1]) then Some(hi - 1)
    else LastOnLine(s, lo, hi - 1)
  }

  /**
   * The heading match that starts at `p`. `\s+` is greedy and may cross line
   * ends; when the white space runs to the end of the text it gives back
   * characters until `.+` can take one. The group is then white space, which
   * is recorded as an empty text: `trim()` and `replace(/^#\s+/, '')` both
   * turn that group into `''`.
   */
  function HeadingAt(s: string, p: nat): (r: Option<Heading>)
    requires p <= |s|
    ensures r.Some? ==> LineStart(s, p) && p < |s| && s[p] == '#'
    ensures r.Some? ==> r.value.start == p && p + 2 <= r.value.end <= |s| && LineEnd(s, r.value.end)
    ensures r.Some? ==> p + 2 <= r.value.text <= r.value.end && SpaceBetween(s, p + 1, r.value.text)
    ensures r.Some? ==> forall j :: r.value.text <= j < r.value.end ==> !IsLineTerminator(s[j])
    ensures r.Some? && r.value.text < r.value.end ==> !IsSpace(s[r.value.text])
  {
    if LineStart(s, p) && p < |s| && s[p] == '#' then
      var ws := SkipSpace(s, p + 1);
      if ws == p + 1 then None
      else if ws < |s| then Some(Heading(p, ws, LineRestEnd(s, ws)))
      else
        match LastOnLine(s, p + 2, ws)
        case Some(q) =>
          var e := LineRestEnd(s, q);
          Some(Heading(p, e, e))
        case None => None
    else None
  }

  /** A `#`, white space, and a heading text that starts with a character other than `\s`. */
  lemma HeadingAtComplete(s: string, p: nat, t: nat)
    requires p + 1 < t < |s| && LineStart(s, p) && s[p] == '#'
    requires SpaceBetween(s, p + 1, t) && !IsSpace(s[t])
    ensures HeadingAt(s, p) == Some(Heading(p, t, LineRestEnd(s, t)))
  {
    SkipSpaceAt(s, p + 1, t);
  }

  /** The leftmost heading match at or after `from`. */
  function FirstHeading(s: string, from: nat): (r: Option<Heading>)
    requires from <= |s|
    ensures r.Some? ==> from <= r.value.start <= |s| && HeadingAt(s, r.value.start) == r
    ensures r.Some? ==> forall q :: from <= q < r.value.start ==> HeadingAt(s, q).None?
    ensures r.None? ==> forall q :: from <= q <= |s| ==> HeadingAt(s, q).None?
    decreases |s| - from
  {
    if HeadingAt(s, from).Some? then HeadingAt(s, from)
    else if from == |s| then None
    else FirstHeading(s, from + 1)
  }

  /** The leftmost heading match of `s` starts at `p`. */
  predicate FirstHeadingAt(s: string, p: nat) {
    p <= |s| && HeadingAt(s, p).Some? && forall q :: 0 <= q < p ==> HeadingAt(s, q).None?
  }

  /**
   * `extractFirstHeading(content)`: the trimmed text of the first heading,
   * a single line, or `''` when there is none.
   */
  function ExtractFirstHeading(content: string): (r: string)
    ensures r == [] || (!IsSpace(r[0]) && !IsSpace(r[|r| - 1]))
    ensures forall i :: 0 <= i < |r| ==> !IsLineTerminator(r[i])
    ensures (forall p :: 0 <= p <= |content| ==> HeadingAt(content, p).None?) ==> r == ""
    ensures (exists p :: 0 <= p <= |content| && HeadingAt(content, p).Some?) ==> exists p: nat :: (FirstHeadingAt(content, p)
      && r == Trim(content[HeadingAt(content, p).value.text..HeadingAt(content, p).value.end]))
  {
    match FirstHeading(content, 0)
    case Some(h) =>
      var line := content[h.text..h.end];
      TrimOneLine(line);
      assert FirstHeadingAt(content, h.start) && line == content[h.text..h.end];
      Trim(line)
    case None => ""
  }

  /** Trimming a single line leaves a single line. */
  lemma TrimOneLine(s: string)
    requires forall i :: 0 <= i < |s| ==> !IsLineTerminator(s[i])
    ensures forall i :: 0 <= i < |Trim(s)| ==> !IsLineTerminator(Trim(s)[i])
  {
    var t := TrimStart(s);
    var k := SkipSpace(s, 0);
    assert t == s[k..];
    var e := SkipSpaceBack(t, |t|);
    assert Trim(s) == s[k..k + e];
  }

  /** Every heading match of a global scan from `from`, in order. */
  function Headings(s: string, from: nat): (hs: seq<Heading>)
    requires from <= |s|
    ensures forall i :: 0 <= i < |hs| ==> from <= hs[i].start < |s| && HeadingAt(s, hs[i].start) == Some(hs[i])
    decreases |s| - from
  {
    match FirstHeading(s, from)
    case None => []
    case Some(h) => [h] + Headings(s, h.end)
  }

  /**
   * The second heading match is the leftmost one after the first match
   * ends: no heading starts before the first, or between the two.
   */
  lemma SecondHeading(s: string)
    requires |Headings(s, 0)| > 1
    ensures var hs := Headings(s, 0);
      hs[0].end <= hs[1].start
      && (forall q :: 0 <= q < hs[0].start ==> HeadingAt(s, q).None?)
      && (forall q :: hs[0].end <= q < hs[1].start ==> HeadingAt(s, q).None?)
  {
    var h := FirstHeading(s, 0).value;
    assert Headings(s, 0)[1] == FirstHeading(s, h.end).value;
  }

  /** The text of a heading match is a single line. */
  lemma HeadingTextOneLine(s: string, h: Heading)
    requires h.start <= |s| && HeadingAt(s, h.start) == Some(h)
    ensures h.text <= h.end <= |s| && OneLine(s[h.text..h.end])
  {
  }

  /**
   * The purpose column of an agent row: the second heading with `#` and its
   * white space removed, or `Background agent`, cut to 40 characters.
   */
  function AgentPurpose(content: string): (r: string)
    ensures |r| <= 40
    ensures |Headings(content, 0)| <= 1 ==> r == "Background agent"
    ensures |Headings(content, 0)| > 1 ==>
      var h := Headings(content, 0)[1];
      StartsWith(content[h.text..h.end], r) && (|r| == 40 || r == content[h.text..h.end])
    ensures OneLine(r)
  {
    var hs := Headings(content, 0);
    var desc := if |hs| > 1 then content[hs[1].text..hs[1].end] else "Background agent";
    assert OneLine(desc) by {
      if |hs| > 1 {
        HeadingTextOneLine(content, hs[1]);
      }
    }
    PrefixOneLine(desc, 40);
    Prefix(desc, 40)
  }

  // ---------------------------------------------------------------------------
  // Core question: /##\s+Core Question\s+\*\*(.+?)\*\*/s
  // ---------------------------------------------------------------------------

  /** The first `**` that starts at or after `from`. */
  function NextStars(s: string, from: nat): (r: Option<nat>)
    requires from <= |s|
    ensures r.Some? ==> from <= r.value && At(s, r.value, "**")
    ensures r.Some? ==> forall j :: from <= j < r.value ==> !At(s, j, "**")
    ensures r.None? ==> forall j :: from <= j <= |s| ==> !At(s, j, "**")
    decreases |s| - from
  {
    if At(s, from, "**") then Some(from)
    else if from == |s| then None
    else NextStars(s, from + 1)
  }

  /**
   * `##`, white space, `Core Question` and white space from `p`, with the
   * opening `**` at `b`.
   */
  predicate CoreQuestionHead(s: string, p: nat, a: nat, b: nat) {
    p + 2 < a && a + 13 < b <= |s| && At(s, p, "##") && SpaceBetween(s, p + 2, a)
    && At(s, a, "Core Question") && SpaceBetween(s, a + 13, b) && At(s, b, "**")
  }

  /**
   * The bold span of a core-question match that starts at `p`, as bounds:
   * the lazy group is closed by the first `**` after its first character.
   */
  function CoreQuestionAt(s: string, p: nat): (r: Option<(nat, nat)>)
    requires p <= |s|
    ensures r.Some? ==> p + 2 < r.value.0 < r.value.1 && At(s, r.value.1, "**")
    ensures r.Some? ==> At(s, r.value.0 - 2, "**")
    ensures r.Some? ==> forall j :: r.value.0 < j < r.value.1 ==> !At(s, j, "**")
  {
    if At(s, p, "##") then
      var a := SkipSpace(s, p + 2);
      if a > p + 2 && At(s, a, "Core Question") then
        var b := SkipSpace(s, a + 13);
        if b > a + 13 && At(s, b, "**") && b + 3 <= |s| then
          match NextStars(s, b + 3)
          case Some(k) => Some((b + 2, k))
          case None => None
        else None
      else None
    else None
  }

  /** Every core-question match has the full heading before its bold span. */
  lemma CoreQuestionAtSound(s: string, p: nat)
    requires p <= |s| && CoreQuestionAt(s, p).Some?
    ensures exists a: nat, b: nat :: CoreQuestionHead(s, p, a, b) && CoreQuestionAt(s, p).value.0 == b + 2
  {
    var a := SkipSpace(s, p + 2);
    var b := SkipSpace(s, a + 13);
    assert CoreQuestionHead(s, p, a, b);
  }

  /** Every `## Core Question **…**` with a non-empty bold span is a match, closed by its first `**`. */
  lemma CoreQuestionAtComplete(s: string, p: nat, a: nat, b: nat, k: nat)
    requires CoreQuestionHead(s, p, a, b) && b + 3 <= k && At(s, k, "**")
    requires forall j :: b + 3 <= j < k ==> !At(s, j, "**")
    ensures CoreQuestionAt(s, p) == Some((b + 2, k))
  {
    assert s[a] == 'C';
    SkipSpaceAt(s, p + 2, a);
    assert s[b] == '*';
    SkipSpaceAt(s, a + 13, b);
  }

  /** The leftmost core-question match at or after `from`. */
  function FirstCoreQuestion(s: string, from: nat): (r: Option<nat>)
    requires from <= |s|
    ensures r.Some? ==> from <= r.value <= |s| && CoreQuestionAt(s, r.value).Some?
    ensures r.Some? ==> forall q :: from <= q < r.value ==> CoreQuestionAt(s, q).None?
    ensures r.None? ==> forall q :: from <= q <= |s| ==> CoreQuestionAt(s, q).None?
    decreases |s| - from
  {
    if CoreQuestionAt(s, from).Some? then Some(from)
    else if from == |s| then None
    else FirstCoreQuestion(s, from + 1)
  }

  /**
   * `extractCoreQuestion(content)`: the trimmed bold span after the first
   * `## Core Question`, or `''` when there is none.
   */
  function ExtractCoreQuestion(content: string): (r: string)
    ensures r == [] || (!IsSpace(r[0]) && !IsSpace(r[|r| - 1]))
    ensures (forall p :: 0 <= p <= |content| ==> CoreQuestionAt(content, p).None?) ==> r == ""
    ensures (exists p :: 0 <= p <= |content| && CoreQuestionAt(content, p).Some?) ==>
      exists p :: (0 <= p <= |content| && CoreQuestionAt(content, p).Some?
      && (forall q :: 0 <= q < p ==> CoreQuestionAt(content, q).None?)
      && r == Trim(content[CoreQuestionAt(content, p).value.0..CoreQuestionAt(content, p).value.1]))
  {
    match FirstCoreQuestion(content, 0)
    case Some(p) =>
      var (g, k) := CoreQuestionAt(content, p).value;
      Trim(content[g..k])
    case None => ""
  }

  // ---------------------------------------------------------------------------
  // Skill rows
  // ---------------------------------------------------------------------------

  /** `frontmatter.description || ''` */
  function SkillDescription(fm: map<string, string>): (desc: string)
    ensures "description" in fm ==> desc == fm["description"]
    ensures "description" !in fm ==> desc == ""
  {
    if "description" in fm then fm["description"] else ""
  }

  /** `desc.substring(0, 60) + (desc.length > 60 ? '...' : '')` */
  function ShortDescription(desc: string): (r: string)
    ensures |r| <= 63
    ensures |desc| <= 60 ==> r == desc
    ensures |desc| > 60 ==> |r| == 63 && StartsWith(desc, r[..60]) && EndsWith(r, "...")
  {
    Prefix(desc, 60) + (if |desc| > 60 then "..." else "")
  }

  // ---------------------------------------------------------------------------
  // Agent rows
  // ---------------------------------------------------------------------------

  /** The captured token of a `model:` match at `p`: /^model:\s*(\S+)/m. */
  function ModelAt(s: string, p: nat): (r: Option<string>)
    requires p <= |s|
    ensures r.Some? ==> r.value != [] && forall i :: 0 <= i < |r.value| ==> !IsSpace(r.value[i])
  {
    if LineStart(s, p) && At(s, p, "model:") then
      var t := SkipSpace(s, p + 6);
      if t < |s| then Some(s[t..SkipNonSpace(s, t)]) else None
    else None
  }

  /** Every `model:` match captures the whole token that follows the white space after `model:`. */
  lemma ModelAtSound(s: string, p: nat)
    requires p <= |s| && ModelAt(s, p).Some?
    ensures LineStart(s, p) && At(s, p, "model:")
    ensures exists t: nat, e: nat :: ModelToken(s, p, t, e) && ModelAt(s, p).value == s[t..e]
  {
    var t := SkipSpace(s, p + 6);
    assert ModelToken(s, p, t, SkipNonSpace(s, t));
  }

  /** After `model:` at `p`, white space up to `t`, then the whole run of `\S` in `[t, e)`. */
  predicate ModelToken(s: string, p: nat, t: nat, e: nat) {
    p + 6 <= t < e <= |s| && SpaceBetween(s, p + 6, t)
    && (forall j :: t <= j < e ==> !IsSpace(s[j])) && (e < |s| ==> IsSpace(s[e]))
  }

  /** Every `model:` line start followed by white space and a token is a match, capturing that token. */
  lemma ModelAtComplete(s: string, p: nat, t: nat, e: nat)
    requires LineStart(s, p) && At(s, p, "model:") && ModelToken(s, p, t, e)
    ensures ModelAt(s, p) == Some(s[t..e])
  {
    SkipSpaceAt(s, p + 6, t);
    SkipNonSpaceAt(s, t, e);
  }

  lemma {:induction false} SkipNonSpaceAt(s: string, from: nat, to: nat)
    requires from <= to <= |s| && (forall j :: from <= j < to ==> !IsSpace(s[j])) && (to < |s| ==> IsSpace(s[to]))
    ensures SkipNonSpace(s, from) == to
    decreases |s| - from
  {
    if from < to {
      SkipNonSpaceAt(s, from + 1, to);
    }
  }

  /** The leftmost `model:` match at or after `from`. */
  function FirstModel(s: string, from: nat): (r: Option<nat>)
    requires from <= |s|
    ensures r.Some? ==> from <= r.value <= |s| && ModelAt(s, r.value).Some?
    ensures r.Some? ==> forall q :: from <= q < r.value ==> ModelAt(s, q).None?
    ensures r.None? ==> forall q :: from <= q <= |s| ==> ModelAt(s, q).None?
    decreases |s| - from
  {
    if ModelAt(s, from).Some? then Some(from)
    else if from == |s| then None
    else FirstModel(s, from + 1)
  }

  /** The model column: the token after the first `model:` line, or `haiku`. */
  function AgentModel(content: string): (r: string)
    ensures r != [] && forall i :: 0 <= i < |r| ==> !IsSpace(r[i])
    ensures (forall p :: 0 <= p <= |content| ==> ModelAt(content, p).None?) ==> r == "haiku"
    ensures (exists p :: 0 <= p <= |content| && ModelAt(content, p).Some?) ==>
      exists p :: (0 <= p <= |content| && ModelAt(content, p) == Some(r)
        && forall q :: 0 <= q < p ==> ModelAt(content, q).None?)
  {
    match FirstModel(content, 0)
    case Some(p) => ModelAt(content, p).value
    case None => "haiku"
  }

  /** Where a tool-list match at `p` ends: /^  -\s+/m. */
  function ToolAt(s: string, p: nat): (r: Option<nat>)
    requires p <= |s|
    ensures r.Some? ==> p + 3 < r.value <= |s| && SpaceBetween(s, p + 3, r.value)
  {
    if LineStart(s, p) && At(s, p, "  -") && SkipSpace(s, p + 3) > p + 3 then Some(SkipSpace(s, p + 3))
    else None
  }

  /** Position `p` starts a line that begins with two spaces, `-` and a `\s` character. */
  predicate ToolLine(s: string, p: nat) {
    p + 3 < |s| && LineStart(s, p) && At(s, p, "  -") && IsSpace(s[p + 3])
  }

  /** A match can start exactly where a tool line starts. */
  lemma ToolAtIff(s: string, p: nat)
    requires p <= |s|
    ensures ToolAt(s, p).Some? <==> ToolLine(s, p)
  {
  }

  /** The leftmost tool-list match at or after `from`. */
  function FirstTool(s: string, from: nat): (r: Option<nat>)
    requires from <= |s|
    ensures r.Some? ==> from <= r.value <= |s| && ToolAt(s, r.value).Some?
    ensures r.Some? ==> forall q :: from <= q < r.value ==> ToolAt(s, q).None?
    ensures r.None? ==> forall q :: from <= q <= |s| ==> ToolAt(s, q).None?
    decreases |s| - from
  {
    if ToolAt(s, from).Some? then Some(from)
    else if from == |s| then None
    else FirstTool(s, from + 1)
  }

  /**
   * As written: `content.match(/^  -\s+/gm).length`. Each match's `\s+`
   * runs on across line ends, and the scan resumes after it.
   */
  function ToolMatchCount(s: string, from: nat): (n: nat)
    requires from <= |s|
    ensures n <= |s| - from
    ensures n == 0 <==> forall q :: from <= q <= |s| ==> ToolAt(s, q).None?
    decreases |s| - from
  {
    match FirstTool(s, from)
    case None => 0
    case Some(p) => 1 + ToolMatchCount(s, ToolAt(s, p).value)
  }

  /** The number of tool lines that start at or after `from`. */
  function ToolLineCount(s: string, from: nat): (n: nat)
    requires from <= |s|
    ensures n <= |s| - from
    decreases |s| - from
  {
    if from == |s| then 0 else (if ToolLine(s, from) then 1 else 0) + ToolLineCount(s, from + 1)
  }

  /** The global match never counts more than the tool lines. */
  lemma {:induction false} ToolMatchesAtMostLines(s: string, from: nat)
    requires from <= |s|
    ensures ToolMatchCount(s, from) <= ToolLineCount(s, from)
    decreases |s| - from
  {
    match FirstTool(s, from)
    case None =>
    case Some(p) =>
      var e := ToolAt(s, p).value;
      ToolMatchesAtMostLines(s, e);
      ToolLinesBefore(s, from, p);
      ToolLineCountMonotone(s, p + 1, e);
  }

  /** No tool line starts before the first match, so counting from there loses nothing. */
  lemma {:induction false} ToolLinesBefore(s: string, from: nat, p: nat)
    requires from <= p < |s| && ToolLine(s, p)
    requires forall q :: from <= q < p ==> ToolAt(s, q).None?
    ensures ToolLineCount(s, from) == 1 + ToolLineCount(s, p + 1)
    decreases p - from
  {
    ToolAtIff(s, from);
    if from < p {
      ToolLinesBefore(s, from + 1, p);
    }
  }

  lemma {:induction false} ToolLineCountMonotone(s: string, a: nat, b: nat)
    requires a <= b <= |s|
    ensures ToolLineCount(s, b) <= ToolLineCount(s, a)
    decreases b - a
  {
    if a < b {
      ToolLineCountMonotone(s, a + 1, b);
    }
  }

  /** The list of the example below: an empty item with a trailing space, then `Read`. */
  const TrailingSpaceList: string := "  - \n  - Read"

  /**
   * An empty list item with trailing white space hides the next item: its
   * `\s+` swallows the line end and the next line's indent, so the global
   * match counts one tool where two lines list tools.
   */
  lemma TrailingSpaceHidesNextTool()
    ensures ToolMatchCount(TrailingSpaceList, 0) == 1
    ensures ToolLineCount(TrailingSpaceList, 0) == 2
  {
    TrailingSpaceOneMatch();
    TrailingSpaceTwoLines();
  }

  lemma TrailingSpaceOneMatch()
    ensures ToolMatchCount(TrailingSpaceList, 0) == 1
  {
    var s := TrailingSpaceList;
    assert ToolAt(s, 0) == Some(7) by {
      assert At(s, 0, "  -");
      SkipSpaceAt(s, 3, 7);
    }
    assert FirstTool(s, 7) == None by {
      forall q | 7 <= q <= |s| ensures ToolAt(s, q).None? {
        assert !LineStart(s, q);
      }
      NoToolFrom(s, 7);
    }
  }

  lemma TrailingSpaceTwoLines()
    ensures ToolLineCount(TrailingSpaceList, 0) == 2
  {
    var s := TrailingSpaceList;
    assert ToolLine(s, 0) && ToolLine(s, 5) by {
      assert s[0..3] == "  -" && s[5..8] == "  -";
    }
    assert ToolLineCount(s, 6) == 0 by {
      NoToolLineFrom(s, 6);
    }
    assert ToolLineCount(s, 1) == 1 by {
      assert forall q :: 1 <= q < 5 ==> !LineStart(s, q);
    }
  }

  lemma {:induction false} NoToolFrom(s: string, from: nat)
    requires from <= |s|
    requires forall q :: from <= q <= |s| ==> ToolAt(s, q).None?
    ensures FirstTool(s, from) == None
    decreases |s| - from
  {
    if from < |s| {
      NoToolFrom(s, from + 1);
    }
  }

  lemma {:induction false} NoToolLineFrom(s: string, from: nat)
    requires from <= |s|
    requires forall q :: from <= q < |s| ==> !LineStart(s, q)
    ensures ToolLineCount(s, from) == 0
    decreases |s| - from
  {
    if from < |s| {
      NoToolLineFrom(s, from + 1);
    }
  }

  /** One row per file, in the order of `files`. */
  function RowsOf<R>(row: ((string, string)) -> R, files: seq<(string, string)>): (rows: seq<R>)
    ensures |rows| == |files|
  {
    if files == [] then [] else RowsOf(row, files[..|files| - 1]) + [row(files[|files| - 1])]
  }

  /** Row `i` is the row of file `i`. */
  lemma {:induction false} RowsOfAt<R>(row: ((string, string)) -> R, files: seq<(string, string)>, i: nat)
    requires i < |files|
    ensures RowsOf(row, files)[i] == row(files[i])
  {
    var init := files[..|files| - 1];
    if i < |init| {
      RowsOfAt(row, init, i);
      assert init[i] == files[i];
    }
  }

  /** One row of the agents index. */
  datatype AgentRow = AgentRow(name: string, model: string, tools: nat, purpose: string)

  /** The row of one agent file as the page generator builds it: the tool column is the global match count. */
  function AgentRowOf(file: (string, string)): AgentRow {
    AgentRow(file.0, AgentModel(file.1), ToolMatchCount(file.1, 0), AgentPurpose(file.1))
  }

  /** The row of one agent file with the tool column the generator means: the number of tool lines. */
  function IntendedAgentRowOf(file: (string, string)): AgentRow {
    AgentRow(file.0, AgentModel(file.1), ToolLineCount(file.1, 0), AgentPurpose(file.1))
  }

  /**
   * The generated row differs from the intended one only in its tool column,
   * which never shows more tools than the file lists, and on the example list
   * shows fewer.
   */
  lemma AgentRowUndercounts(file: (string, string))
    ensures AgentRowOf(file).(tools := 0) == IntendedAgentRowOf(file).(tools := 0)
    ensures AgentRowOf(file).tools <= IntendedAgentRowOf(file).tools
    ensures file.1 == TrailingSpaceList ==> AgentRowOf(file).tools < IntendedAgentRowOf(file).tools
  {
    ToolMatchesAtMostLines(file.1, 0);
    if file.1 == TrailingSpaceList {
      TrailingSpaceHidesNextTool();
    }
  }

  /** Builds the agents index one file at a time, as the page generator appends its rows. */
  method AgentIndex(files: seq<(string, string)>) returns (rows: seq<AgentRow>)
    ensures rows == RowsOf(AgentRowOf, files)
  {
    rows := [];
    for i := 0 to |files|
      invariant rows == RowsOf(AgentRowOf, files[..i])
    {
      assert files[..i + 1][..i] == files[..i];
      rows := rows + [AgentRowOf(files[i])];
    }
    assert files[..|files|] == files;
  }

  // ---------------------------------------------------------------------------
  // Command rows
  // ---------------------------------------------------------------------------

  /** Where a match of /^[A-Z].+$/m at `p` ends: an upper-case letter and at least one more character on its line. */
  function UpperLineAt(s: string, p: nat): (r: Option<nat>)
    requires p <= |s|
    ensures r.Some? ==> p + 2 <= r.value <= |s| && LineEnd(s, r.value) && 'A' <= s[p] <= 'Z'
    ensures r.Some? ==> LineStart(s, p)
    ensures r.Some? ==> forall j :: p <= j < r.value ==> !IsLineTerminator(s[j])
  {
    if LineStart(s, p) && p + 1 < |s| && 'A' <= s[p] <= 'Z' && !IsLineTerminator(s[p + 1]) then
      Some(LineRestEnd(s, p + 1))
    else None
  }

  /** Every line that starts with an upper-case letter and has one more character matches up to its end. */
  lemma UpperLineAtComplete(s: string, p: nat, e: nat)
    requires LineStart(s, p) && p + 2 <= e <= |s| && 'A' <= s[p] <= 'Z' && LineEnd(s, e)
    requires forall j :: p + 1 <= j < e ==> !IsLineTerminator(s[j])
    ensures UpperLineAt(s, p) == Some(e)
  {
    LineRestEndAt(s, p + 1, e);
  }

  lemma {:induction false} LineRestEndAt(s: string, from: nat, to: nat)
    requires from <= to <= |s| && LineEnd(s, to) && forall j :: from <= j < to ==> !IsLineTerminator(s[j])
    ensures LineRestEnd(s, from) == to
    decreases |s| - from
  {
    if from < to {
      LineRestEndAt(s, from + 1, to);
    }
  }

  /** The leftmost such line at or after `from`. */
  function FirstUpperLine(s: string, from: nat): (r: Option<nat>)
    requires from <= |s|
    ensures r.Some? ==> from <= r.value <= |s| && UpperLineAt(s, r.value).Some?
    ensures r.Some? ==> forall q :: from <= q < r.value ==> UpperLineAt(s, q).None?
    ensures r.None? ==> forall q :: from <= q <= |s| ==> UpperLineAt(s, q).None?
    decreases |s| - from
  {
    if UpperLineAt(s, from).Some? then Some(from)
    else if from == |s| then None
    else FirstUpperLine(s, from + 1)
  }

  /**
   * The description column of a command row: the first line that starts
   * with an upper-case letter, cut to 40 characters, then `...`; `''` when
   * no line does.
   */
  function CommandDescription(content: string): (r: string)
    ensures r == "" <==> forall p :: 0 <= p <= |content| ==> UpperLineAt(content, p).None?
    ensures r != "" ==> 5 <= |r| <= 43 && EndsWith(r, "...") && 'A' <= r[0] <= 'Z'
    ensures r != "" ==> exists p :: (0 <= p <= |content| && UpperLineAt(content, p).Some?
      && (forall q :: 0 <= q < p ==> UpperLineAt(content, q).None?)
      && r == Prefix(content[p..UpperLineAt(content, p).value], 40) + "...")
  {
    match FirstUpperLine(content, 0)
    case Some(p) => Prefix(content[p..UpperLineAt(content, p).value], 40) + "..."
    case None => ""
  }

  /** The end of the run of lower-case ASCII letters that starts at `from`. */
  function SkipLower(s: string, from: nat): (k: nat)
    requires from <= |s|
    ensures from <= k <= |s|
    ensures forall j :: from <= j < k ==> 'a' <= s[j] <= 'z'
    ensures k < |s| ==> !('a' <= s[k] <= 'z')
    decreases |s| - from
  {
    if from < |s| && 'a' <= s[from] <= 'z' then SkipLower(s, from + 1) else from
  }

  /** Position `k` ends a lazy group: white space from `k` and then a fence. */
  predicate FenceAfter(s: string, k: nat) {
    k < |s| && IsSpace(s[k]) && At(s, SkipSpace(s, k), "```")
  }

  /** The first position at or after `from` where white space and a fence follow. */
  function NextFence(s: string, from: nat): (r: Option<nat>)
    requires from <= |s|
    ensures r.Some? ==> from <= r.value < |s| && FenceAfter(s, r.value)
    ensures r.Some? ==> forall j {:trigger FenceAfter(s, j)} :: from <= j < r.value ==> !FenceAfter(s, j)
    ensures r.None? ==> forall j {:trigger FenceAfter(s, j)} :: from <= j <= |s| ==> !FenceAfter(s, j)
    decreases |s| - from
  {
    if FenceAfter(s, from) then Some(from)
    else if from == |s| then None
    else NextFence(s, from + 1)
  }

  /**
   * The group of a match of /## Usage\s+```[a-z]*\s+(.+?)\s+```/s at `p`,
   * as bounds: the opening up to the end of the language tag, then the group.
   */
  function UsageAt(s: string, p: nat): (r: Option<(nat, nat)>)
    requires p <= |s|
    ensures r.Some? ==> p + 8 < r.value.0 < r.value.1 < |s| && FenceAfter(s, r.value.1)
    ensures r.Some? ==> At(s, p, "## Usage")
  {
    match UsageTag(s, p)
    case None => None
    case Some(c) => UsageGroup(s, c)
  }

  /**
   * Where the language tag ends when `## Usage`, white space and the opening
   * fence match at `p`: the greedy runs leave no choice for these parts.
   */
  function UsageTag(s: string, p: nat): (r: Option<nat>)
    requires p <= |s|
    ensures r.Some? ==> p + 11 < r.value <= |s| && At(s, p, "## Usage")
  {
    if At(s, p, "## Usage") then
      var a := SkipSpace(s, p + 8);
      if a > p + 8 && At(s, a, "```") then Some(SkipLower(s, a + 3)) else None
    else None
  }

  /**
   * The lazy group after the language tag, which ends at `c`: white space,
   * then the group up to the first white space that leads to a fence; when
   * none does, the white space gives back characters, which only succeeds
   * when a fence follows it directly, leaving a group of white space.
   */
  function UsageGroup(s: string, c: nat): (r: Option<(nat, nat)>)
    requires c <= |s|
    ensures r.Some? ==> c < r.value.0 < r.value.1 < |s| && FenceAfter(s, r.value.1)
    ensures r.Some? ==> SpaceBetween(s, c, r.value.0)
  {
    var d := SkipSpace(s, c);
    if d > c then
      if d < |s| && NextFence(s, d + 1).Some? then Some((d, NextFence(s, d + 1).value))
      else if d >= c + 3 && At(s, d, "```") then Some((d - 2, d - 1))
      else None
    else None
  }

  /** `## Usage`, white space, the opening fence at `a` and its language tag, which ends at `c`. */
  predicate UsageOpen(s: string, p: nat, a: nat, c: nat) {
    p + 8 < a && a + 3 <= c <= |s| && At(s, p, "## Usage") && SpaceBetween(s, p + 8, a) && At(s, a, "```")
    && (forall j :: a + 3 <= j < c ==> 'a' <= s[j] <= 'z') && (c < |s| ==> !('a' <= s[c] <= 'z'))
  }

  /** The first fence position at or after `from` is `k`. */
  lemma NextFenceAt(s: string, from: nat, k: nat)
    requires from <= k && FenceAfter(s, k) && forall j :: from <= j < k ==> !FenceAfter(s, j)
    ensures NextFence(s, from) == Some(k)
  {
  }

  /** The group after the tag: code that starts at `d` runs to the fence position `k`. */
  lemma UsageGroupAt(s: string, c: nat, d: nat, k: nat)
    requires c < d < |s| && SpaceBetween(s, c, d) && !IsSpace(s[d]) && NextFence(s, d + 1) == Some(k)
    ensures UsageGroup(s, c) == Some((d, k))
  {
    SkipSpaceAt(s, c, d);
    var r := UsageGroup(s, c);
    assert r.Some? && r.value.0 == d && r.value.1 == k;
    assert r.value == (d, k);
  }

  /** A fence at `q` starts with a backquote, which is not white space. */
  lemma FenceStart(s: string, q: nat)
    requires At(s, q, "```")
    ensures q < |s| && s[q] == '`' && !IsSpace(s[q])
  {
    assert s[q] == s[q..q + 3][0];
  }

  lemma {:induction false} SkipLowerAt(s: string, from: nat, to: nat)
    requires from <= to <= |s| && (forall j :: from <= j < to ==> 'a' <= s[j] <= 'z') && (to < |s| ==> !('a' <= s[to] <= 'z'))
    ensures SkipLower(s, from) == to
    decreases |s| - from
  {
    if from < to {
      SkipLowerAt(s, from + 1, to);
    }
  }

  /** Every usage match has `## Usage`, white space, an opening fence and a tag before its group. */
  lemma UsageAtSound(s: string, p: nat)
    requires p <= |s| && UsageAt(s, p).Some?
    ensures exists a: nat, c: nat :: UsageOpen(s, p, a, c) && UsageGroup(s, c) == UsageAt(s, p)
  {
    var a := SkipSpace(s, p + 8);
    var c := UsageTag(s, p).value;
    assert UsageOpen(s, p, a, c);
  }

  /** The opening fixes where the language tag ends. */
  lemma UsageTagAt(s: string, p: nat, a: nat, c: nat)
    requires UsageOpen(s, p, a, c)
    ensures UsageTag(s, p) == Some(c)
  {
    FenceStart(s, a);
    SkipSpaceAt(s, p + 8, a);
    SkipLowerAt(s, a + 3, c);
  }

  /** After `## Usage`, white space and the opening fence, the match is the group after the tag. */
  lemma UsageAtOpen(s: string, p: nat, a: nat, c: nat)
    requires UsageOpen(s, p, a, c)
    ensures UsageAt(s, p) == UsageGroup(s, c)
  {
    UsageTagAt(s, p, a, c);
  }

  /**
   * Every usage block whose code starts, after white space, with a character
   * other than white space matches, and its group runs to the first white
   * space that leads to a closing fence.
   */
  lemma UsageAtComplete(s: string, p: nat, a: nat, c: nat, d: nat, k: nat)
    requires UsageOpen(s, p, a, c) && c < d < k && FenceAfter(s, k)
    requires SpaceBetween(s, c, d) && !IsSpace(s[d]) && forall j :: d < j < k ==> !FenceAfter(s, j)
    ensures UsageAt(s, p) == Some((d, k))
  {
    UsageAtOpen(s, p, a, c);
    NextFenceAt(s, d + 1, k);
    UsageGroupAt(s, c, d, k);
  }

  /**
   * With no fence reachable after the code's first character, a block of at
   * least three white-space characters followed directly by a fence still
   * matches: the white space gives back two characters, one for the group and
   * one before the fence.
   */
  lemma UsageAtGiveBack(s: string, p: nat, a: nat, c: nat, d: nat)
    requires UsageOpen(s, p, a, c) && c + 3 <= d && At(s, d, "```") && SpaceBetween(s, c, d)
    requires forall j :: d < j <= |s| ==> !FenceAfter(s, j)
    ensures UsageAt(s, p) == Some((d - 2, d - 1))
  {
    UsageAtOpen(s, p, a, c);
    FenceStart(s, d);
    SkipSpaceAt(s, c, d);
    assert NextFence(s, d + 1).None?;
    var r := UsageGroup(s, c);
    assert r.Some? && r.value.0 == d - 2 && r.value.1 == d - 1;
    assert r.value == (d - 2, d - 1);
  }

  /** The leftmost usage match at or after `from`. */
  function FirstUsage(s: string, from: nat): (r: Option<nat>)
    requires from <= |s|
    ensures r.Some? ==> from <= r.value <= |s| && UsageAt(s, r.value).Some?
    ensures r.Some? ==> forall q :: from <= q < r.value ==> UsageAt(s, q).None?
    ensures r.None? ==> forall q :: from <= q <= |s| ==> UsageAt(s, q).None?
    decreases |s| - from
  {
    if UsageAt(s, from).Some? then Some(from)
    else if from == |s| then None
    else FirstUsage(s, from + 1)
  }

  /** `.replace(/\n/g, ' ')` */
  function NewlinesToSpaces(s: string): (r: string)
    ensures |r| == |s|
    ensures forall i :: 0 <= i < |s| ==> r[i] == if s[i] == '\n' then ' ' else s[i]
  {
    if s == [] then [] else [if s[0] == '\n' then ' ' else s[0]] + NewlinesToSpaces(s[1..])
  }

  /** `p` is where the leftmost usage match of `s` starts. */
  predicate FirstUsageAt(s: string, p: nat) {
    p <= |s| && UsageAt(s, p).Some? && forall q :: 0 <= q < p ==> UsageAt(s, q).None?
  }

  /** The code of the usage block matched at `p`, trimmed and on one line. */
  function UsageText(s: string, p: nat): (r: string)
    requires p <= |s| && UsageAt(s, p).Some?
    ensures '\n' !in r
  {
    var (g, k) := UsageAt(s, p).value;
    NewlinesToSpaces(Trim(s[g..k]))
  }

  /**
   * The usage column of a command row: the code of the first `## Usage`
   * block, trimmed and on one line, or `''`.
   */
  function CommandUsage(content: string): (r: string)
    ensures '\n' !in r
    ensures (forall p :: 0 <= p <= |content| ==> UsageAt(content, p).None?) ==> r == ""
    ensures (exists p :: 0 <= p <= |content| && UsageAt(content, p).Some?) ==>
      exists p: nat :: FirstUsageAt(content, p) && r == UsageText(content, p)
  {
    match FirstUsage(content, 0)
    case Some(p) =>
      assert FirstUsageAt(content, p);
      UsageText(content, p)
    case None => ""
  }

  /** One row of the commands index. */
  datatype CommandRow = CommandRow(name: string, usage: string, description: string)

  /** The row of one command file. */
  function CommandRowOf(file: (string, string)): CommandRow {
    CommandRow(file.0, CommandUsage(file.1), CommandDescription(file.1))
  }

  /** Builds the commands index one file at a time, as the page generator appends its rows. */
  method CommandIndex(files: seq<(string, string)>) returns (rows: seq<CommandRow>)
    ensures rows == RowsOf(CommandRowOf, files)
  {
    rows := [];
    for i := 0 to |files|
      invariant rows == RowsOf(CommandRowOf, files[..i])
    {
      assert files[..i + 1][..i] == files[..i];
      rows := rows + [CommandRowOf(files[i])];
    }
    assert files[..|files|] == files;
  }
}
