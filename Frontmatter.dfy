/**
 * `parseFrontmatter` of scripts/utils/frontmatter.js over the file's text:
 * line endings are normalised, a `---` first line opens a block of
 * `key: value` lines closed by the next `---` line, and whatever follows is
 * the body.  A file that cannot be read is `None`.
 */
module Frontmatter {
  import opened JsText

  datatype Option<T> = None | Some(value: T)

  /** The result record: the fields, the normalised text and the body. */
  datatype Parsed = Parsed(frontmatter: map<string, string>, content: string, body: string)

  /** One `key: value` line. */
  datatype Field = Field(key: string, value: string)

  // ---------------------------------------------------------------------------
  // Line endings
  // ---------------------------------------------------------------------------

  /** `content.replace(/\r\n/g, '\n')`: occurrences are replaced left to right. */
  function NormalizeLineEndings(s: string): (r: string)
    ensures |r| <= |s|
    ensures '\r' !in s ==> r == s
    ensures forall c :: c in r ==> c in s
  {
    if s == [] then []
    else if At(s, 0, "\r\n") then
      assert s[0] == '\r' && s[1] == '\n' && s == s[..2] + s[2..];
      "\n" + NormalizeLineEndings(s[2..])
    else [s[0]] + NormalizeLineEndings(s[1..])
  }

  /** A line with one trailing carriage return removed. */
  function StripCr(line: string): (r: string)
    ensures r == line || (line == r + "\r")
  {
    if line != [] && line[|line| - 1] == '\r' then line[..|line| - 1] else line
  }

  /** The parts of a split, each but the last with one trailing carriage return removed. */
  function StripCrs(parts: seq<string>): (r: seq<string>)
    ensures |r| == |parts|
  {
    if |parts| <= 1 then parts else [StripCr(parts[0])] + StripCrs(parts[1..])
  }

  /** Every part but the last loses its trailing carriage return; the last is kept. */
  lemma {:induction false} StripCrsParts(parts: seq<string>)
    ensures |parts| > 0 ==> StripCrs(parts)[|parts| - 1] == parts[|parts| - 1]
    ensures forall i :: 0 <= i < |parts| - 1 ==> StripCrs(parts)[i] == StripCr(parts[i])
  {
    if |parts| > 1 {
      StripCrsParts(parts[1..]);
      assert StripCrs(parts) == [StripCr(parts[0])] + StripCrs(parts[1..]);
    }
  }

  /**
   * The lines of the normalised text are the file's lines with the carriage
   * return that ended each of them removed, and the last line untouched.
   */
  lemma {:induction false} NormalizedLines(s: string)
    ensures Split(NormalizeLineEndings(s), '\n') == StripCrs(Split(s, '\n'))
  {
    if s == [] {
    } else if At(s, 0, "\r\n") {
      NormalizedLines(s[2..]);
      CrlfStep(s);
    } else {
      NormalizedLines(s[1..]);
      CharStep(s);
    }
  }

  lemma CrlfStep(s: string)
    requires At(s, 0, "\r\n")
    requires Split(NormalizeLineEndings(s[2..]), '\n') == StripCrs(Split(s[2..], '\n'))
    ensures Split(NormalizeLineEndings(s), '\n') == StripCrs(Split(s, '\n'))
  {
    assert s[0] == s[0..2][0] == '\r' && s[1] == s[0..2][1] == '\n';
    assert s == ['\r'] + (['\n'] + s[2..]);
    assert NormalizeLineEndings(s) == ['\n'] + NormalizeLineEndings(s[2..]);
    CrlfCons(NormalizeLineEndings(s[2..]), s[2..]);
  }

  /** A CRLF pair in the text is a newline in the normalised text: both open a new line. */
  lemma CrlfCons(n: string, t: string)
    requires Split(n, '\n') == StripCrs(Split(t, '\n'))
    ensures Split(['\n'] + n, '\n') == StripCrs(Split(['\r'] + (['\n'] + t), '\n'))
  {
    var rest := Split(t, '\n');
    SplitCons('\n', t, '\n');
    SplitCons('\r', ['\n'] + t, '\n');
    var u := Split(['\n'] + t, '\n');
    assert u[0] == "" && u[1..] == rest;
    assert ['\r'] + u[0] == "\r";
    SplitCons('\n', n, '\n');
    StripCrsCrFirst(rest);
  }

  lemma StripCrsCrFirst(p: seq<string>)
    requires |p| >= 1
    ensures StripCrs(["\r"] + p) == [""] + StripCrs(p)
  {
    assert (["\r"] + p)[1..] == p;
    assert StripCr("\r") == "";
  }

  lemma CharStep(s: string)
    requires s != [] && !At(s, 0, "\r\n")
    requires Split(NormalizeLineEndings(s[1..]), '\n') == StripCrs(Split(s[1..], '\n'))
    ensures Split(NormalizeLineEndings(s), '\n') == StripCrs(Split(s, '\n'))
  {
    assert NormalizeLineEndings(s) == [s[0]] + NormalizeLineEndings(s[1..]);
    assert s == [s[0]] + s[1..];
    assert s[0] == '\r' ==> s[1..] == [] || s[1..][0] != '\n';
    CharCons(s[0], NormalizeLineEndings(s[1..]), s[1..]);
  }

  /** Any other character is kept by the normalisation and by the split alike. */
  lemma CharCons(c: char, n: string, t: string)
    requires Split(n, '\n') == StripCrs(Split(t, '\n'))
    requires c == '\r' ==> t == [] || t[0] != '\n'
    ensures Split([c] + n, '\n') == StripCrs(Split([c] + t, '\n'))
  {
    var p := Split(t, '\n');
    SplitCons(c, n, '\n');
    SplitCons(c, t, '\n');
    if c == '\n' {
      StripCrsEmptyFirst(p);
    } else if |p| == 1 {
      ConsSingle(c, p);
    } else {
      assert c == '\r' ==> p[0] != [] by {
        if c == '\r' && t != [] {
          SplitCons(t[0], t[1..], '\n');
          assert [t[0]] + t[1..] == t;
        }
      }
      ConsPart(c, p);
    }
  }

  lemma StripCrsEmptyFirst(p: seq<string>)
    requires |p| >= 1
    ensures StripCrs([""] + p) == [""] + StripCrs(p)
  {
    assert ([""] + p)[1..] == p;
  }

  lemma ConsPart(c: char, p: seq<string>)
    requires |p| > 1 && c != '\n' && (c == '\r' ==> p[0] != [])
    ensures StripCrs([[c] + p[0]] + p[1..]) == [[c] + StripCrs(p)[0]] + StripCrs(p)[1..]
  {
    assert StripCr([c] + p[0]) == [c] + StripCr(p[0]);
    assert StripCrs(p) == [StripCr(p[0])] + StripCrs(p[1..]);
    assert ([[c] + p[0]] + p[1..])[1..] == p[1..];
  }

  lemma ConsSingle(c: char, p: seq<string>)
    requires |p| == 1
    ensures StripCrs([[c] + p[0]] + p[1..]) == [[c] + StripCrs(p)[0]] + StripCrs(p)[1..]
  {
    assert [[c] + p[0]] + p[1..] == [[c] + p[0]];
  }

  // ---------------------------------------------------------------------------
  // One `key: value` line
  // ---------------------------------------------------------------------------

  /** `[\w-]` */
  predicate IsKeyChar(c: char) {
    IsWordChar(c) || c == '-'
  }

  /** The end of the run of `[\w-]` characters that starts at `from`. */
  function SkipKeyChars(s: string, from: nat): (k: nat)
    requires from <= |s|
    ensures from <= k <= |s|
    ensures forall j :: from <= j < k ==> IsKeyChar(s[j])
    ensures k < |s| ==> !IsKeyChar(s[k])
    decreases |s| - from
  {
    if from < |s| && IsKeyChar(s[from]) then SkipKeyChars(s, from + 1) else from
  }

  /** The run of `[\w-]` characters that starts at `from` ends at `to`. */
  lemma SkipKeyCharsAt(s: string, from: nat, to: nat)
    requires from <= to <= |s| && (forall j :: from <= j < to ==> IsKeyChar(s[j])) && (to < |s| ==> !IsKeyChar(s[to]))
    ensures SkipKeyChars(s, from) == to
  {
  }

  /** `s[..n]` matches `\w[\w-]*`. */
  predicate KeyPrefix(s: string, n: nat) {
    0 < n <= |s| && IsWordChar(s[0]) && forall i :: 0 <= i < n ==> IsKeyChar(s[i])
  }

  /** `s[from..]` holds no character that `.` refuses. */
  predicate OneLineFrom(s: string, from: nat) {
    forall i :: from <= i < |s| ==> !IsLineTerminator(s[i])
  }

  /** Remove one surrounding pair of matching `"` or `'` (`value.slice(1, -1)`). */
  function Unquote(v: string): (r: string)
    ensures |v| >= 2 && v[0] == v[|v| - 1] && (v[0] == '"' || v[0] == '\'') ==> r == v[1..|v| - 1]
    ensures |v| == 1 && (v[0] == '"' || v[0] == '\'') ==> r == ""
    ensures !(|v| >= 1 && v[0] == v[|v| - 1] && (v[0] == '"' || v[0] == '\'')) ==> r == v
  {
    if |v| >= 1 && ((v[0] == '"' && v[|v| - 1] == '"') || (v[0] == '\'' && v[|v| - 1] == '\'')) then
      if |v| >= 2 then v[1..|v| - 1] else ""
    else v
  }

  /** Where the key ends, where the colon is and where the captured value starts. */
  datatype Spans = Spans(keyEnd: nat, colon: nat, valueStart: nat)

  /**
   * `line.match(/^(\w[\w-]*)\s*:\s*(.*)$/)`: the key is the whole run of
   * `[\w-]` at the start, then white space, a colon, white space, and a rest
   * that holds no line terminator.
   */
  function Locate(line: string): (r: Option<Spans>)
    ensures r.Some? ==> r.value.keyEnd <= r.value.colon < r.value.valueStart <= |line|
  {
    if line == [] || !IsWordChar(line[0]) then None
    else
      var k := SkipKeyChars(line, 1);
      var colon := SkipSpace(line, k);
      if colon == |line| || line[colon] != ':' then None
      else
        var v := SkipSpace(line, colon + 1);
        if OneLineFrom(line, v) then Some(Spans(k, colon, v)) else None
  }

  /** The field of a matching line: the key and the trimmed, unquoted rest. */
  function ParseLine(line: string): (r: Option<Field>)
    ensures r.Some? ==> KeyPrefix(line, |r.value.key|) && r.value.key == line[..|r.value.key|]
    ensures r.Some? && |r.value.key| < |line| ==> !IsKeyChar(line[|r.value.key|])
    ensures r.Some? ==> ':' in line[|r.value.key|..]
  {
    match Locate(line)
    case Some(sp) => Some(Field(line[..sp.keyEnd], Unquote(Trim(line[sp.valueStart..]))))
    case None => None
  }

  /**
   * The line is a key `line[..n]`, white space, a colon at `c`, white space
   * up to `v`, and a rest `line[v..]` that `.*` can match.
   */
  predicate Shaped(line: string, n: nat, c: nat, v: nat) {
    n <= c < v <= |line| && KeyPrefix(line, n) && SpaceBetween(line, n, c) && line[c] == ':'
    && SpaceBetween(line, c + 1, v) && OneLineFrom(line, v)
  }

  /** Whatever ParseLine accepts has the shape of the pattern, and its value comes from the rest. */
  lemma ParseLineSound(line: string)
    requires ParseLine(line).Some?
    ensures exists n: nat, c: nat, v: nat :: Shaped(line, n, c, v)
              && ParseLine(line).value == Field(line[..n], Unquote(Trim(line[v..])))
  {
    var sp := Locate(line).value;
    assert Shaped(line, sp.keyEnd, sp.colon, sp.valueStart);
  }

  /**
   * Every line of the pattern's shape is accepted with that key, and the
   * value is the rest trimmed and unquoted, however the white space after
   * the colon is split between `\s*` and `(.*)`.
   */
  lemma ParseLineComplete(line: string, n: nat, c: nat, v: nat)
    requires Shaped(line, n, c, v)
    ensures ParseLine(line) == Some(Field(line[..n], Unquote(Trim(line[v..]))))
  {
    var v' := SkipSpace(line, c + 1);
    LocateShaped(line, n, c, v);
    TrimSpacePrefix(line, v, v');
  }

  /** A line of the pattern's shape is located at the key end and colon of that shape. */
  lemma LocateShaped(line: string, n: nat, c: nat, v: nat)
    requires Shaped(line, n, c, v)
    ensures v <= SkipSpace(line, c + 1)
    ensures SpaceBetween(line, v, SkipSpace(line, c + 1))
    ensures Locate(line) == Some(Spans(n, c, SkipSpace(line, c + 1)))
  {
    assert !IsKeyChar(line[n]) by {
      if n < c {
        assert IsSpace(line[n]);
      }
    }
    SkipKeyCharsAt(line, 1, n);
    SkipSpaceAt(line, n, c);
    SkipSpaceInside(line, c + 1, v);
  }

  // ---------------------------------------------------------------------------
  // The block of fields
  // ---------------------------------------------------------------------------

  /**
   * `result.frontmatter[key] = value` on a plain object: a later key
   * overwrites an earlier one, and assigning a string to `__proto__` is
   * ignored by JavaScript.
   */
  function AddField(m: map<string, string>, f: Field): map<string, string> {
    if f.key == "__proto__" then m else m[f.key := f.value]
  }

  /** One block line applied to the fields collected so far. */
  function AddParsed(m: map<string, string>, p: Option<Field>): map<string, string> {
    match p
    case Some(f) => AddField(m, f)
    case None => m
  }

  /** The parsed lines, folded in order. */
  function Collect(ps: seq<Option<Field>>): map<string, string> {
    if ps == [] then map[] else AddParsed(Collect(ps[..|ps| - 1]), ps[|ps| - 1])
  }

  lemma CollectStep(ps: seq<Option<Field>>, j: nat)
    requires j < |ps|
    ensures Collect(ps[..j + 1]) == AddParsed(Collect(ps[..j]), ps[j])
  {
    assert ps[..j + 1][..j] == ps[..j];
  }

  /** Each line of the block, parsed. */
  function ParseAll(lines: seq<string>): (ps: seq<Option<Field>>)
    ensures |ps| == |lines|
    ensures forall j :: 0 <= j < |lines| ==> ps[j] == ParseLine(lines[j])
  {
    if lines == [] then [] else [ParseLine(lines[0])] + ParseAll(lines[1..])
  }

  /** The fields of the block lines. */
  function Fields(lines: seq<string>): map<string, string> {
    Collect(ParseAll(lines))
  }

  /** A parsed line sets `key`. */
  predicate SetsKey(p: Option<Field>, key: string) {
    p.Some? && p.value.key == key
  }

  /** Line `j` of the block sets `key`. */
  predicate Sets(lines: seq<string>, j: int, key: string)
    requires 0 <= j < |lines|
  {
    SetsKey(ParseLine(lines[j]), key)
  }

  /**
   * A key is present exactly when some block line sets it (and it is not
   * `__proto__`), and its value is the one the last such line gives.
   */
  lemma FieldsLookup(lines: seq<string>, key: string)
    ensures key in Fields(lines) <==> key != "__proto__" && exists j :: 0 <= j < |lines| && Sets(lines, j, key)
    ensures key in Fields(lines) ==>
      exists j :: 0 <= j < |lines| && Sets(lines, j, key)
        && Fields(lines)[key] == ParseLine(lines[j]).value.value
        && forall j' :: j < j' < |lines| ==> !Sets(lines, j', key)
  {
    var ps := ParseAll(lines);
    CollectLookup(ps, key);
    var j := LastSet(ps, key);
    if j >= 0 {
      assert Sets(lines, j, key);
    }
  }

  /** The last parsed line that sets `key`, or -1. */
  function LastSet(ps: seq<Option<Field>>, key: string): (j: int)
    ensures -1 <= j < |ps|
    ensures j >= 0 ==> SetsKey(ps[j], key)
    ensures forall j' :: j < j' < |ps| ==> !SetsKey(ps[j'], key)
  {
    if ps == [] then -1
    else if SetsKey(ps[|ps| - 1], key) then |ps| - 1
    else LastSet(ps[..|ps| - 1], key)
  }

  /** The folded fields hold `key` exactly when a line sets it, with the value of the last such line. */
  lemma {:induction false} CollectLookup(ps: seq<Option<Field>>, key: string)
    ensures key in Collect(ps) <==> key != "__proto__" && LastSet(ps, key) >= 0
    ensures key in Collect(ps) ==> Collect(ps)[key] == ps[LastSet(ps, key)].value.value
    decreases |ps|
  {
    if ps != [] {
      var front := ps[..|ps| - 1];
      CollectLookup(front, key);
      var j := LastSet(front, key);
      if j >= 0 {
        assert front[j] == ps[j];
      }
    }
  }

  // ---------------------------------------------------------------------------
  // The whole file
  // ---------------------------------------------------------------------------

  /** The index of the closing `---` after the opening one, or the number of lines when there is none. */
  function Closing(lines: seq<string>, from: nat): (i: nat)
    requires 1 <= from <= |lines|
    ensures from <= i <= |lines|
    ensures forall j :: from <= j < i ==> lines[j] != "---"
    ensures i < |lines| ==> lines[i] == "---"
    decreases |lines| - from
  {
    if from < |lines| && lines[from] != "---" then Closing(lines, from + 1) else from
  }

  /** `lines.slice(i + 1).join('\n')` */
  function After(lines: seq<string>, i: nat): string {
    if i + 1 <= |lines| then Join(lines[i + 1..], '\n') else ""
  }

  /** `parseFrontmatter(filePath)`, given the file's text or `None` when it cannot be read. */
  method ParseFrontmatter(file: Option<string>) returns (r: Parsed)
    ensures file.None? ==> r == Parsed(map[], "", "")
    ensures file.Some? ==> r.content == NormalizeLineEndings(file.value)
    ensures file.Some? && Split(r.content, '\n')[0] != "---" ==> r.frontmatter == map[] && r.body == r.content
    ensures file.Some? && Split(r.content, '\n')[0] == "---" ==>
      var lines := Split(r.content, '\n');
      var i := Closing(lines, 1);
      r.frontmatter == Fields(lines[1..i]) && r.body == After(lines, i)
  {
    if file.None? {
      return Parsed(map[], "", "");
    }
    var normalized := NormalizeLineEndings(file.value);
    var lines := Split(normalized, '\n');
    r := Parsed(map[], normalized, "");
    if lines[0] == "---" {
      var i := 1;
      var fmLines := [];
      while i < |lines| && lines[i] != "---"
        invariant 1 <= i <= |lines|
        invariant fmLines == lines[1..i]
        invariant Closing(lines, 1) == Closing(lines, i)
        decreases |lines| - i
      {
        fmLines := fmLines + [lines[i]];
        i := i + 1;
      }
      var fm := map[];
      ghost var ps := ParseAll(fmLines);
      for j := 0 to |fmLines|
        invariant fm == Collect(ps[..j])
      {
        CollectStep(ps, j);
        match ParseLine(fmLines[j]) {
          case Some(f) =>
            if f.key != "__proto__" {
              fm := fm[f.key := f.value];
            }
          case None =>
        }
      }
      assert ps[..|fmLines|] == ps;
      r := r.(frontmatter := fm, body := After(lines, i));
    } else {
      r := r.(body := normalized);
    }
  }

  /**
   * A file that opens with `---` and closes the block with the next `---`
   * line: the body is the text after it, line for line.
   */
  lemma BodyAfterBlock(head: seq<string>, rest: seq<string>)
    requires forall j :: 0 <= j < |head| ==> head[j] != "---"
    ensures var lines := ["---"] + head + ["---"] + rest;
      Closing(lines, 1) == |head| + 1 && After(lines, |head| + 1) == Join(rest, '\n')
  {
    var lines := ["---"] + head + ["---"] + rest;
    assert forall j :: 1 <= j < |head| + 1 ==> lines[j] == head[j - 1];
    ClosingAt(lines, 1, |head| + 1);
    assert lines[|head| + 2..] == rest;
  }

  /** The closing line is the first `---` at or after `from`. */
  lemma {:induction false} ClosingAt(lines: seq<string>, from: nat, i: nat)
    requires 1 <= from <= i < |lines| && lines[i] == "---"
    requires forall j :: from <= j < i ==> lines[j] != "---"
    ensures Closing(lines, from) == i
    decreases i - from
  {
    if from < i {
      ClosingAt(lines, from + 1, i);
    }
  }
}
