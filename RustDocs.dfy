/**
 * The text helpers of scripts/extract-rust-docs.js: looking up a quoted
 * value and slicing out a `[section]` of Cargo.toml, choosing the overview
 * lines of a README, and picking the `//!` documentation lines of a source
 * file.
 */
module RustDocs {
  import opened JsText

  datatype Option<T> = None | Some(value: T)

  /**
   * The names the script looks up (`name`, `version`, `description`,
   * `features`, `dependencies`) are spliced into a pattern unescaped; they
   * are plain words, so the pattern matches them literally.
   */
  predicate PlainName(name: string) {
    name != [] && forall i :: 0 <= i < |name| ==> IsWordChar(name[i])
  }

  // ---------------------------------------------------------------------------
  // parseTomlValue: /^key\s*=\s*"([^"]*)"/m
  // ---------------------------------------------------------------------------

  /** The quoted value of a `key = "value"` that starts at line start `p`, if one does. */
  function TomlValueAt(s: string, key: string, p: nat): (r: Option<string>)
    requires p <= |s|
    ensures r.Some? ==> '"' !in r.value
  {
    if LineStart(s, p) && At(s, p, key) then
      var a := SkipSpace(s, p + |key|);
      if a < |s| && s[a] == '=' then
        var b := SkipSpace(s, a + 1);
        if b < |s| && s[b] == '"' then
          var c := RunEnd(s, b + 1, '"');
          if c < |s| then Some(s[b + 1..c]) else None
        else None
      else None
    else None
  }

  /**
   * `key`, white space, `=`, white space and `"value"` from line start `p`,
   * with the `=` at `a`, the opening quote at `b` and the closing one at `c`.
   * White space includes line ends, so the assignment may span lines.
   */
  predicate Assignment(s: string, key: string, p: nat, a: nat, b: nat, c: nat) {
    p + |key| <= a < b < c < |s| && LineStart(s, p) && At(s, p, key)
    && SpaceBetween(s, p + |key|, a) && s[a] == '='
    && SpaceBetween(s, a + 1, b) && s[b] == '"'
    && (forall j :: b < j < c ==> s[j] != '"') && s[c] == '"'
  }

  /** Every assignment of that shape is read at its line start, whatever white space it holds. */
  lemma TomlValueAtComplete(s: string, key: string, p: nat, a: nat, b: nat, c: nat)
    requires Assignment(s, key, p, a, b, c)
    ensures TomlValueAt(s, key, p) == Some(s[b + 1..c])
  {
    SkipSpaceAt(s, p + |key|, a);
    SkipSpaceAt(s, a + 1, b);
    RunEndAt(s, b + 1, c, '"');
  }

  /** Whatever is read at `p` is an assignment of that shape. */
  lemma TomlValueAtSound(s: string, key: string, p: nat)
    requires p <= |s| && TomlValueAt(s, key, p).Some?
    ensures exists a: nat, b: nat, c: nat :: Assignment(s, key, p, a, b, c) && TomlValueAt(s, key, p) == Some(s[b + 1..c])
  {
    var a := SkipSpace(s, p + |key|);
    var b := SkipSpace(s, a + 1);
    var c := RunEnd(s, b + 1, '"');
    assert Assignment(s, key, p, a, b, c);
  }

  /** The first position at or after `from` where an assignment of `key` starts. */
  function FindAssignment(s: string, key: string, from: nat): (r: Option<nat>)
    requires from <= |s|
    ensures r.Some? ==> from <= r.value <= |s| && TomlValueAt(s, key, r.value).Some?
    ensures r.Some? ==> forall q :: from <= q < r.value ==> TomlValueAt(s, key, q).None?
    ensures r.None? ==> forall q :: from <= q <= |s| ==> TomlValueAt(s, key, q).None?
    decreases |s| - from
  {
    if TomlValueAt(s, key, from).Some? then Some(from)
    else if from == |s| then None
    else FindAssignment(s, key, from + 1)
  }

  /**
   * `parseTomlValue(content, key)`: the quoted value of the first line that
   * assigns a string to `key`, never holding `"`; `None` when no line does.
   */
  function ParseTomlValue(content: string, key: string): (r: Option<string>)
    requires PlainName(key)
    ensures r.Some? ==> '"' !in r.value
    ensures r.Some? <==> exists p :: 0 <= p <= |content| && TomlValueAt(content, key, p).Some?
    ensures r.Some? ==> exists p :: 0 <= p <= |content| && r == TomlValueAt(content, key, p)
                                    && forall q :: 0 <= q < p ==> TomlValueAt(content, key, q).None?
  {
    match FindAssignment(content, key, 0)
    case Some(p) => TomlValueAt(content, key, p)
    case None => None
  }

  // ---------------------------------------------------------------------------
  // extractTomlSection: /^\[name\]\s*$/m, then up to the next /^\[/m
  // ---------------------------------------------------------------------------

  /**
   * The last line end in `s[h..upTo]`, searching back from `upTo`: where a greedy
   * `\s*` starting at `h` gives back characters until `$` holds.
   */
  function LastLineEnd(s: string, h: nat, upTo: nat): (r: Option<nat>)
    requires h <= upTo <= |s|
    ensures r.Some? ==> h <= r.value <= upTo && LineEnd(s, r.value)
    ensures r.Some? ==> forall q :: r.value < q <= upTo ==> !LineEnd(s, q)
    ensures r.None? ==> forall q :: h <= q <= upTo ==> !LineEnd(s, q)
    decreases upTo
  {
    if LineEnd(s, upTo) then Some(upTo)
    else if upTo == h then None
    else LastLineEnd(s, h, upTo - 1)
  }

  /** Where the match of the header pattern that starts at `p` ends, if one starts there. */
  function HeaderEnd(s: string, name: string, p: nat): (r: Option<nat>)
    requires p <= |s|
    ensures r.Some? ==> p + |name| + 2 <= r.value <= |s| && LineEnd(s, r.value)
    ensures r.Some? ==> SpaceBetween(s, p + |name| + 2, r.value)
  {
    var header := "[" + name + "]";
    if LineStart(s, p) && At(s, p, header) then
      var h := p + |header|;
      LastLineEnd(s, h, SkipSpace(s, h))
    else None
  }

  /**
   * A header line: `[name]` at line start `p`, then only white space up to a
   * line end `q`.
   */
  predicate HeaderLine(s: string, name: string, p: nat, q: nat) {
    p + |name| + 2 <= q <= |s| && LineStart(s, p) && At(s, p, "[" + name + "]")
    && SpaceBetween(s, p + |name| + 2, q) && LineEnd(s, q)
  }

  /** A header pattern matches at `p` exactly when a header line starts there. */
  lemma HeaderEndIff(s: string, name: string, p: nat)
    requires p <= |s|
    ensures HeaderEnd(s, name, p).Some? <==> exists q :: HeaderLine(s, name, p, q)
  {
    if exists q :: HeaderLine(s, name, p, q) {
      var q :| HeaderLine(s, name, p, q);
      assert |"[" + name + "]"| == |name| + 2;
    } else if HeaderEnd(s, name, p).Some? {
      assert HeaderLine(s, name, p, HeaderEnd(s, name, p).value);
    }
  }

  /** The first position at or after `from` where a header line for `name` starts. */
  function FindHeader(s: string, name: string, from: nat): (r: Option<nat>)
    requires from <= |s|
    ensures r.Some? ==> from <= r.value <= |s| && HeaderEnd(s, name, r.value).Some?
    ensures r.Some? ==> forall q :: from <= q < r.value ==> HeaderEnd(s, name, q).None?
    ensures r.None? ==> forall q :: from <= q <= |s| ==> HeaderEnd(s, name, q).None?
    decreases |s| - from
  {
    if HeaderEnd(s, name, from).Some? then Some(from)
    else if from == |s| then None
    else FindHeader(s, name, from + 1)
  }

  /** The first position of `t` at or after `from` that begins a line with `[`, or the end of `t`. */
  function NextSection(t: string, from: nat): (k: nat)
    requires from <= |t|
    ensures from <= k <= |t|
    ensures k < |t| ==> LineStart(t, k) && t[k] == '['
    ensures forall j :: from <= j < k ==> !(LineStart(t, j) && t[j] == '[')
    decreases |t| - from
  {
    if from == |t| || (LineStart(t, from) && t[from] == '[') then from else NextSection(t, from + 1)
  }

  /**
   * `content[a..b]` runs up to the first line after `a` that begins with `[`,
   * or to the end of the text.
   */
  predicate SectionSpan(content: string, a: nat, b: nat) {
    a <= b <= |content|
    && (b == |content| || (LineStart(content, b) && content[b] == '['))
    && forall k :: a <= k < b ==> !(LineStart(content, k) && content[k] == '[')
  }

  /**
   * `content[a..b]` is the section of `name`: it starts where the first
   * header match ends and runs to the next line that begins with `[`, or to
   * the end of the text.
   */
  predicate HeaderSection(content: string, name: string, a: nat, b: nat) {
    match FindHeader(content, name, 0)
    case None => false
    case Some(p) => a == HeaderEnd(content, name, p).value && SectionSpan(content, a, b)
  }

  /** The section of a name is unique: its start and its end are both determined. */
  lemma HeaderSectionUnique(content: string, name: string, a: nat, b: nat, a': nat, b': nat)
    requires HeaderSection(content, name, a, b) && HeaderSection(content, name, a', b')
    ensures a == a' && b == b'
  {
  }

  /**
   * The untrimmed section: from the end of the first header match to the
   * first line of the remaining text that begins with `[`, or to the end.
   */
  function SectionBounds(content: string, name: string): (r: Option<(nat, nat)>)
    ensures r.Some? ==> HeaderSection(content, name, r.value.0, r.value.1)
    ensures r.None? <==> forall p :: 0 <= p <= |content| ==> HeaderEnd(content, name, p).None?
  {
    match FindHeader(content, name, 0)
    case None => None
    case Some(p) =>
      var start := HeaderEnd(content, name, p).value;
      var rest := content[start..];
      var k := NextSection(rest, 0);
      RestLines(content, start);
      Some((start, start + k))
  }

  /** Past the header's line end, lines of the remaining text are lines of the whole text. */
  lemma RestLines(content: string, start: nat)
    requires start <= |content| && LineEnd(content, start)
    ensures forall j :: 0 <= j < |content| - start ==>
      (LineStart(content[start..], j) && content[start..][j] == '[' <==> LineStart(content, start + j) && content[start + j] == '[')
  {
  }

  /**
   * `extractTomlSection(content, name)`: `None` when no line is the header
   * `[name]` followed by white space only; otherwise the text between the
   * header and the next line that begins with `[`, trimmed.
   */
  function ExtractTomlSection(content: string, name: string): (r: Option<string>)
    requires PlainName(name)
    ensures r.None? <==> forall p :: 0 <= p <= |content| ==> HeaderEnd(content, name, p).None?
    ensures r.Some? ==> r.value == [] || (!IsSpace(r.value[0]) && !IsSpace(r.value[|r.value| - 1]))
    ensures r.Some? ==> exists a: nat, b: nat :: HeaderSection(content, name, a, b) && r.value == Trim(content[a..b])
  {
    match SectionBounds(content, name)
    case None => None
    case Some((a, b)) =>
      var t := Trim(content[a..b]);
      assert HeaderSection(content, name, a, b) && t == Trim(content[a..b]);
      Some(t)
  }

  // ---------------------------------------------------------------------------
  // README overview
  // ---------------------------------------------------------------------------

  /**
   * The first section of the README: at most its first 100 lines, stopping
   * before the first line after the first one that begins with `##`.
   */
  method ReadmeOverview(lines: seq<string>) returns (firstSection: seq<string>)
    ensures |firstSection| <= 100 && |firstSection| <= |lines|
    ensures firstSection == lines[..|firstSection|]
    ensures forall i :: 0 < i < |firstSection| ==> !StartsWith(lines[i], "##")
    ensures |firstSection| < |lines| && |firstSection| < 100 ==>
              0 < |firstSection| && StartsWith(lines[|firstSection|], "##")
  {
    firstSection := [];
    var n := if |lines| < 100 then |lines| else 100;
    var i := 0;
    while i < n
      invariant 0 <= i <= n
      invariant firstSection == lines[..i]
      invariant forall j :: 0 < j < i ==> !StartsWith(lines[j], "##")
    {
      if i > 0 && StartsWith(lines[i], "##") {
        break;
      }
      firstSection := firstSection + [lines[i]];
      i := i + 1;
    }
  }

  // ---------------------------------------------------------------------------
  // `//!` documentation lines
  // ---------------------------------------------------------------------------

  /** `line.replace(/^\/\/!\s?/, '')` on a line that starts with `//!`. */
  function StripDocPrefix(line: string): (r: string)
    requires StartsWith(line, "//!")
    ensures line == "//!" + r || (|line| > 3 && IsSpace(line[3]) && line == "//!" + [line[3]] + r)
    ensures |line| > 3 && IsSpace(line[3]) ==> |r| == |line| - 4
  {
    if |line| > 3 && IsSpace(line[3]) then line[4..] else line[3..]
  }

  /** `.filter(line => line.startsWith('//!')).map(...)` */
  function DocLines(lines: seq<string>): (docs: seq<string>)
    ensures |docs| <= |lines|
  {
    if lines == [] then []
    else if StartsWith(lines[0], "//!") then [StripDocPrefix(lines[0])] + DocLines(lines[1..])
    else DocLines(lines[1..])
  }

  /** The number of lines that start with `//!`. */
  function CountDocLines(lines: seq<string>): nat {
    if lines == [] then 0
    else (if StartsWith(lines[0], "//!") then 1 else 0) + CountDocLines(lines[1..])
  }

  /**
   * The crate documentation has one line per `//!` line, in order, each
   * with the prefix removed: no other line contributes.
   */
  lemma {:induction false} DocLinesCount(lines: seq<string>)
    ensures |DocLines(lines)| == CountDocLines(lines)
  {
    if lines != [] {
      DocLinesCount(lines[1..]);
    }
  }

  /** Lines without the prefix contribute nothing; appended lines contribute after the others. */
  lemma {:induction false} DocLinesAppend(a: seq<string>, b: seq<string>)
    ensures DocLines(a + b) == DocLines(a) + DocLines(b)
  {
    if a == [] {
      assert a + b == b;
    } else {
      assert (a + b)[0] == a[0] && (a + b)[1..] == a[1..] + b;
      DocLinesAppend(a[1..], b);
    }
  }

  /** A single `//!` line yields its text after the prefix and one optional white-space character. */
  lemma DocLineSingle(line: string)
    ensures StartsWith(line, "//!") ==> DocLines([line]) == [StripDocPrefix(line)]
    ensures !StartsWith(line, "//!") ==> DocLines([line]) == []
  {
    assert [line][1..] == [];
  }

  /** `.filter(...).slice(0, 10).map(...)`: the first ten `//!` lines of a module. */
  function ModuleDocLines(lines: seq<string>): (docs: seq<string>)
    ensures |docs| <= 10 && |docs| <= |DocLines(lines)|
    ensures docs == DocLines(lines)[..|docs|]
    ensures |docs| == if CountDocLines(lines) < 10 then CountDocLines(lines) else 10
  {
    DocLinesCount(lines);
    FirstDocLines(lines, 10)
  }

  /** The first `n` doc lines: filtered, cut to `n`, then stripped. */
  function FirstDocLines(lines: seq<string>, n: nat): (docs: seq<string>)
    ensures docs == DocLines(lines)[..if |DocLines(lines)| < n then |DocLines(lines)| else n]
  {
    if lines == [] || n == 0 then []
    else if StartsWith(lines[0], "//!") then [StripDocPrefix(lines[0])] + FirstDocLines(lines[1..], n - 1)
    else FirstDocLines(lines[1..], n)
  }

  /** The top-level `lib.rs` and `main.rs` are left out of the module list; every other file stays, in order. */
  function ModuleFiles(relPaths: seq<string>): (mods: seq<string>)
    ensures forall m :: m in mods <==> m in relPaths && m != "lib.rs" && m != "main.rs"
    ensures |mods| <= |relPaths|
  {
    if relPaths == [] then []
    else if relPaths[0] == "lib.rs" || relPaths[0] == "main.rs" then ModuleFiles(relPaths[1..])
    else [relPaths[0]] + ModuleFiles(relPaths[1..])
  }

  /**
   * The module list keeps the order of the source paths: the modules of two
   * runs of paths are those of the first run followed by those of the second.
   */
  lemma {:induction false} ModuleFilesAppend(a: seq<string>, b: seq<string>)
    ensures ModuleFiles(a + b) == ModuleFiles(a) + ModuleFiles(b)
  {
    if a == [] {
      assert a + b == b;
    } else {
      assert (a + b)[0] == a[0] && (a + b)[1..] == a[1..] + b;
      ModuleFilesAppend(a[1..], b);
    }
  }
}
