/**
 * The few pieces of JavaScript string semantics the scripts rely on:
 * the `\s` character class (which is also the set `String.prototype.trim`
 * removes), the line terminators that `^`/`$` respect under the `m` flag and
 * that `.` refuses, `trim`, `split`/`join` on one separator character,
 * `substring(0, n)` and `startsWith`/`includes`.
 */
module JsText {

  /** JavaScript's `\s`: white space plus line terminators. */
  predicate IsSpace(c: char) {
    || c == ' ' || c == '\t' || c == '\n' || c == '\r'
    || c == '\U{0B}' || c == '\U{0C}' || c == '\U{A0}' || c == '\U{1680}'
    || ('\U{2000}' <= c <= '\U{200A}')
    || c == '\U{2028}' || c == '\U{2029}' || c == '\U{202F}' || c == '\U{205F}'
    || c == '\U{3000}' || c == '\U{FEFF}'
  }

  /** The characters after which `^` matches under the `m` flag and which `.` never matches. */
  predicate IsLineTerminator(c: char) {
    c == '\n' || c == '\r' || c == '\U{2028}' || c == '\U{2029}'
  }

  /** ASCII word character, JavaScript's `\w`. */
  predicate IsWordChar(c: char) {
    ('a' <= c <= 'z') || ('A' <= c <= 'Z') || ('0' <= c <= '9') || c == '_'
  }

  predicate AllSpace(s: string) {
    forall i :: 0 <= i < |s| ==> IsSpace(s[i])
  }

  /** `s` holds no line terminator: all of it can match `.`. */
  predicate OneLine(s: string) {
    forall i :: 0 <= i < |s| ==> !IsLineTerminator(s[i])
  }

  /** Position `p` is where `^` matches under the `m` flag. */
  predicate LineStart(s: string, p: nat) {
    p <= |s| && (p == 0 || IsLineTerminator(s[p - 1]))
  }

  /** `$` under the `m` flag: the end of the text or just before a line terminator. */
  predicate LineEnd(s: string, q: nat) {
    q == |s| || (q < |s| && IsLineTerminator(s[q]))
  }

  /** The literal `lit` occurs in `s` at position `p`. */
  predicate At(s: string, p: nat, lit: string) {
    p + |lit| <= |s| && s[p..p + |lit|] == lit
  }

  predicate StartsWith(s: string, prefix: string) {
    At(s, 0, prefix)
  }

  predicate EndsWith(s: string, suffix: string) {
    |suffix| <= |s| && s[|s| - |suffix|..] == suffix
  }

  /** `s.includes(t)` */
  predicate Contains(s: string, t: string) {
    exists p :: 0 <= p <= |s| && At(s, p, t)
  }

  /** Every character of `s[i..j]` is `\s`. */
  predicate SpaceBetween(s: string, i: nat, j: nat)
    requires i <= j <= |s|
  {
    forall k :: i <= k < j ==> IsSpace(s[k])
  }

  /** The end of the run of `\s` characters that starts at `from`. */
  function SkipSpace(s: string, from: nat): (k: nat)
    requires from <= |s|
    ensures from <= k <= |s|
    ensures SpaceBetween(s, from, k)
    ensures k < |s| ==> !IsSpace(s[k])
    decreases |s| - from
  {
    if from < |s| && IsSpace(s[from]) then SkipSpace(s, from + 1) else from
  }

  /** The start of the run of `\s` characters that ends at `to`. */
  function SkipSpaceBack(s: string, to: nat): (k: nat)
    requires to <= |s|
    ensures k <= to
    ensures SpaceBetween(s, k, to)
    ensures 0 < k ==> !IsSpace(s[k - 1])
  {
    if 0 < to && IsSpace(s[to - 1]) then SkipSpaceBack(s, to - 1) else to
  }

  /** `s.trimStart()` */
  function TrimStart(s: string): (r: string)
    ensures r == s[SkipSpace(s, 0)..]
  {
    s[SkipSpace(s, 0)..]
  }

  /** `s.trimEnd()` */
  function TrimEnd(s: string): (r: string)
    ensures r == s[..SkipSpaceBack(s, |s|)]
  {
    s[..SkipSpaceBack(s, |s|)]
  }

  /** `s.trim()`: the longest leading and trailing runs of `\s` removed. */
  function Trim(s: string): (r: string)
    ensures |r| <= |s|
    ensures r == [] || (!IsSpace(r[0]) && !IsSpace(r[|r| - 1]))
    ensures r == [] <==> AllSpace(s)
  {
    TrimEnd(TrimStart(s))
  }

  /** The end of the run of `\s` characters that starts at `from` is `to`. */
  lemma SkipSpaceAt(s: string, from: nat, to: nat)
    requires from <= to <= |s| && SpaceBetween(s, from, to) && (to < |s| ==> !IsSpace(s[to]))
    ensures SkipSpace(s, from) == to
  {
  }

  /** Skipping white space from anywhere inside a run ends where the run ends. */
  lemma SkipSpaceInside(s: string, from: nat, mid: nat)
    requires from <= mid <= |s| && SpaceBetween(s, from, mid)
    ensures SkipSpace(s, from) == SkipSpace(s, mid)
  {
    SkipSpaceAt(s, from, SkipSpace(s, mid));
  }

  /** Trimming a suffix of `s` starts where the white space after its start ends. */
  lemma TrimSuffix(s: string, from: nat)
    requires from <= |s|
    ensures Trim(s[from..]) == TrimEnd(s[SkipSpace(s, from)..])
  {
    var t := s[from..];
    var k := SkipSpace(s, from);
    assert forall j :: 0 <= j < |t| ==> t[j] == s[from + j];
    SkipSpaceAt(t, 0, k - from);
    assert t[k - from..] == s[k..];
  }

  /**
   * White space at the start does not change what `trim()` returns: the
   * suffixes from `from` and from `mid` trim alike when `s[from..mid]` is
   * white space.
   */
  lemma TrimSpacePrefix(s: string, from: nat, mid: nat)
    requires from <= mid <= |s| && SpaceBetween(s, from, mid)
    ensures Trim(s[from..]) == Trim(s[mid..])
  {
    SkipSpaceInside(s, from, mid);
    TrimSuffix(s, from);
    TrimSuffix(s, mid);
  }

  /** The end of the run of characters other than `stop` that starts at `from`. */
  function RunEnd(s: string, from: nat, stop: char): (k: nat)
    requires from <= |s|
    ensures from <= k <= |s|
    ensures forall j :: from <= j < k ==> s[j] != stop
    ensures k < |s| ==> s[k] == stop
    decreases |s| - from
  {
    if from < |s| && s[from] != stop then RunEnd(s, from + 1, stop) else from
  }

  /** The run of characters other than `stop` from `from` ends at the `stop` at `k`. */
  lemma RunEndAt(s: string, from: nat, k: nat, stop: char)
    requires from <= k < |s| && s[k] == stop && forall j :: from <= j < k ==> s[j] != stop
    ensures RunEnd(s, from, stop) == k
  {
  }

  /** `s.substring(0, n)` */
  function Prefix(s: string, n: nat): (r: string)
    ensures |r| == if |s| <= n then |s| else n
    ensures StartsWith(s, r)
  {
    if |s| <= n then s else s[..n]
  }

  /** A prefix of a single line is a single line. */
  lemma PrefixOneLine(s: string, n: nat)
    requires OneLine(s)
    ensures OneLine(Prefix(s, n))
  {
    assert forall i :: 0 <= i < |Prefix(s, n)| ==> Prefix(s, n)[i] == s[i];
  }

  /** `s.split(sep)` for a one-character separator: never empty, no part holds `sep`. */
  function Split(s: string, sep: char): (parts: seq<string>)
    ensures |parts| >= 1
    ensures forall i :: 0 <= i < |parts| ==> sep !in parts[i]
  {
    if s == [] then [""]
    else
      var rest := Split(s[1..], sep);
      if s[0] == sep then [""] + rest else [[s[0]] + rest[0]] + rest[1..]
  }

  /** Splitting a text that starts with `c`: a separator opens a new part, any other character joins the first. */
  lemma SplitCons(c: char, t: string, sep: char)
    ensures Split([c] + t, sep) ==
      if c == sep then [""] + Split(t, sep) else [[c] + Split(t, sep)[0]] + Split(t, sep)[1..]
  {
    assert ([c] + t)[1..] == t;
  }

  /** `parts.join(sep)` */
  function Join(parts: seq<string>, sep: char): string {
    if |parts| == 0 then ""
    else if |parts| == 1 then parts[0]
    else parts[0] + [sep] + Join(parts[1..], sep)
  }

  /** Splitting and joining again on the same character gives the text back. */
  lemma {:induction false} JoinSplit(s: string, sep: char)
    ensures Join(Split(s, sep), sep) == s
  {
    if s != [] {
      JoinSplit(s[1..], sep);
      var rest := Split(s[1..], sep);
      if s[0] != sep {
        if |rest| > 1 {
          assert Join(rest, sep) == rest[0] + [sep] + Join(rest[1..], sep);
          assert [s[0]] + rest[0] + [sep] + Join(rest[1..], sep) == [s[0]] + Join(rest, sep);
        }
      }
    }
  }

  /** The number of parts is one more than the number of separators. */
  lemma {:induction false} SplitCount(s: string, sep: char)
    ensures |Split(s, sep)| == multiset(s)[sep] + 1
  {
    if s != [] {
      SplitCount(s[1..], sep);
      assert s == [s[0]] + s[1..];
      assert multiset(s) == multiset{s[0]} + multiset(s[1..]);
    }
  }

  /** Joining lines that hold no separator and splitting again gives the lines back. */
  lemma {:induction false} SplitJoin(parts: seq<string>, sep: char)
    requires |parts| >= 1
    requires forall i :: 0 <= i < |parts| ==> sep !in parts[i]
    ensures Split(Join(parts, sep), sep) == parts
  {
    if |parts| == 1 {
      SplitNoSep(parts[0], sep);
    } else {
      SplitJoin(parts[1..], sep);
      SplitAppend(parts[0], Join(parts[1..], sep), sep);
      assert [parts[0]] + parts[1..] == parts;
    }
  }

  lemma {:induction false} SplitNoSep(s: string, sep: char)
    requires sep !in s
    ensures Split(s, sep) == [s]
  {
    if s != [] {
      SplitNoSep(s[1..], sep);
      assert [s[0]] + s[1..] == s;
    }
  }

  lemma {:induction false} SplitAppend(a: string, b: string, sep: char)
    requires sep !in a
    ensures Split(a + [sep] + b, sep) == [a] + Split(b, sep)
  {
    if a == [] {
      assert a + [sep] + b == [sep] + b;
      assert ([sep] + b)[1..] == b;
    } else {
      assert (a + [sep] + b)[1..] == a[1..] + [sep] + b;
      SplitAppend(a[1..], b, sep);
      assert [a[0]] + a[1..] == a;
    }
  }
}
