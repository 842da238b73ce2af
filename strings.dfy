/**
 * The Python string built-ins the core relies on, restricted to ASCII:
 * the regex classes `\w` and `\s`, `str.lower`, `str.isalnum`, `str.strip`,
 * `str.split`, `str.join`, `str.count`, `str.find` and `str.rfind`.
 */
module Strings {

  /** `\s` and `str.isspace` on ASCII: space, \t \n \v \f \r and the separators 0x1C-0x1F. */
  predicate IsSpace(c: char) {
    c == ' ' || c == '\t' || c == '\n' || c == '\r' || c == '\U{0B}' || c == '\U{0C}'
    || ('\U{1C}' <= c <= '\U{1F}')
  }

  predicate IsUpper(c: char) { 'A' <= c <= 'Z' }

  predicate IsLowerLetter(c: char) { 'a' <= c <= 'z' }

  predicate IsDigit(c: char) { '0' <= c <= '9' }

  /** `str.isalnum` on one ASCII character. */
  predicate IsAlnum(c: char) { IsUpper(c) || IsLowerLetter(c) || IsDigit(c) }

  /** The regex class `\w` on ASCII. */
  predicate IsWord(c: char) { IsAlnum(c) || c == '_' }

  predicate IsQuote(c: char) { c == '"' || c == '\'' }

  function ToLower(c: char): (r: char)
    ensures !IsUpper(r)
    ensures IsUpper(c) ==> IsLowerLetter(r) && r as int == c as int + 32
    ensures !IsUpper(c) ==> r == c
  {
    if IsUpper(c) then (c as int + 32) as char else c
  }

  /** `str.lower()` on ASCII. */
  function Lower(s: string): (r: string)
    ensures |r| == |s|
    ensures forall i :: 0 <= i < |s| ==> r[i] == ToLower(s[i])
  {
    seq(|s|, i requires 0 <= i < |s| => ToLower(s[i]))
  }

  predicate NoUpper(s: string) {
    forall i :: 0 <= i < |s| ==> !IsUpper(s[i])
  }

  lemma {:induction false} LowerHasNoUpper(s: string)
    ensures NoUpper(Lower(s))
  {
  }

  /** Lower-casing twice is lower-casing once. */
  lemma {:induction false} LowerIdempotent(s: string)
    ensures Lower(Lower(s)) == Lower(s)
  {
    assert forall k :: 0 <= k < |s| ==> Lower(Lower(s))[k] == Lower(s)[k];
  }

  /** `s.replace(a, b)` for single characters. */
  function ReplaceChar(s: string, a: char, b: char): (r: string)
    ensures |r| == |s|
    ensures forall i :: 0 <= i < |s| ==> r[i] == (if s[i] == a then b else s[i])
  {
    seq(|s|, i requires 0 <= i < |s| => if s[i] == a then b else s[i])
  }

  predicate StartsWith(s: string, prefix: string) {
    |prefix| <= |s| && s[..|prefix|] == prefix
  }

  predicate EndsWith(s: string, suffix: string) {
    |suffix| <= |s| && s[|s| - |suffix|..] == suffix
  }

  /** `sub in s`. */
  predicate Contains(s: string, sub: string) {
    exists i :: 0 <= i <= |s| - |sub| && LitAt(s, i, sub)
  }

  /** `s[i:].startswith(lit)`, the building block of the hand-written matchers. */
  predicate LitAt(s: string, i: nat, lit: string) {
    i + |lit| <= |s| && s[i..i + |lit|] == lit
  }

  /** End of the longest run of `\s` characters starting at `i` (what a greedy `\s*` consumes). */
  function SpaceEnd(s: string, i: nat): (j: nat)
    requires i <= |s|
    ensures i <= j <= |s|
    ensures forall k :: i <= k < j ==> IsSpace(s[k])
    ensures j == |s| || !IsSpace(s[j])
    decreases |s| - i
  {
    if i < |s| && IsSpace(s[i]) then SpaceEnd(s, i + 1) else i
  }

  /** End of the longest run of `\w` characters starting at `i` (what a greedy `\w+` consumes). */
  function WordEnd(s: string, i: nat): (j: nat)
    requires i <= |s|
    ensures i <= j <= |s|
    ensures forall k :: i <= k < j ==> IsWord(s[k])
    ensures j == |s| || !IsWord(s[j])
    decreases |s| - i
  {
    if i < |s| && IsWord(s[i]) then WordEnd(s, i + 1) else i
  }

  /** `s[a..b]` is a (possibly empty) run of `\s` characters. */
  predicate Spaces(s: string, a: nat, b: nat)
  {
    a <= b <= |s| && forall k :: a <= k < b ==> IsSpace(s[k])
  }

  /** `s[a..b]` is a non-empty run of `\w` characters. */
  predicate Word(s: string, a: nat, b: nat)
  {
    a < b <= |s| && forall k :: a <= k < b ==> IsWord(s[k])
  }

  /** `s[k]` exists and is `c`. */
  predicate CharIs(s: string, k: nat, c: char)
  {
    k < |s| && s[k] == c
  }

  /** A run of spaces that stops at a non-space is exactly what `SpaceEnd` consumes. */
  lemma {:induction false} SpaceEndIs(s: string, i: nat, j: nat)
    requires Spaces(s, i, j) && (j == |s| || !IsSpace(s[j]))
    ensures SpaceEnd(s, i) == j
    decreases j - i
  {
    if i < j {
      SpaceEndIs(s, i + 1, j);
    }
  }

  /** A run of word characters that stops at a non-word character is exactly what `WordEnd` consumes. */
  lemma {:induction false} WordEndIs(s: string, i: nat, j: nat)
    requires i <= j <= |s| && (forall k :: i <= k < j ==> IsWord(s[k])) && (j == |s| || !IsWord(s[j]))
    ensures WordEnd(s, i) == j
    decreases j - i
  {
    if i < j {
      WordEndIs(s, i + 1, j);
    }
  }

  /** End of the longest run of non-space characters starting at `i`. */
  function FieldEnd(s: string, i: nat): (j: nat)
    requires i <= |s|
    ensures i <= j <= |s|
    ensures forall k :: i <= k < j ==> !IsSpace(s[k])
    ensures j == |s| || IsSpace(s[j])
    decreases |s| - i
  {
    if i < |s| && !IsSpace(s[i]) then FieldEnd(s, i + 1) else i
  }

  /** Start of the trailing run of spaces in `s[lo..j]`. */
  function SpaceStartBack(s: string, lo: nat, j: nat): (k: nat)
    requires lo <= j <= |s|
    ensures lo <= k <= j
    ensures forall m :: k <= m < j ==> IsSpace(s[m])
    ensures k == lo || !IsSpace(s[k - 1])
    decreases j - lo
  {
    if lo < j && IsSpace(s[j - 1]) then SpaceStartBack(s, lo, j - 1) else j
  }

  /** `str.strip()`: the slice left after removing surrounding whitespace. */
  function Strip(s: string): (r: string)
    ensures |r| <= |s|
    ensures r == [] || (!IsSpace(r[0]) && !IsSpace(r[|r| - 1]))
  {
    var a := SpaceEnd(s, 0);
    var b := SpaceStartBack(s, a, |s|);
    assert s[a..b] == [] || (!IsSpace(s[a..b][0]) && !IsSpace(s[a..b][b - a - 1]));
    s[a..b]
  }

  /** What `strip` removes is whitespace only, from both ends. */
  lemma {:induction false} StripRemovesSpaceOnly(s: string)
    ensures exists a, b :: 0 <= a <= b <= |s| && Strip(s) == s[a..b]
                           && (forall k :: 0 <= k < a ==> IsSpace(s[k]))
                           && (forall k :: b <= k < |s| ==> IsSpace(s[k]))
  {
    var a := SpaceEnd(s, 0);
    var b := SpaceStartBack(s, a, |s|);
    assert Strip(s) == s[a..b];
  }

  /** `str.split()` with no argument, from index `i`: the maximal runs of non-space characters. */
  function Fields(s: string, i: nat): (r: seq<string>)
    requires i <= |s|
    ensures forall k :: 0 <= k < |r| ==> r[k] != [] && forall c :: c in r[k] ==> !IsSpace(c)
    decreases |s| - i
  {
    var a := SpaceEnd(s, i);
    if a == |s| then []
    else
      var b := FieldEnd(s, a);
      [s[a..b]] + Fields(s, b)
  }

  /**
   * `s[i..]` consists of the fields `r`, in order, separated by white space: an all-space
   * gap, `r[0]`, a non-empty all-space gap, `r[1]`, …, and a final all-space gap. Each
   * field is a non-empty run without white space.
   */
  ghost predicate FieldsFrom(s: string, i: nat, r: seq<string>)
    decreases |r|
  {
    if r == [] then Spaces(s, i, |s|)
    else exists a: nat, b: nat :: FieldAt(s, i, a, b) && r[0] == s[a..b] && FieldsFrom(s, b, r[1..])
  }

  /** After the all-space gap `s[i..a]`, `s[a..b]` is a maximal non-empty run without white space. */
  predicate FieldAt(s: string, i: nat, a: nat, b: nat)
  {
    i <= a < b <= |s| && Spaces(s, i, a) && (forall k :: a <= k < b ==> !IsSpace(s[k]))
    && (b == |s| || IsSpace(s[b]))
  }

  /** A run without white space that stops at white space or the end is exactly what `FieldEnd` consumes. */
  lemma {:induction false} FieldEndIs(s: string, i: nat, j: nat)
    requires i <= j <= |s| && (forall k :: i <= k < j ==> !IsSpace(s[k])) && (j == |s| || IsSpace(s[j]))
    ensures FieldEnd(s, i) == j
    decreases j - i
  {
    if i < j {
      FieldEndIs(s, i + 1, j);
    }
  }

  /** `str.split()` gives exactly the maximal runs of non-space characters, in order. */
  lemma {:induction false} FieldsExact(s: string, i: nat, r: seq<string>)
    requires i <= |s|
    ensures FieldsFrom(s, i, r) <==> r == Fields(s, i)
  {
    if r == Fields(s, i) {
      FieldsSound(s, i);
    }
    if FieldsFrom(s, i, r) {
      FieldsUnique(s, i, r);
    }
  }

  lemma {:induction false} FieldsSound(s: string, i: nat)
    requires i <= |s|
    ensures FieldsFrom(s, i, Fields(s, i))
    decreases |s| - i
  {
    var a := SpaceEnd(s, i);
    if a < |s| {
      var b := FieldEnd(s, a);
      FieldsSound(s, b);
      assert FieldAt(s, i, a, b);
      assert Fields(s, i) == [s[a..b]] + Fields(s, b);
      assert Fields(s, i)[1..] == Fields(s, b);
    }
  }

  lemma {:induction false} FieldsUnique(s: string, i: nat, r: seq<string>)
    requires i <= |s| && FieldsFrom(s, i, r)
    ensures r == Fields(s, i)
    decreases |r|
  {
    if r == [] {
      SpaceEndIs(s, i, |s|);
    } else {
      var a: nat, b: nat :| FieldAt(s, i, a, b) && r[0] == s[a..b] && FieldsFrom(s, b, r[1..]);
      FieldsStep(s, i, a, b);
      FieldsUnique(s, b, r[1..]);
      assert r == [r[0]] + r[1..];
    }
  }

  /** A gap from `i` to `a` and a run from `a` to `b` make `s[a..b]` the first field. */
  lemma {:induction false} FieldsStep(s: string, i: nat, a: nat, b: nat)
    requires FieldAt(s, i, a, b)
    ensures Fields(s, i) == [s[a..b]] + Fields(s, b)
  {
    SpaceEndIs(s, i, a);
    FieldEndIs(s, a, b);
  }

  /** `str.join`: the parts separated by `sep`. */
  function Join(parts: seq<string>, sep: string): string
  {
    if |parts| == 0 then []
    else if |parts| == 1 then parts[0]
    else parts[0] + sep + Join(parts[1..], sep)
  }

  lemma {:induction false} JoinConcat(a: seq<string>, b: seq<string>, sep: string)
    requires |a| > 0 && |b| > 0
    ensures Join(a + b, sep) == Join(a, sep) + sep + Join(b, sep)
  {
    if |a| == 1 {
      assert (a + b)[1..] == b;
    } else {
      assert (a + b)[1..] == a[1..] + b;
      JoinConcat(a[1..], b, sep);
    }
  }

  /** `s.find(sep, i)`, or `len(s)` when there is none. */
  function NextSep(s: string, sep: char, i: nat): (j: nat)
    requires i <= |s|
    ensures i <= j <= |s|
    ensures j == |s| || s[j] == sep
    decreases |s| - i
  {
    if i == |s| || s[i] == sep then i else NextSep(s, sep, i + 1)
  }

  lemma {:induction false} NextSepSkips(s: string, sep: char, i: nat, k: nat)
    requires i <= |s| && i <= k < NextSep(s, sep, i)
    ensures s[k] != sep
    decreases |s| - i
  {
    if k > i {
      NextSepSkips(s, sep, i + 1, k);
    }
  }

  lemma {:induction false} NextSepIs(s: string, sep: char, i: nat, j: nat)
    requires i <= j <= |s| && (j == |s| || s[j] == sep)
    requires forall k :: i <= k < j ==> s[k] != sep
    ensures NextSep(s, sep, i) == j
    decreases j - i
  {
    if i < j {
      NextSepIs(s, sep, i + 1, j);
    }
  }

  /** `s[i:].split(sep)` for a one-character separator. */
  function SplitFrom(s: string, sep: char, i: nat): (r: seq<string>)
    requires i <= |s|
    ensures |r| >= 1
    decreases |s| - i
  {
    var j := NextSep(s, sep, i);
    if j == |s| then [s[i..]] else [s[i..j]] + SplitFrom(s, sep, j + 1)
  }

  /** `s.split(sep)`: never empty. */
  function Split(s: string, sep: char): (r: seq<string>)
    ensures |r| >= 1
  {
    SplitFrom(s, sep, 0)
  }

  /** No part of a split holds the separator. */
  lemma {:induction false} SplitPartsFree(s: string, sep: char, i: nat, n: nat)
    requires i <= |s| && n < |SplitFrom(s, sep, i)|
    ensures sep !in SplitFrom(s, sep, i)[n]
    decreases |s| - i
  {
    var j := NextSep(s, sep, i);
    if n == 0 {
      forall k | i <= k < j ensures s[k] != sep {
        NextSepSkips(s, sep, i, k);
      }
      assert j == |s| ==> s[i..] == s[i..j];
      assert forall k :: 0 <= k < j - i ==> s[i..j][k] == s[i + k];
    } else {
      SplitPartsFree(s, sep, j + 1, n - 1);
    }
  }

  /** Splitting and joining back with the same separator gives the text back. */
  lemma {:induction false} JoinSplit(s: string, sep: char, i: nat)
    requires i <= |s|
    ensures Join(SplitFrom(s, sep, i), [sep]) == s[i..]
    decreases |s| - i
  {
    var j := NextSep(s, sep, i);
    if j < |s| {
      var rest := SplitFrom(s, sep, j + 1);
      JoinSplit(s, sep, j + 1);
      JoinCons(s[i..j], rest, [sep]);
      SliceAround(s, i, j);
    }
  }

  lemma {:induction false} JoinCons(part: string, rest: seq<string>, sep: string)
    requires |rest| >= 1
    ensures Join([part] + rest, sep) == part + sep + Join(rest, sep)
  {
    assert ([part] + rest)[1..] == rest;
  }

  /** A suffix of `s` is the part before `j`, the element at `j`, and the part after it. */
  lemma {:induction false} SliceAround<T>(s: seq<T>, i: nat, j: nat)
    requires i <= j < |s|
    ensures s[i..] == s[i..j] + [s[j]] + s[j + 1..]
  {
    assert s[i..] == s[i..j] + s[j..];
    assert s[j..] == [s[j]] + s[j + 1..];
  }

  /** The text before line `i` of `lines`, the newline that ends it included. */
  function LinesBefore(lines: seq<string>, i: nat): string
    requires i < |lines|
  {
    if i == 0 then [] else Join(lines[..i], "\n") + "\n"
  }

  /** The text after line `i` of `lines`, the newline that starts it included. */
  function LinesAfter(lines: seq<string>, i: nat): string
    requires i < |lines|
  {
    if i == |lines| - 1 then [] else "\n" + Join(lines[i + 1..], "\n")
  }

  /** Joined lines are the lines before `i`, line `i`, and the lines after it. */
  lemma {:induction false} JoinAround(lines: seq<string>, i: nat)
    requires i < |lines|
    ensures Join(lines, "\n") == LinesBefore(lines, i) + lines[i] + LinesAfter(lines, i)
  {
    if i > 0 {
      assert lines == lines[..i] + lines[i..];
      JoinConcat(lines[..i], lines[i..], "\n");
    }
    if i < |lines| - 1 {
      assert lines[i..] == [lines[i]] + lines[i + 1..];
      JoinConcat([lines[i]], lines[i + 1..], "\n");
    }
  }

  /** Number of `c` in `s[..pos]`, i.e. `s[:pos].count(c)`. */
  function CountBefore(s: string, pos: nat, c: char): (n: nat)
    requires pos <= |s|
    ensures n <= pos
  {
    if pos == 0 then 0 else CountBefore(s, pos - 1, c) + (if s[pos - 1] == c then 1 else 0)
  }

  /** `s.rfind("\n", 0, pos) + 1`: where the line holding `pos` starts. */
  function LineStart(s: string, pos: nat): (a: nat)
    requires pos <= |s|
    ensures a <= pos
    ensures a == 0 || s[a - 1] == '\n'
  {
    if pos == 0 then 0 else if s[pos - 1] == '\n' then pos else LineStart(s, pos - 1)
  }

  /** `s.find("\n", pos)`, or `len(s)` when there is none: where the line holding `pos` ends. */
  function LineEnd(s: string, pos: nat): (b: nat)
    requires pos <= |s|
    ensures pos <= b <= |s|
    ensures b == |s| || s[b] == '\n'
  {
    NextSep(s, '\n', pos)
  }

  lemma {:induction false} CountFlat(s: string, from: nat, pos: nat)
    requires from <= pos <= |s|
    requires forall k :: from <= k < pos ==> s[k] != '\n'
    ensures CountBefore(s, pos, '\n') == CountBefore(s, from, '\n')
    ensures from == 0 || s[from - 1] == '\n' ==> LineStart(s, pos) == from
    decreases pos - from
  {
    if from < pos {
      CountFlat(s, from, pos - 1);
    }
  }

  /**
   * The line numbers the parser reports agree with `split("\n")`: position `pos` lies on
   * line number `s[:pos].count("\n")` (counting from 0), which is the text between the
   * newline before `pos` and the newline after it.
   */
  lemma {:induction false} LineAt(s: string, from: nat, pos: nat)
    requires from <= pos <= |s| && (from == 0 || s[from - 1] == '\n')
    ensures CountBefore(s, from, '\n') <= CountBefore(s, pos, '\n')
    ensures CountBefore(s, pos, '\n') - CountBefore(s, from, '\n') < |SplitFrom(s, '\n', from)|
    ensures SplitFrom(s, '\n', from)[CountBefore(s, pos, '\n') - CountBefore(s, from, '\n')]
            == s[LineStart(s, pos)..LineEnd(s, pos)]
    decreases |s| - from, 1
  {
    if pos <= NextSep(s, '\n', from) {
      LineAtFirst(s, from, pos);
    } else {
      LineAtLater(s, from, pos);
    }
  }

  lemma {:induction false} LineAtLater(s: string, from: nat, pos: nat)
    requires from <= pos <= |s| && (from == 0 || s[from - 1] == '\n')
    requires pos > NextSep(s, '\n', from)
    ensures CountBefore(s, from, '\n') < CountBefore(s, pos, '\n')
    ensures CountBefore(s, pos, '\n') - CountBefore(s, from, '\n') < |SplitFrom(s, '\n', from)|
    ensures SplitFrom(s, '\n', from)[CountBefore(s, pos, '\n') - CountBefore(s, from, '\n')]
            == s[LineStart(s, pos)..LineEnd(s, pos)]
    decreases |s| - from, 0
  {
    var j := NextSep(s, '\n', from);
    LineAtNext(s, from);
    LineAt(s, j + 1, pos);
    var n := CountBefore(s, pos, '\n') - CountBefore(s, j + 1, '\n');
    assert SplitFrom(s, '\n', from)[n + 1] == SplitFrom(s, '\n', j + 1)[n];
  }

  /** Past the first newline, the split continues with one line fewer and one newline more. */
  lemma {:induction false} LineAtNext(s: string, from: nat)
    requires from <= |s| && NextSep(s, '\n', from) < |s|
    ensures CountBefore(s, NextSep(s, '\n', from) + 1, '\n') == CountBefore(s, from, '\n') + 1
    ensures SplitFrom(s, '\n', from)
            == [s[from..NextSep(s, '\n', from)]] + SplitFrom(s, '\n', NextSep(s, '\n', from) + 1)
  {
    var j := NextSep(s, '\n', from);
    forall k | from <= k < j ensures s[k] != '\n' {
      NextSepSkips(s, '\n', from, k);
    }
    CountFlat(s, from, j);
  }

  lemma {:induction false} LineAtFirst(s: string, from: nat, pos: nat)
    requires from <= pos <= |s| && (from == 0 || s[from - 1] == '\n')
    requires pos <= NextSep(s, '\n', from)
    ensures CountBefore(s, pos, '\n') == CountBefore(s, from, '\n')
    ensures SplitFrom(s, '\n', from)[0] == s[LineStart(s, pos)..LineEnd(s, pos)]
  {
    var j := NextSep(s, '\n', from);
    forall k | from <= k < j ensures s[k] != '\n' {
      NextSepSkips(s, '\n', from, k);
    }
    CountFlat(s, from, pos);
    NextSepIs(s, '\n', pos, j);
    assert j == |s| ==> s[from..] == s[from..j];
  }

  /** A line reaches past any stretch that holds no newline. */
  lemma {:induction false} LineEndBeyond(s: string, pos: nat, x: nat)
    requires pos <= x <= |s|
    requires forall k :: pos <= k < x ==> s[k] != '\n'
    ensures LineEnd(s, pos) >= x
    decreases x - pos
  {
    if pos < x {
      LineEndBeyond(s, pos + 1, x);
    }
  }

  /** Decimal digits of `n`, as `str(n)` writes them. */
  function NatToString(n: nat): (r: string)
    ensures |r| >= 1
    ensures forall k :: 0 <= k < |r| ==> IsDigit(r[k])
  {
    if n < 10 then [('0' as int + n) as char]
    else NatToString(n / 10) + [('0' as int + n % 10) as char]
  }
}
