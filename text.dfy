/**
 * The handful of Python `str` operations the backends use, over `seq<char>`:
 * `split` on a one-character separator, `startswith`/`removeprefix`,
 * `lower` (ASCII letters only), `splitlines`, `"\n".join` and `str()` of a
 * non-negative integer.
 */
module Text {

  /** Index of the first occurrence of `c` in `s`. */
  function IndexOf(s: string, c: char): (i: nat)
    requires c in s
    ensures i < |s| && s[i] == c
    ensures c !in s[..i]
  {
    if s[0] == c then 0
    else
      var j := IndexOf(s[1..], c);
      assert s[..j + 1] == [s[0]] + s[1..][..j];
      j + 1
  }

  /** Python `s.split(sep)` for a one-character separator. */
  function Split(s: string, sep: char): (parts: seq<string>)
    ensures |parts| >= 1
    ensures sep in s <==> |parts| >= 2
    ensures parts[0] == if sep in s then s[..IndexOf(s, sep)] else s
    ensures sep in s ==> parts[1..] == Split(s[IndexOf(s, sep) + 1..], sep)
    ensures forall k :: 0 <= k < |parts| ==> sep !in parts[k]
    decreases |s|
  {
    if sep !in s then [s]
    else
      var i := IndexOf(s, sep);
      [s[..i]] + Split(s[i + 1..], sep)
  }

  /** The second part of a split is the separator-free stretch right after
      the first separator, up to the next separator or the end. */
  lemma SplitSecond(s: string, sep: char)
    requires sep in s
    ensures var i, p := IndexOf(s, sep), Split(s, sep)[1];
      i + 1 + |p| <= |s| && p == s[i + 1..i + 1 + |p|] && (i + 1 + |p| == |s| || s[i + 1 + |p|] == sep)
  {
    var i := IndexOf(s, sep);
    var rest := s[i + 1..];
    var p := Split(s, sep)[1];
    assert p == Split(rest, sep)[0];
    if sep in rest {
      var j := IndexOf(rest, sep);
      assert s[i + 1 + j] == rest[j];
    }
  }

  /** Python `s.startswith(p)`: `s` is `p` followed by the rest of `s`. */
  predicate StartsWith(s: string, p: string)
    ensures StartsWith(s, p) <==> |p| <= |s| && p + s[|p|..] == s
  {
    |p| <= |s| && s[..|p|] == p
  }

  /** A text starts with every prefix it is built from. */
  lemma StartsWithAppend(p: string, t: string)
    ensures StartsWith(p + t, p)
  {
  }

  /** Python `s.removeprefix(p)`: drops `p` once when `s` starts with it. */
  function RemovePrefix(s: string, p: string): (r: string)
    ensures StartsWith(s, p) ==> p + r == s
    ensures !StartsWith(s, p) ==> r == s
  {
    if StartsWith(s, p) then s[|p|..] else s
  }

  /** `c.lower()` for an ASCII character; other characters are kept. */
  function LowerChar(c: char): (r: char)
    ensures 'A' <= c <= 'Z' ==> 'a' <= r <= 'z' && r as int - c as int == 32
    ensures !('A' <= c <= 'Z') ==> r == c
  {
    if 'A' <= c <= 'Z' then (c as int + 32) as char else c
  }

  /** `s.lower()`, with case mapping restricted to ASCII letters. */
  function Lower(s: string): (r: string)
    ensures |r| == |s|
    ensures forall i :: 0 <= i < |s| ==> r[i] == LowerChar(s[i])
  {
    seq(|s|, i requires 0 <= i < |s| => LowerChar(s[i]))
  }

  /** No upper-case ASCII letter in `s`. */
  predicate IsLowerCase(s: string) {
    forall i :: 0 <= i < |s| ==> !('A' <= s[i] <= 'Z')
  }

  /** Lower-casing is idempotent and its result contains no upper-case letter. */
  lemma LowerIdempotent(s: string)
    ensures IsLowerCase(Lower(s))
    ensures Lower(Lower(s)) == Lower(s)
  {
  }

  /** The characters Python's `str.splitlines` treats as line boundaries. */
  predicate IsLineBreak(c: char) {
    var n := c as int;
    n == 0x0A || n == 0x0D || n == 0x0B || n == 0x0C || n == 0x1C || n == 0x1D ||
    n == 0x1E || n == 0x85 || n == 0x2028 || n == 0x2029
  }

  /** Index of the first line boundary in `s`, or `|s|` when there is none. */
  function LineEnd(s: string): (i: nat)
    ensures i <= |s|
    ensures i < |s| ==> IsLineBreak(s[i])
    ensures forall k :: 0 <= k < i ==> !IsLineBreak(s[k])
  {
    if s == [] || IsLineBreak(s[0]) then 0 else 1 + LineEnd(s[1..])
  }

  /** Python `s.splitlines()`: boundaries are dropped, `"\r\n"` counts as one,
      and a boundary at the very end does not start an empty last line. */
  function SplitLines(s: string): (lines: seq<string>)
    ensures s == [] <==> lines == []
    ensures forall k :: 0 <= k < |lines| ==> forall j :: 0 <= j < |lines[k]| ==> !IsLineBreak(lines[k][j])
    decreases |s|
  {
    if s == [] then []
    else
      var i := LineEnd(s);
      if i == |s| then [s]
      else
        var width := if s[i] == '\r' && i + 1 < |s| && s[i + 1] == '\n' then 2 else 1;
        [s[..i]] + SplitLines(s[i + width..])
  }

  /** No line boundary anywhere in `s`. */
  predicate NoLineBreak(s: string) {
    forall j :: 0 <= j < |s| ==> !IsLineBreak(s[j])
  }

  /** Python `sep.join(parts)`. */
  function Join(parts: seq<string>, sep: string): (r: string)
    ensures parts == [] ==> r == []
    ensures |parts| == 1 ==> r == parts[0]
    ensures |parts| > 1 ==> StartsWith(r, parts[0] + sep)
  {
    if parts == [] then []
    else if |parts| == 1 then parts[0]
    else parts[0] + sep + Join(parts[1..], sep)
  }

  lemma {:induction false} JoinAppend(parts: seq<string>, last: string, sep: string)
    requires parts != []
    ensures Join(parts + [last], sep) == Join(parts, sep) + sep + last
    decreases |parts|
  {
    if |parts| > 1 {
      assert (parts + [last])[1..] == parts[1..] + [last];
      JoinAppend(parts[1..], last, sep);
    }
  }

  /** The first boundary of `head + rest` is the one that starts `rest`. */
  lemma {:induction false} LineEndAfter(head: string, rest: string)
    requires NoLineBreak(head)
    requires rest != [] && IsLineBreak(rest[0])
    ensures LineEnd(head + rest) == |head|
    decreases |head|
  {
    if head != [] {
      assert (head + rest)[1..] == head[1..] + rest;
      LineEndAfter(head[1..], rest);
    }
  }

  /** `b` is one whole line boundary in front of `rest`: `"\r\n"`, or a
      single boundary character, except a `"\r"` that `rest` continues
      into a `"\r\n"`. */
  predicate BoundaryBefore(b: string, rest: string) {
    b == "\r\n" || (|b| == 1 && IsLineBreak(b[0]) && !(b[0] == '\r' && rest != [] && rest[0] == '\n'))
  }

  /** Splitting a first line off at any boundary. */
  lemma SplitLinesFirst(head: string, b: string, rest: string)
    requires NoLineBreak(head)
    requires BoundaryBefore(b, rest)
    ensures SplitLines(head + b + rest) == [head] + SplitLines(rest)
  {
    var s := head + b + rest;
    assert s == head + (b + rest);
    LineEndAfter(head, b + rest);
    assert s[..|head|] == head;
    assert s[|head| + |b|..] == rest;
  }

  /** Dropping a prefix of `s` from `s + b`. */
  lemma DropAppend(s: string, b: string, k: nat)
    requires k <= |s|
    ensures (s + b)[k..] == s[k..] + b
  {
  }

  /** Appending to a text leaves its first boundary where it was. */
  lemma LineEndAppend(s: string, b: string)
    requires LineEnd(s) < |s|
    ensures LineEnd(s + b) == LineEnd(s)
  {
    var i := LineEnd(s);
    assert s[..i] + (s[i..] + b) == s + b;
    LineEndAfter(s[..i], s[i..] + b);
  }

  /** `splitlines` of a text with a boundary at `i`, `width` characters
      long: the text before it, then the lines of the remainder. */
  lemma SplitLinesAt(s: string, i: nat, width: nat)
    requires i == LineEnd(s) < |s|
    requires width == if s[i] == '\r' && i + 1 < |s| && s[i + 1] == '\n' then 2 else 1
    ensures SplitLines(s) == [s[..i]] + SplitLines(s[i + width..])
  {
  }

  /** A text whose first boundary is not its last character splits into the
      same first line and the same remainder when anything is appended. */
  lemma FirstLineKept(s: string, b: string) returns (rest: string)
    requires LineEnd(s) + 1 < |s| && !IsLineBreak(s[|s| - 1])
    ensures rest != [] && |rest| < |s| && !IsLineBreak(rest[|rest| - 1])
    ensures SplitLines(s) == [s[..LineEnd(s)]] + SplitLines(rest)
    ensures SplitLines(s + b) == [s[..LineEnd(s)]] + SplitLines(rest + b)
  {
    var i, t := LineEnd(s), s + b;
    LineEndAppend(s, b);
    var width := if s[i] == '\r' && s[i + 1] == '\n' then 2 else 1;
    assert t[i] == s[i] && t[i + 1] == s[i + 1];
    // the boundary ends before the last character, which is no boundary
    assert IsLineBreak(s[i + width - 1]);
    assert i + width < |s|;
    rest := s[i + width..];
    assert rest[|rest| - 1] == s[|s| - 1];
    SplitLinesAt(s, i, width);
    SplitLinesAt(t, i, width);
    assert t[..i] == s[..i];
    DropAppend(s, b, i + width);
  }

  /** A boundary at the very end of a text does not start an empty last
      line: a model answer ending in a newline splits like one without it. */
  lemma {:induction false} SplitLinesDropsFinalBoundary(s: string, b: string)
    requires s != [] && !IsLineBreak(s[|s| - 1])
    requires BoundaryBefore(b, [])
    ensures SplitLines(s + b) == SplitLines(s)
    decreases |s|
  {
    if LineEnd(s) == |s| {
      SplitLinesFirst(s, b, []);
      assert s + b + [] == s + b;
    } else {
      var rest := FirstLineKept(s, b);
      SplitLinesDropsFinalBoundary(rest, b);
    }
  }

  /** `"\n".join` undoes `splitlines` for lines without boundaries whose
      last line is not empty. */
  lemma {:induction false} SplitLinesJoin(lines: seq<string>)
    requires forall k :: 0 <= k < |lines| ==> NoLineBreak(lines[k])
    requires lines != [] ==> lines[|lines| - 1] != ""
    ensures SplitLines(Join(lines, "\n")) == lines
    decreases |lines|
  {
    if |lines| == 1 {
      assert LineEnd(lines[0]) == |lines[0]|;
    } else if |lines| > 1 {
      SplitLinesJoin(lines[1..]);
      SplitLinesFirst(lines[0], "\n", Join(lines[1..], "\n"));
    }
  }

  /** The decimal digit for `d`. */
  function DigitChar(d: nat): (c: char)
    requires d < 10
    ensures '0' <= c <= '9' && c as int - '0' as int == d
  {
    ('0' as int + d) as char
  }

  /** Python `str(n)` for a non-negative integer: no leading zeros. */
  function Decimal(n: nat): (r: string)
    ensures |r| >= 1
    ensures |r| == 1 <==> n < 10
    ensures forall k :: 0 <= k < |r| ==> '0' <= r[k] <= '9'
    ensures r[|r| - 1] == DigitChar(n % 10)
    decreases n
  {
    if n < 10 then [DigitChar(n)] else Decimal(n / 10) + [DigitChar(n % 10)]
  }

  /** Distinct numbers print differently. */
  lemma {:induction false} DecimalInjective(m: nat, n: nat)
    requires Decimal(m) == Decimal(n)
    ensures m == n
    decreases m
  {
    var a, b := Decimal(m), Decimal(n);
    assert m % 10 == n % 10 by {
      assert DigitChar(m % 10) == a[|a| - 1] == b[|b| - 1] == DigitChar(n % 10);
    }
    if m < 10 || n < 10 {
      // both are one digit long, as only numbers below 10 print one digit
    } else {
      assert a[..|a| - 1] == Decimal(m / 10);
      assert b[..|b| - 1] == Decimal(n / 10);
      DecimalInjective(m / 10, n / 10);
    }
  }
}
