/**
 * The text operations the log server borrows from Go's standard library:
 * `unicode.IsSpace`, `strings.TrimSpace`, and the line tokens produced by a
 * `bufio.Scanner` with its default split function `bufio.ScanLines`.
 * Also `Join`, the one-line-per-append layout that successive appends build.
 */
module Text {

  /** Go's `unicode.IsSpace`: the Latin-1 spaces and the Unicode White_Space property. */
  predicate IsSpace(c: char) {
    || c == ' ' || c == '\t' || c == '\n' || c == '\U{000B}' || c == '\U{000C}' || c == '\r'
    || c == '\U{0085}' || c == '\U{00A0}' || c == '\U{1680}'
    || ('\U{2000}' <= c <= '\U{200A}')
    || c == '\U{2028}' || c == '\U{2029}' || c == '\U{202F}' || c == '\U{205F}' || c == '\U{3000}'
  }

  predicate AllSpace(s: string) {
    forall k :: 0 <= k < |s| ==> IsSpace(s[k])
  }

  /** Drops the leading white space: what remains starts with a non-space. */
  function TrimLeft(s: string): (r: string)
    ensures |r| <= |s|
    ensures r == [] || !IsSpace(r[0])
  {
    if s != [] && IsSpace(s[0]) then TrimLeft(s[1..]) else s
  }

  /** What `TrimLeft` keeps is a suffix of `s`. */
  lemma {:induction false} TrimLeftIsSuffix(s: string)
    ensures TrimLeft(s) == s[|s| - |TrimLeft(s)|..]
  {
    if s != [] && IsSpace(s[0]) {
      TrimLeftIsSuffix(s[1..]);
      assert s[1..][|s| - 1 - |TrimLeft(s)|..] == s[|s| - |TrimLeft(s)|..];
    }
  }

  /** What `TrimLeft` drops is white space. */
  lemma {:induction false} TrimLeftDropsSpace(s: string)
    ensures AllSpace(s[..|s| - |TrimLeft(s)|])
  {
    if s != [] && IsSpace(s[0]) {
      TrimLeftDropsSpace(s[1..]);
      var n := |s| - |TrimLeft(s)|;
      forall k | 0 <= k < n
        ensures IsSpace(s[k])
      {
        if k > 0 {
          assert s[k] == s[1..][..n - 1][k - 1];
        }
      }
    }
  }

  /** Drops the trailing white space: what remains ends with a non-space. */
  function TrimRight(s: string): (r: string)
    ensures |r| <= |s|
    ensures r == [] || !IsSpace(r[|r| - 1])
  {
    if s != [] && IsSpace(s[|s| - 1]) then TrimRight(s[..|s| - 1]) else s
  }

  /** What `TrimRight` keeps is a prefix of `s`. */
  lemma {:induction false} TrimRightIsPrefix(s: string)
    ensures TrimRight(s) == s[..|TrimRight(s)|]
  {
    if s != [] && IsSpace(s[|s| - 1]) {
      TrimRightIsPrefix(s[..|s| - 1]);
      assert s[..|s| - 1][..|TrimRight(s)|] == s[..|TrimRight(s)|];
    }
  }

  /** What `TrimRight` drops is white space. */
  lemma {:induction false} TrimRightDropsSpace(s: string)
    ensures AllSpace(s[|TrimRight(s)|..])
  {
    if s != [] && IsSpace(s[|s| - 1]) {
      var p := s[..|s| - 1];
      TrimRightDropsSpace(p);
      var m := |TrimRight(s)|;
      forall k | m <= k < |s|
        ensures IsSpace(s[k])
      {
        if k < |s| - 1 {
          assert s[k] == p[m..][k - m];
        }
      }
    }
  }

  /** Number of white-space characters `TrimSpace` removes from the front. */
  function LeadingSpace(s: string): nat {
    |s| - |TrimLeft(s)|
  }

  /**
   * Go's `strings.TrimSpace`: `s` without its leading and trailing white
   * space. The result neither starts nor ends with white space.
   */
  function TrimSpace(s: string): (r: string)
    ensures |r| <= |s|
    ensures r == [] || (!IsSpace(r[0]) && !IsSpace(r[|r| - 1]))
  {
    TrimRightIsPrefix(TrimLeft(s));
    TrimRight(TrimLeft(s))
  }

  /** What `TrimSpace` keeps is the infix of `s` that starts after its leading white space. */
  lemma TrimSpaceKeepsInfix(s: string)
    ensures var r, n := TrimSpace(s), LeadingSpace(s);
            n + |r| <= |s| && r == s[n..n + |r|]
  {
    TrimLeftIsSuffix(s);
    TrimRightIsPrefix(TrimLeft(s));
    SliceOfSuffix(s, LeadingSpace(s), TrimLeft(s), |TrimSpace(s)|);
  }

  /** Everything `TrimSpace` removes, before and after what it keeps, is white space. */
  lemma TrimSpaceRemovesOnlySpace(s: string)
    ensures var r, n := TrimSpace(s), LeadingSpace(s);
            n + |r| <= |s| && AllSpace(s[..n]) && AllSpace(s[n + |r|..])
  {
    TrimLeftIsSuffix(s);
    TrimLeftDropsSpace(s);
    TrimRightDropsSpace(TrimLeft(s));
    SpaceAfterSuffix(s, LeadingSpace(s), TrimLeft(s), |TrimSpace(s)|);
  }

  lemma SliceOfSuffix(s: string, n: nat, l: string, m: nat)
    requires n <= |s| && l == s[n..] && m <= |l|
    ensures n + m <= |s| && l[..m] == s[n..n + m]
  {
  }

  lemma SpaceAfterSuffix(s: string, n: nat, l: string, m: nat)
    requires n <= |s| && l == s[n..] && m <= |l| && AllSpace(l[m..])
    ensures n + m <= |s| && AllSpace(s[n + m..])
  {
    assert l[m..] == s[n + m..];
  }

  /** `TrimSpace` gives the empty string exactly when `s` is all white space. */
  lemma TrimSpaceEmptyIffAllSpace(s: string)
    ensures TrimSpace(s) == [] <==> AllSpace(s)
  {
    var l, n := TrimLeft(s), LeadingSpace(s);
    var r := TrimRight(l);
    TrimLeftIsSuffix(s);
    TrimRightIsPrefix(l);
    TrimLeftDropsSpace(s);
    TrimRightDropsSpace(l);
    assert l == s[n..];
    if r == [] {
      assert l == [];
      assert s == s[..n];
    } else {
      assert r[0] == l[0] == s[n];
    }
  }

  /** Trimming twice is trimming once. */
  lemma TrimSpaceIdempotent(s: string)
    ensures TrimSpace(TrimSpace(s)) == TrimSpace(s)
  {
    var t := TrimSpace(s);
    if t != [] {
      assert !IsSpace(t[0]) && !IsSpace(t[|t| - 1]);
      assert TrimLeft(t) == t;
      assert TrimRight(t) == t;
    }
  }

  /** Index of the first '\n' in `s`, or `|s|` when there is none. */
  function LineEnd(s: string): (i: nat)
    ensures i <= |s|
    ensures i < |s| ==> s[i] == '\n'
    ensures '\n' !in s[..i]
  {
    if s == [] || s[0] == '\n' then 0 else 1 + LineEnd(s[1..])
  }

  predicate EndsWithCR(s: string) {
    s != [] && s[|s| - 1] == '\r'
  }

  /** Removes one trailing carriage return, as `bufio.ScanLines` does. */
  function DropCR(s: string): (r: string)
    ensures |s| - 1 <= |r| <= |s| && r == s[..|r|]
    ensures |r| < |s| <==> EndsWithCR(s)
  {
    if EndsWithCR(s) then s[..|s| - 1] else s
  }

  /**
   * The tokens a `bufio.Scanner` with `bufio.ScanLines` yields when it reads
   * `s` to its end: `s` is split at every '\n', one trailing '\r' is dropped
   * from each token, and a final non-empty fragment without a '\n' is a token
   * too. No token holds a '\n', and there are never more tokens than characters.
   */
  function ScanLines(s: string): (lines: seq<string>)
    ensures |lines| <= |s|
    ensures forall k :: 0 <= k < |lines| ==> '\n' !in lines[k]
    decreases |s|
  {
    if s == [] then []
    else
      var i := LineEnd(s);
      if i == |s| then [DropCR(s)]
      else [DropCR(s[..i])] + ScanLines(s[i + 1..])
  }

  /** The lines joined by single '\n' separators, with none before the first or after the last. */
  function Join(lines: seq<string>): string {
    if |lines| == 0 then ""
    else if |lines| == 1 then lines[0]
    else lines[0] + "\n" + Join(lines[1..])
  }

  /** Appending a line to a non-empty join adds one separator and the line. */
  lemma {:induction false} JoinSnoc(lines: seq<string>, line: string)
    requires lines != []
    ensures Join(lines + [line]) == Join(lines) + "\n" + line
  {
    if |lines| > 1 {
      assert (lines + [line])[1..] == lines[1..] + [line];
      JoinSnoc(lines[1..], line);
    }
  }

  /** A join whose first line is non-empty is non-empty. */
  lemma {:induction false} JoinNonEmpty(lines: seq<string>)
    requires lines != [] && lines[0] != []
    ensures Join(lines) != [] && Join(lines)[0] == lines[0][0]
  {
  }

  /** The scanner reads the text before the first '\n' as one token and continues after it. */
  lemma ScanLinesCons(line: string, rest: string)
    requires '\n' !in line
    ensures ScanLines(line + "\n" + rest) == [DropCR(line)] + ScanLines(rest)
  {
    var s := line + "\n" + rest;
    LineEndAt(line, rest);
    assert s[..|line|] == line;
    assert s[|line| + 1..] == rest;
  }

  lemma {:induction false} LineEndAt(line: string, rest: string)
    requires '\n' !in line
    ensures LineEnd(line + "\n" + rest) == |line|
  {
    if line != [] {
      assert (line + "\n" + rest)[1..] == line[1..] + "\n" + rest;
      assert line[0] in line;
      LineEndAt(line[1..], rest);
    }
  }

  /**
   * Scanning the join gives the lines back, provided no line contains a '\n'
   * or ends in '\r', and the last line is not empty (an empty last line
   * would leave the join ending in a bare separator, which is no token).
   */
  lemma {:induction false} ScanLinesJoin(lines: seq<string>)
    requires forall k :: 0 <= k < |lines| ==> '\n' !in lines[k] && !EndsWithCR(lines[k])
    requires lines == [] || lines[|lines| - 1] != []
    ensures ScanLines(Join(lines)) == lines
  {
    if |lines| == 1 {
      var s := lines[0];
      LineEndAt(s, "");
      assert s + "\n" + "" == s + "\n";
    } else if |lines| > 1 {
      ScanLinesJoin(lines[1..]);
      ScanLinesCons(lines[0], Join(lines[1..]));
    }
  }

  /**
   * The other direction: joining the scanned tokens rebuilds the text,
   * provided it has no '\r' and does not end in '\n'.
   */
  lemma {:induction false} JoinScanLines(s: string)
    requires '\r' !in s
    requires s == [] || s[|s| - 1] != '\n'
    ensures Join(ScanLines(s)) == s
    decreases |s|
  {
    if s != [] {
      var i := LineEnd(s);
      if i < |s| {
        var line, rest := s[..i], s[i + 1..];
        assert s == line + "\n" + rest;
        NotInSlice(s, '\r', 0, i);
        NotInSlice(s, '\r', i + 1, |s|);
        assert rest != [] && rest[|rest| - 1] == s[|s| - 1];
        NoCRNoDrop(line);
        ScanLinesCons(line, rest);
        JoinScanLines(rest);
      } else {
        NoCRNoDrop(s);
      }
    }
  }

  lemma NotInSlice(s: string, c: char, i: nat, j: nat)
    requires i <= j <= |s| && c !in s
    ensures c !in s[i..j]
  {
  }

  lemma NoCRNoDrop(s: string)
    requires '\r' !in s
    ensures DropCR(s) == s
  {
    if s != [] {
      assert s[|s| - 1] in s;
    }
  }

  /** The bytes after the old line: the separator scans as an empty line, then the new line. */
  lemma AppendedLineScan(line: string, next: string)
    requires next != [] && '\n' !in next && !EndsWithCR(next)
    ensures ScanLines((line + "\n" + next)[|line|..]) == ["", next]
  {
    assert (line + "\n" + next)[|line|..] == "" + "\n" + next;
    ScanLinesCons("", next);
    ScanLinesJoin([next]);
  }

  /** Scanning text that stops at a line boundary, then more text, scans each part on its own. */
  lemma {:induction false} ScanLinesAppend(a: string, b: string)
    requires a == [] || a[|a| - 1] == '\n'
    ensures ScanLines(a + b) == ScanLines(a) + ScanLines(b)
    decreases |a|
  {
    if a != [] {
      var i := LineEnd(a);
      assert i < |a|;
      var line, rest := a[..i], a[i + 1..];
      assert a == line + "\n" + rest;
      assert a + b == line + "\n" + (rest + b);
      ScanLinesCons(line, rest);
      ScanLinesCons(line, rest + b);
      assert rest == [] || rest[|rest| - 1] == a[|a| - 1];
      ScanLinesAppend(rest, b);
      ConcatAssoc([DropCR(line)], ScanLines(rest), ScanLines(b));
    } else {
      assert a + b == b;
    }
  }

  /** Concatenation regroups; stated once so that proofs about growing outputs need not rediscover it. */
  lemma ConcatAssoc<T>(a: seq<T>, b: seq<T>, c: seq<T>)
    ensures a + (b + c) == (a + b) + c
  {
  }
}
