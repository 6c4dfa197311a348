/** The string operations the parsers rest on, as Python's `str` has them. */
module Text {

  /** `str.isspace` of one character. */
  predicate IsSpace(c: char) {
    c == ' ' || c == '\t' || c == '\n' || c == '\r' || c == '\U{B}' || c == '\U{C}' || '\U{1C}' <= c <= '\U{1F}' || c == '\U{85}' || c == '\U{A0}'
    || c == '\U{1680}' || '\U{2000}' <= c <= '\U{200A}' || c == '\U{2028}' || c == '\U{2029}'
    || c == '\U{202F}' || c == '\U{205F}' || c == '\U{3000}'
  }

  /** Where `str.splitlines` breaks. Text read in text mode has no carriage return left. */
  predicate IsBreak(c: char) {
    c == '\n' || c == '\r' || c == '\U{B}' || c == '\U{C}' || '\U{1C}' <= c <= '\U{1E}' || c == '\U{85}'
    || c == '\U{2028}' || c == '\U{2029}'
  }

  /** The characters `str.splitlines` breaks at, and those `str.split` and `\s` take as white
      space, by their code points. */
  lemma CodePoints(c: char)
    ensures IsBreak(c) <==> c as int in {10, 11, 12, 13, 28, 29, 30, 133, 8232, 8233}
    ensures IsSpace(c) <==> IsBreak(c) || c as int in {9, 31, 32, 160, 5760, 8239, 8287, 12288} || 8192 <= c as int <= 8202
  {
  }

  lemma BreakIsSpace(c: char)
    requires IsBreak(c)
    ensures IsSpace(c)
  {
  }

  predicate IsDigit(c: char) {
    '0' <= c <= '9'
  }

  predicate AllDigits(s: string) {
    forall c :: c in s ==> IsDigit(c)
  }

  // ---- trimming ----

  /** Where the last of the first `n` characters that is no space ends. */
  function TrimmedLength(s: string, n: nat): (m: nat)
    requires n <= |s|
    ensures m <= n && (m > 0 ==> !IsSpace(s[m - 1]))
    ensures forall i :: m <= i < n ==> IsSpace(s[i])
  {
    if n > 0 && IsSpace(s[n - 1]) then TrimmedLength(s, n - 1) else n
  }

  function TrimRight(s: string): (t: string)
    ensures t <= s
    ensures t != [] ==> !IsSpace(t[|t| - 1])
    ensures forall i :: |t| <= i < |s| ==> IsSpace(s[i])
  {
    s[..TrimmedLength(s, |s|)]
  }

  /** Where the first character from `n` on that is no space stands. */
  function SkippedSpace(s: string, n: nat): (m: nat)
    requires n <= |s|
    ensures n <= m <= |s| && (m < |s| ==> !IsSpace(s[m]))
    ensures forall i :: n <= i < m ==> IsSpace(s[i])
    decreases |s| - n
  {
    if n < |s| && IsSpace(s[n]) then SkippedSpace(s, n + 1) else n
  }

  function TrimLeft(s: string): (t: string)
    ensures |t| <= |s| && (t != [] ==> !IsSpace(t[0]))
    ensures forall i :: 0 <= i < |s| - |t| ==> IsSpace(s[i])
  {
    s[SkippedSpace(s, 0)..]
  }

  /** `str.strip`. */
  function Strip(s: string): string {
    TrimLeft(TrimRight(s))
  }

  /** A prefix that ends in no space and is followed by spaces only is the trimmed text. */
  lemma TrimRightIs(s: string, n: nat)
    requires n <= |s| && (n > 0 ==> !IsSpace(s[n - 1])) && forall i :: n <= i < |s| ==> IsSpace(s[i])
    ensures TrimRight(s) == s[..n]
  {
    hide IsSpace;
    TrimmedLengthIs(s, |s|, n);
  }

  lemma {:induction false} TrimmedLengthIs(s: string, m: nat, n: nat)
    requires n <= m <= |s| && (n > 0 ==> !IsSpace(s[n - 1])) && forall i :: n <= i < m ==> IsSpace(s[i])
    ensures TrimmedLength(s, m) == n
  {
    hide IsSpace;
    if n < m {
      TrimmedLengthIs(s, m - 1, n);
    }
  }

  lemma {:induction false} SkippedSpaceIs(s: string, m: nat, n: nat)
    requires m <= n <= |s| && (n < |s| ==> !IsSpace(s[n])) && forall i :: m <= i < n ==> IsSpace(s[i])
    ensures SkippedSpace(s, m) == n
    decreases n - m
  {
    hide IsSpace;
    if m < n {
      SkippedSpaceIs(s, m + 1, n);
    }
  }

  lemma TrimRightPad(s: string, c: char)
    requires IsSpace(c)
    ensures TrimRight(s + [c]) == TrimRight(s)
  {
    hide IsSpace;
    var n := |TrimRight(s)|;
    TrimRightIs(s, n);
    TrimRightIs(s + [c], n);
    assert (s + [c])[..n] == s[..n];
  }

  // ---- lines ----

  /** How far it is to the first line break, or to the end. */
  function LineLength(s: string): (n: nat)
    ensures n <= |s| && (n < |s| ==> IsBreak(s[n]))
    ensures forall i :: 0 <= i < n ==> !IsBreak(s[i])
  {
    if s == [] || IsBreak(s[0]) then 0 else 1 + LineLength(s[1..])
  }

  /** `splitlines()`. */
  function Lines(s: string): seq<string>
    decreases |s|
  {
    if s == [] then []
    else
      var n := LineLength(s);
      if n == |s| then [s] else [s[..n]] + Lines(s[n + 1..])
  }

  /** `splitlines(keepends=True)`. */
  function KeepLines(s: string): seq<string>
    decreases |s|
  {
    if s == [] then []
    else
      var n := LineLength(s);
      if n == |s| then [s] else [s[..n + 1]] + KeepLines(s[n + 1..])
  }

  /** `"".join(...)`. */
  function Flatten(lines: seq<string>): string {
    if lines == [] then [] else lines[0] + Flatten(lines[1..])
  }

  /** `"\n".join(...)`. */
  function Joined(parts: seq<string>): string {
    if parts == [] then [] else if |parts| == 1 then parts[0] else parts[0] + "\n" + Joined(parts[1..])
  }

  lemma {:induction false} JoinedSnoc(parts: seq<string>, last: string)
    requires parts != []
    ensures Joined(parts + [last]) == Joined(parts) + "\n" + last
  {
    var all := parts + [last];
    assert all[1..] == parts[1..] + [last] && all[0] == parts[0];
    if |parts| == 1 {
      assert all[1..] == [last];
    } else {
      JoinedSnoc(parts[1..], last);
      var mid := Joined(parts[1..]);
      assert parts[0] + "\n" + (mid + "\n" + last) == parts[0] + "\n" + mid + "\n" + last;
    }
  }

  predicate Terminated(line: string) {
    line != [] && IsBreak(line[|line| - 1])
  }

  /** A line as `splitlines(keepends=True)` yields it: no break but at its end. */
  predicate IsLine(line: string) {
    line != [] && forall i :: 0 <= i < |line| - 1 ==> !IsBreak(line[i])
  }

  /** What `splitlines(keepends=True)` yields: every line but the last is terminated. */
  predicate WellLined(lines: seq<string>) {
    && (forall l :: l in lines ==> IsLine(l))
    && (forall i :: 0 <= i < |lines| - 1 ==> Terminated(lines[i]))
  }

  lemma {:induction false} KeepLinesWellLined(s: string)
    ensures WellLined(KeepLines(s)) && Flatten(KeepLines(s)) == s
    decreases |s|
  {
    if s != [] {
      var n := LineLength(s);
      if n == |s| {
        assert KeepLines(s) == [s];
        assert Flatten([s]) == s + Flatten([]);
      } else {
        var rest := KeepLines(s[n + 1..]);
        KeepLinesWellLined(s[n + 1..]);
        assert KeepLines(s) == [s[..n + 1]] + rest;
        assert s[..n + 1] + s[n + 1..] == s;
      }
    }
  }

  lemma LineLengthOf(line: string, rest: string)
    requires IsLine(line) && (Terminated(line) || rest == [])
    ensures LineLength(line + rest) == if Terminated(line) then |line| - 1 else |line|
  {
    var s := line + rest;
    var n := LineLength(s);
    if Terminated(line) {
      assert IsBreak(s[|line| - 1]);
      assert forall i :: 0 <= i < |line| - 1 ==> s[i] == line[i];
    } else {
      assert s == line;
    }
  }

  lemma SplitsFirst(line: string, rest: string)
    requires IsLine(line) && (Terminated(line) || rest == [])
    ensures KeepLines(line + rest) == [line] + KeepLines(rest)
  {
    hide IsBreak;
    LineLengthOf(line, rest);
    var s := line + rest;
    if Terminated(line) {
      assert s[..|line|] == line && s[|line|..] == rest;
    } else {
      assert s == line;
    }
  }

  /** Joining well-formed lines and splitting again gives the lines back. */
  lemma {:induction false} SplitJoined(lines: seq<string>)
    requires WellLined(lines)
    ensures KeepLines(Flatten(lines)) == lines
  {
    hide KeepLines, IsLine, Terminated;
    if lines == [] {
      NothingSplits();
    } else {
      var rest := lines[1..];
      SplitJoined(rest);
      assert lines[0] in lines && lines == [lines[0]] + rest;
      SplitsFirst(lines[0], Flatten(rest));
    }
  }

  lemma NothingSplits()
    ensures KeepLines("") == [] && Lines("") == [] && SameTrimmed([], [])
  {
  }

  lemma {:induction false} FlattenAppend(a: seq<string>, b: seq<string>)
    ensures Flatten(a + b) == Flatten(a) + Flatten(b)
  {
    if a == [] {
      assert a + b == b;
    } else {
      assert (a + b)[1..] == a[1..] + b;
      FlattenAppend(a[1..], b);
    }
  }

  lemma EndTrims(s: string, n: nat)
    requires n < |s| && IsBreak(s[n])
    ensures TrimRight(s[..n + 1]) == TrimRight(s[..n])
  {
    BreakIsSpace(s[n]);
    assert s[..n + 1] == s[..n] + [s[n]];
    TrimRightPad(s[..n], s[n]);
  }

  lemma {:induction false} BothSplit(s: string, n: nat)
    requires n == LineLength(s) < |s|
    ensures KeepLines(s) == [s[..n + 1]] + KeepLines(s[n + 1..]) && Lines(s) == [s[..n]] + Lines(s[n + 1..])
  {
    hide IsBreak, LineLength;
  }

  lemma BothWhole(s: string)
    requires s != [] && LineLength(s) == |s|
    ensures KeepLines(s) == [s] && Lines(s) == [s]
  {
    hide IsBreak, LineLength;
  }

  ghost predicate SameTrimmed(a: seq<string>, b: seq<string>) {
    |a| == |b| && forall i :: 0 <= i < |a| ==> TrimRight(a[i]) == TrimRight(b[i])
  }

  lemma SameTrimmedCons(x: string, a: seq<string>, y: string, b: seq<string>)
    requires TrimRight(x) == TrimRight(y) && SameTrimmed(a, b)
    ensures SameTrimmed([x] + a, [y] + b)
  {
    hide TrimRight;
  }

  /** With and without line ends, the lines agree up to trailing space. */
  lemma {:induction false} KeepLinesTrim(s: string)
    ensures SameTrimmed(KeepLines(s), Lines(s))
    decreases |s|
  {
    hide IsBreak, TrimRight, SameTrimmed, KeepLines, Lines;
    if s == [] {
      NothingSplits();
    } else {
      var n := LineLength(s);
      if n == |s| {
        BothWhole(s);
        assert SameTrimmed([s], [s]) by {
          NothingSplits();
          SameTrimmedCons(s, [], s, []);
          assert [s] + [] == [s];
        }
      } else {
        KeepLinesTrim(s[n + 1..]);
        EndTrims(s, n);
        BothSplit(s, n);
        SameTrimmedCons(s[..n + 1], KeepLines(s[n + 1..]), s[..n], Lines(s[n + 1..]));
      }
    }
  }

  // ---- decimal numbers ----

  function DigitValue(c: char): (d: nat)
    requires IsDigit(c)
    ensures d < 10
  {
    c as nat - '0' as nat
  }

  function DigitChar(d: nat): (c: char)
    requires d < 10
    ensures IsDigit(c) && DigitValue(c) == d
  {
    '0' + d as char
  }

  /** `int(s)` of a string of digits. */
  function ParseNat(s: string): nat
    requires AllDigits(s)
  {
    if s == [] then 0
    else
      assert s[|s| - 1] in s;
      10 * ParseNat(s[..|s| - 1]) + DigitValue(s[|s| - 1])
  }

  /** `str(n)`. */
  function Decimal(n: nat): (s: string)
    ensures s != [] && AllDigits(s)
  {
    if n < 10 then [DigitChar(n)] else Decimal(n / 10) + [DigitChar(n % 10)]
  }

  lemma {:induction false} ParseDecimal(n: nat)
    ensures ParseNat(Decimal(n)) == n
  {
    var s := Decimal(n);
    if n >= 10 {
      ParseDecimal(n / 10);
      assert s[..|s| - 1] == Decimal(n / 10);
    } else {
      assert s[..|s| - 1] == [];
    }
  }
}
