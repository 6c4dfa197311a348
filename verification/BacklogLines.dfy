module BacklogLines {
  // The line shapes of the improvement backlog (src/evomesh/codebase.py): the two
  // item patterns, the step pattern, and the printed form of a step. Every pattern
  // there ends in optional space, so each is decided on the right-trimmed line.

  import opened Options
  import opened Text

  datatype Step = Step(number: nat, path: string, symbol: string, change: string, done: bool)

  // ---- items ----

  function LeadingBlanks(t: string): (k: nat)
    ensures k <= |t| && (forall i :: 0 <= i < k ==> t[i] == ' ') && (k < |t| ==> t[k] != ' ')
  {
    if t == [] || t[0] != ' ' then 0 else 1 + LeadingBlanks(t[1..])
  }

  /** Up to three blanks, `- [m] ` and something that is not space, at `k`. */
  predicate Boxed(t: string, k: nat, mark: char) {
    && k <= 3 && k + 6 < |t|
    && t[k] == '-' && t[k + 1] == ' ' && t[k + 2] == '[' && t[k + 3] == mark && t[k + 4] == ']' && t[k + 5] == ' '
    && !IsSpace(t[k + 6])
  }

  /** The title of an unticked item, if the line is one. */
  function OpenTitle(line: string): Option<string> {
    var t := TrimRight(line);
    var k := LeadingBlanks(t);
    if Boxed(t, k, ' ') then Some(t[k + 6..]) else None
  }

  predicate IsDone(line: string) {
    var t := TrimRight(line);
    var k := LeadingBlanks(t);
    Boxed(t, k, 'x') || Boxed(t, k, 'X') || Boxed(t, k, '-')
  }

  /** `_continues`: indented or blank, and not an item of its own. */
  predicate Continues(line: string) {
    var t := TrimRight(line);
    OpenTitle(line).None? && !IsDone(line) && (t == [] || t[0] == ' ' || t[0] == '\t')
  }

  // ---- steps ----

  function SpaceEnd(t: string, i: nat): (j: nat)
    requires i <= |t|
    ensures i <= j <= |t| && (j < |t| ==> !IsSpace(t[j]))
    ensures forall m :: i <= m < j ==> IsSpace(t[m])
    decreases |t| - i
  {
    if i == |t| || !IsSpace(t[i]) then i else SpaceEnd(t, i + 1)
  }

  function DigitEnd(t: string, i: nat): (j: nat)
    requires i <= |t|
    ensures i <= j <= |t| && (j < |t| ==> !IsDigit(t[j]))
    ensures forall m :: i <= m < j ==> IsDigit(t[m])
    decreases |t| - i
  {
    if i == |t| || !IsDigit(t[i]) then i else DigitEnd(t, i + 1)
  }

  predicate IsNameStart(c: char) {
    'a' <= c <= 'z' || 'A' <= c <= 'Z' || c == '_'
  }

  predicate IsWord(c: char) {
    IsNameStart(c) || IsDigit(c)
  }

  function WordEnd(t: string, i: nat): (j: nat)
    requires i <= |t|
    ensures i <= j <= |t| && (j < |t| ==> !IsWord(t[j]))
    ensures forall m :: i <= m < j ==> IsWord(t[m])
    decreases |t| - i
  {
    if i == |t| || !IsWord(t[i]) then i else WordEnd(t, i + 1)
  }

  const ROOT := "src/evomesh/"

  predicate At(t: string, i: nat, what: string) {
    i + |what| <= |t| && forall j :: 0 <= j < |what| ==> t[i + j] == what[j]
  }

  /** Past an optional backtick. */
  function Tick(t: string, i: nat): (j: nat)
    requires i <= |t|
    ensures i <= j <= |t|
  {
    if i < |t| && t[i] == '`' then i + 1 else i
  }

  /** Where a name starting at `i` ends, if one starts there. */
  function NameEnd(t: string, i: nat): (j: Option<nat>)
    requires i <= |t|
    ensures j.Some? ==> i < j.value <= |t|
  {
    if i < |t| && IsNameStart(t[i]) then Some(WordEnd(t, i)) else None
  }

  /** Where `Name` or `Class.method` starting at `i` ends. */
  function SymbolEnd(t: string, i: nat): (j: Option<nat>)
    requires i <= |t|
    ensures j.Some? ==> i < j.value <= |t|
  {
    var first := NameEnd(t, i);
    if first.Some? && first.value < |t| && t[first.value] == '.' then NameEnd(t, first.value + 1) else first
  }

  /** Past the separator before the change, if there is one. */
  function SeparatorEnd(t: string, i: nat): (j: nat)
    requires i <= |t|
    ensures i <= j <= |t|
  {
    if At(t, i, "--") then i + 2
    else if i < |t| && (t[i] == ':' || t[i] == '-' || t[i] == '\U{2014}' || t[i] == '\U{2013}') then i + 1
    else i
  }

  /** Path, symbol and change after a step's box. */
  datatype Anchor = Anchor(path: string, symbol: string, change: string)

  function ParseAnchor(t: string): Option<Anchor> {
    var p := Tick(t, SpaceEnd(t, 0));
    if !At(t, p, ROOT) then None
    else
      var w := WordEnd(t, p + |ROOT|);
      if w == p + |ROOT| || !At(t, w, ".py") then None else ParseSymbol(t, Tick(t, w + 3), t[p..w + 3])
  }

  /** What stands after the path: space, a symbol in backticks, a separator, the change. */
  function ParseSymbol(t: string, q: nat, path: string): Option<Anchor>
    requires q <= |t|
  {
    var s := SpaceEnd(t, q);
    if s == q || !At(t, s, "`") then None
    else
      var e := SymbolEnd(t, s + 1);
      if e.None? || !At(t, e.value, "`") then None
      else
        var c := SpaceEnd(t, SeparatorEnd(t, SpaceEnd(t, e.value + 1)));
        Some(Anchor(path, t[s + 1..e.value], t[c..]))
  }

  predicate IsMark(c: char) {
    c == ' ' || c == 'x' || c == 'X'
  }

  /** Where the box of a step line starts: after indentation, a number and a dot. */
  function BoxAt(t: string): (c: Option<nat>)
    ensures c.Some? ==> c.value + 2 < |t| && t[c.value] == '[' && t[c.value + 2] == ']'
  {
    var a := SpaceEnd(t, 0);
    var b := DigitEnd(t, a);
    if a == 0 || b == a || b == |t| || t[b] != '.' then None
    else
      var c := SpaceEnd(t, b + 1);
      if c + 2 < |t| && t[c] == '[' && t[c + 2] == ']' && IsMark(t[c + 1]) then Some(c) else None
  }

  /** The step with these digits, this mark in its box and this text after it. */
  function Assembled(digits: string, mark: char, tail: string): (r: Option<Step>)
    requires AllDigits(digits)
    ensures r.Some? ==> r.value.done == (mark != ' ')
  {
    var anchor := ParseAnchor(tail);
    if anchor.None? then None
    else Some(Step(ParseNat(digits), anchor.value.path, anchor.value.symbol, anchor.value.change, mark != ' '))
  }

  function Digits(t: string): (digits: string)
    ensures AllDigits(digits)
  {
    var a := SpaceEnd(t, 0);
    t[a..DigitEnd(t, a)]
  }

  /** The step a trimmed line is, if it has the step shape. */
  function StepOf(t: string): Option<Step> {
    var c := BoxAt(t);
    if c.None? then None else Assembled(Digits(t), t[c.value + 1], t[c.value + 3..])
  }

  function StepMatch(line: string): Option<Step> {
    StepOf(TrimRight(line))
  }

  // ---- facts about the shapes ----

  lemma {:induction false} SpaceEndIs(t: string, i: nat, j: nat)
    requires i <= j <= |t| && (forall m :: i <= m < j ==> IsSpace(t[m])) && (j < |t| ==> !IsSpace(t[j]))
    ensures SpaceEnd(t, i) == j
    decreases |t| - i
  {
    if i < j {
      SpaceEndIs(t, i + 1, j);
    }
  }

  lemma {:induction false} DigitEndIs(t: string, i: nat, j: nat)
    requires i <= j <= |t| && (forall m :: i <= m < j ==> IsDigit(t[m])) && (j < |t| ==> !IsDigit(t[j]))
    ensures DigitEnd(t, i) == j
    decreases |t| - i
  {
    if i < j {
      DigitEndIs(t, i + 1, j);
    }
  }

  lemma {:induction false} WordEndIs(t: string, i: nat, j: nat)
    requires i <= j <= |t| && (forall m :: i <= m < j ==> IsWord(t[m])) && (j < |t| ==> !IsWord(t[j]))
    ensures WordEnd(t, i) == j
    decreases |t| - i
  {
    if i < j {
      WordEndIs(t, i + 1, j);
    }
  }

  lemma {:induction false} LeadingBlanksIs(t: string, k: nat)
    requires k <= |t| && (forall i :: 0 <= i < k ==> t[i] == ' ') && (k < |t| ==> t[k] != ' ')
    ensures LeadingBlanks(t) == k
  {
    if k > 0 {
      LeadingBlanksIs(t[1..], k - 1);
    }
  }

  /** Before a step's box there are only space, digits and a dot. */
  lemma BeforeBox(t: string)
    requires BoxAt(t).Some?
    ensures var a := SpaceEnd(t, 0); var b := DigitEnd(t, a);
      0 < a < b < BoxAt(t).value && SpaceEnd(t, b + 1) == BoxAt(t).value
    ensures forall j :: 0 <= j < BoxAt(t).value ==> IsSpace(t[j]) || IsDigit(t[j]) || t[j] == '.'
    ensures IsMark(t[BoxAt(t).value + 1])
  {
    var a := SpaceEnd(t, 0);
    var b := DigitEnd(t, a);
  }

  lemma BoxIsNoItem(t: string)
    requires BoxAt(t).Some?
    ensures LeadingBlanks(t) < |t| && t[LeadingBlanks(t)] != '-'
  {
    BeforeBox(t);
    var k := LeadingBlanks(t);
    var c := BoxAt(t).value;
    assert t[SpaceEnd(t, 0)] != ' ';
    assert k <= SpaceEnd(t, 0);
  }

  /** A step line is no item, and belongs to the item above it. */
  lemma StepContinues(line: string)
    requires BoxAt(TrimRight(line)).Some?
    ensures OpenTitle(line).None? && !IsDone(line)
    ensures TrimRight(line) != []
    ensures TrimRight(line)[0] == ' ' || TrimRight(line)[0] == '\t' ==> Continues(line)
  {
    BoxIsNoItem(TrimRight(line));
  }

  // ---- ticking ----

  /** `s.replace(old, new, 1)`. */
  function ReplaceFirst(s: string, what: string, with_: string): string {
    if |s| < |what| then s
    else if Starts(s, what) then with_ + s[|what|..]
    else if s == [] then []
    else [s[0]] + ReplaceFirst(s[1..], what, with_)
  }

  predicate Starts(s: string, what: string) {
    |what| <= |s| && s[..|what|] == what
  }

  lemma ReplacesStart(s: string, what: string, with_: string)
    requires At(s, 0, what)
    ensures ReplaceFirst(s, what, with_) == s[..0] + with_ + s[0 + |what|..]
  {
    assert s[..|what|] == what;
    assert [] + with_ == with_;
  }

  lemma Shifted(s: string, with_: string, i: nat, j: nat)
    requires 0 < i <= j <= |s|
    ensures [s[0]] + (s[1..][..i - 1] + with_ + s[1..][j - 1..]) == s[..i] + with_ + s[j..]
  {
    assert s[..i] == [s[0]] + s[1..][..i - 1];
    assert s[1..][j - 1..] == s[j..];
  }

  lemma {:induction false} ReplacesAt(s: string, what: string, with_: string, i: nat)
    requires what != [] && At(s, i, what) && forall j :: 0 <= j < i ==> s[j] != what[0]
    ensures ReplaceFirst(s, what, with_) == s[..i] + with_ + s[i + |what|..]
  {
    if i == 0 {
      ReplacesStart(s, what, with_);
    } else {
      assert !Starts(s, what) by {
        assert s[0] != what[0];
      }
      ReplacesAt(s[1..], what, with_, i - 1);
      Shifted(s, with_, i, i + |what|);
    }
  }

  /** Replacing by a text that differs at one place changes that place. */
  lemma ReplacesMark(s: string, what: string, with_: string, i: nat, k: nat)
    requires what != [] && At(s, i, what) && (forall j :: 0 <= j < i ==> s[j] != what[0])
    requires |with_| == |what| && k < |what| && with_ == what[k := with_[k]]
    ensures ReplaceFirst(s, what, with_) == s[i + k := with_[k]]
  {
    hide ReplaceFirst;
    ReplacesAt(s, what, with_, i);
    var a, c := s[..i], s[i + |what|..];
    assert s[i..i + |what|] == what;
    assert s == a + what + c;
    MarkInside(a, what, with_, c, k);
  }

  lemma MarkInside(a: string, what: string, with_: string, c: string, k: nat)
    requires |with_| == |what| && k < |what| && with_ == what[k := with_[k]]
    ensures a + with_ + c == (a + what + c)[|a| + k := with_[k]]
  {
  }

  /** `line.replace("[ ]", "[x]", 1)`. */
  function TickedStepLine(line: string): string {
    ReplaceFirst(line, "[ ]", "[x]")
  }

  /** `line.replace("- [ ] ", "- [x] ", 1)`. */
  function TickedItemLine(line: string): string {
    ReplaceFirst(line, "- [ ] ", "- [x] ")
  }

  /** Putting an `x` inside the trimmed text commutes with trimming. */
  lemma TrimRightUpdate(line: string, i: nat)
    requires i < |TrimRight(line)|
    ensures TrimRight(line[i := 'x']) == TrimRight(line)[i := 'x']
  {
    var t := TrimRight(line);
    TrimRightIs(line[i := 'x'], |t|);
    assert line[i := 'x'][..|t|] == t[i := 'x'];
  }

  /** On an open item the first `- [ ] ` is its own box, and ticking makes it a done item. */
  lemma TickedItemIsDone(line: string)
    requires OpenTitle(line).Some?
    ensures IsDone(TickedItemLine(line)) && OpenTitle(TickedItemLine(line)).None?
    ensures exists i :: 0 < i < |line| - 1 && TickedItemLine(line) == line[i := 'x'] && line[i] == ' '
  {
    ItemTickHitsBox(line);
    var t := TrimRight(line);
    var k := LeadingBlanks(t);
    TrimRightUpdate(line, k + 3);
    BoxTickedDone(t, k);
    hide TrimRight, LeadingBlanks, IsSpace, TickedItemLine;
    assert TickedItemLine(line) == line[k + 3 := 'x'] && line[k + 3] == t[k + 3];
  }

  lemma BoxTickedDone(t: string, k: nat)
    requires k == LeadingBlanks(t) && Boxed(t, k, ' ')
    ensures var u := t[k + 3 := 'x']; LeadingBlanks(u) == k && Boxed(u, k, 'x') && !Boxed(u, k, ' ')
  {
    hide IsSpace;
    LeadingBlanksIs(t[k + 3 := 'x'], k);
  }

  lemma ItemTickHitsBox(line: string)
    requires OpenTitle(line).Some?
    ensures TickedItemLine(line) == line[LeadingBlanks(TrimRight(line)) + 3 := 'x']
  {
    var t := TrimRight(line);
    var k := LeadingBlanks(t);
    assert forall j :: 0 <= j < |t| ==> line[j] == t[j];
    assert At(line, k, "- [ ] ");
    assert forall j :: 0 <= j < k ==> line[j] == ' ';
    assert "- [x] " == "- [ ] "[3 := 'x'];
    ReplacesMark(line, "- [ ] ", "- [x] ", k, 3);
  }

  lemma StepHasBox(line: string)
    requires StepMatch(line).Some?
    ensures BoxAt(TrimRight(line)).Some?
  {
    hide BoxAt, Assembled;
  }

  lemma Punctuation()
    ensures !IsDigit('.') && !IsSpace('[')
  {
  }

  /** A box is determined by where indentation, number and the space after the dot end. */
  lemma BoxIs(t: string, a: nat, b: nat, c: nat)
    requires 0 < a < b < c && c + 2 < |t| && t[b] == '.' && t[c] == '[' && IsMark(t[c + 1]) && t[c + 2] == ']'
    requires forall m :: 0 <= m < a ==> IsSpace(t[m])
    requires forall m :: a <= m < b ==> IsDigit(t[m])
    requires forall m :: b < m < c ==> IsSpace(t[m])
    requires !IsSpace(t[a])
    ensures SpaceEnd(t, 0) == a && DigitEnd(t, a) == b && BoxAt(t) == Some(c)
  {
    hide IsSpace, IsDigit, IsMark, SpaceEnd, DigitEnd;
    Punctuation();
    SpaceEndIs(t, 0, a);
    DigitEndIs(t, a, b);
    SpaceEndIs(t, b + 1, c);
  }

  lemma BoxTicked(t: string, u: string)
    requires BoxAt(t).Some? && u == t[BoxAt(t).value + 1 := 'x']
    ensures BoxAt(u) == BoxAt(t) && SpaceEnd(u, 0) == SpaceEnd(t, 0)
    ensures DigitEnd(u, SpaceEnd(t, 0)) == DigitEnd(t, SpaceEnd(t, 0))
  {
    BeforeBox(t);
    BoxIs(u, SpaceEnd(t, 0), DigitEnd(t, SpaceEnd(t, 0)), BoxAt(t).value);
  }

  lemma MarkIsDone(digits: string, mark: char, tail: string)
    requires AllDigits(digits) && Assembled(digits, mark, tail).Some?
    ensures Assembled(digits, 'x', tail) == Some(Assembled(digits, mark, tail).value.(done := true))
  {
  }

  lemma StepOfTicked(t: string, u: string)
    requires StepOf(t).Some? && u == t[BoxAt(t).value + 1 := 'x']
    ensures StepOf(u) == Some(StepOf(t).value.(done := true))
  {
    hide Assembled;
    BeforeBox(t);
    BoxTicked(t, u);
    var c := BoxAt(t).value;
    MarkIsDone(Digits(t), t[c + 1], t[c + 3..]);
    assert u[c + 3..] == t[c + 3..];
    assert Digits(u) == Digits(t);
  }

  /** The tick lands on the box of an open step: its blank becomes an `x`, nothing else moves. */
  lemma TickHitsBox(line: string)
    requires BoxAt(TrimRight(line)).Some? && line[BoxAt(TrimRight(line)).value + 1] == ' '
    ensures TickedStepLine(line) == line[BoxAt(TrimRight(line)).value + 1 := 'x']
  {
    hide ReplaceFirst, IsSpace, TrimRight, SpaceEnd, DigitEnd;
    var t := TrimRight(line);
    BeforeBox(t);
    var c := BoxAt(t).value;
    assert forall j :: 0 <= j < |t| ==> line[j] == t[j];
    NotBracket(line, c);
    assert At(line, c, "[ ]");
    assert "[x]" == "[ ]"[1 := 'x'];
    ReplacesMark(line, "[ ]", "[x]", c, 1);
  }

  lemma NotBracket(line: string, c: nat)
    requires c <= |line| && forall j :: 0 <= j < c ==> IsSpace(line[j]) || IsDigit(line[j]) || line[j] == '.'
    ensures forall j :: 0 <= j < c ==> line[j] != '['
  {
  }

  lemma OpenMark(t: string)
    requires StepOf(t).Some? && !StepOf(t).value.done
    ensures BoxAt(t).Some? && t[BoxAt(t).value + 1] == ' '
  {
    hide ParseAnchor, BoxAt;
  }

  /** On an open step the first `[ ]` is its own box, and ticking marks exactly it done. */
  lemma TickedStepIsDone(line: string)
    requires StepMatch(line).Some? && !StepMatch(line).value.done
    ensures StepMatch(TickedStepLine(line)) == Some(StepMatch(line).value.(done := true))
    ensures exists i :: 0 < i < |line| - 1 && TickedStepLine(line) == line[i := 'x'] && line[i] == ' '
    ensures |TrimRight(TickedStepLine(line))| > 0 && TrimRight(TickedStepLine(line))[0] == TrimRight(line)[0]
  {
    hide Assembled, BoxAt, StepOf, IsSpace, TrimRight, ReplaceFirst;
    StepHasBox(line);
    var t := TrimRight(line);
    var c := BoxAt(t).value;
    BeforeBox(t);
    OpenMark(t);
    TickHitsBox(line);
    TrimRightUpdate(line, c + 1);
    StepOfTicked(t, t[c + 1 := 'x']);
  }

  // ---- printing a step ----

  /** `_step_line`. */
  function StepLine(step: Step): string {
    "    " + Decimal(step.number) + ". [ ] " + step.path + " `" + step.symbol + "` -- " + step.change
  }

  ghost predicate PathShape(path: string) {
    && |path| > |ROOT| + 3 && path[..|ROOT|] == ROOT && path[|path| - 3..] == ".py"
    && forall i :: |ROOT| <= i < |path| - 3 ==> IsWord(path[i])
  }

  /** What a step found in an answer looks like: one source file, one name, trimmed prose. */
  ghost predicate WellFormed(step: Step) {
    && !step.done
    && PathShape(step.path)
    && SymbolEnd(step.symbol + "`", 0) == Some(|step.symbol|)
    && (step.change != [] ==> !IsSpace(step.change[0]) && !IsSpace(step.change[|step.change| - 1]))
    && (forall c :: c in step.change ==> !IsBreak(c))
  }

  lemma TrimRightAppend(a: string, b: string)
    requires TrimRight(b) != []
    ensures TrimRight(a + b) == a + TrimRight(b)
  {
    var n := |a| + |TrimRight(b)|;
    TrimRightIs(a + b, n);
    assert (a + b)[..n] == a + TrimRight(b);
  }

  lemma WordShifts(t: string, i: nat, u: string, k: nat)
    requires k <= |u| && i + |u| <= |t| && WordEnd(u, k) < |u| && forall j :: 0 <= j < |u| ==> u[j] == t[i + j]
    ensures WordEnd(t, i + k) == i + WordEnd(u, k)
  {
    forall m | i + k <= m < i + WordEnd(u, k) ensures IsWord(t[m]) {
      assert u[m - i] == t[i + (m - i)];
    }
    WordEndIs(t, i + k, i + WordEnd(u, k));
  }

  /** Where a symbol ends does not depend on what stands before it or after its backtick. */
  lemma SymbolShifts(t: string, i: nat, symbol: string)
    requires SymbolEnd(symbol + "`", 0) == Some(|symbol|)
    requires i + |symbol| < |t| && t[i..i + |symbol|] == symbol && t[i + |symbol|] == '`'
    ensures SymbolEnd(t, i) == Some(i + |symbol|)
  {
    var u := symbol + "`";
    assert forall j :: 0 <= j < |u| ==> u[j] == t[i + j] by {
      forall j | 0 <= j < |u| ensures u[j] == t[i + j] {
        if j < |symbol| {
          assert t[i..i + |symbol|][j] == symbol[j];
        }
      }
    }
    WordShifts(t, i, u, 0);
    if WordEnd(u, 0) < |symbol| {
      WordShifts(t, i, u, WordEnd(u, 0) + 1);
    }
  }

  /** The printed text after a step's box. */
  function Tail(step: Step): string {
    " " + step.path + " `" + step.symbol + "` -- " + step.change
  }

  lemma Cut(a: string, b: string, c: string)
    ensures (a + b + c)[|a|..|a| + |b|] == b && (a + b + c)[|a| + |b|..] == c && (a + b + c)[..|a|] == a
  {
  }

  /** The trimmed tail: the printed one, without its last blank if there is no change. */
  lemma TailTrimmed(step: Step)
    requires WellFormed(step)
    ensures TrimRight(Tail(step)) ==
      " " + step.path + " `" + step.symbol + "` --" + (if step.change == [] then "" else " " + step.change)
  {
    var head := " " + step.path + " `" + step.symbol + "` --";
    assert Tail(step) == head + (" " + step.change);
    if step.change == [] {
      TrimRightIs(Tail(step), |head|);
      Cut([], head, " ");
    } else {
      TrimRightIs(Tail(step), |Tail(step)|);
      assert Tail(step)[..|Tail(step)|] == Tail(step);
    }
  }

  lemma AnchorOfTail(step: Step)
    requires WellFormed(step)
    ensures ParseAnchor(TrimRight(Tail(step))) == Some(Anchor(step.path, step.symbol, step.change))
    ensures TrimRight(Tail(step)) != []
  {
    TailTrimmed(step);
    var end := if step.change == [] then "" else " " + step.change;
    AnchorOfParts(step.path, step.symbol, end, step.change, TrimRight(Tail(step)));
  }

  /** The parts of a printed tail, in place. */
  ghost predicate Standing(path: string, symbol: string, end: string, t: string) {
    var q := 1 + |path|; var e := q + 2 + |symbol|;
    && |t| == e + 4 + |end| && t[0] == ' ' && t[1..q] == path && t[q] == ' ' && t[q + 1] == '`'
    && t[q + 2..e] == symbol && t[e] == '`' && t[e + 1] == ' ' && t[e + 2] == '-' && t[e + 3] == '-'
    && t[e + 4..] == end
    && forall j :: 0 <= j < |path| ==> t[1 + j] == path[j]
  }

  /** Where path, symbol and the rest stand in a printed tail. */
  lemma PartsStand(path: string, symbol: string, end: string, t: string)
    requires t == " " + path + " `" + symbol + "` --" + end
    ensures Standing(path, symbol, end, t)
  {
    hide Standing;
    var afterPath, afterSymbol := " `" + symbol + "` --" + end, "` --" + end;
    assert t == " " + path + afterPath;
    Cut(" ", path, afterPath);
    var before := " " + path + " `";
    assert t == before + symbol + afterSymbol;
    Cut(before, symbol, afterSymbol);
    CutsStand(path, symbol, end, afterPath, afterSymbol, t);
  }

  lemma CutsStand(path: string, symbol: string, end: string, afterPath: string, afterSymbol: string, t: string)
    requires |t| == 7 + |path| + |symbol| + |end| && t[0] == ' '
    requires t[1..1 + |path|] == path && t[1 + |path|..] == afterPath
    requires t[3 + |path|..3 + |path| + |symbol|] == symbol && t[3 + |path| + |symbol|..] == afterSymbol
    requires |afterPath| >= 2 && afterPath[0] == ' ' && afterPath[1] == '`'
    requires afterSymbol == "` --" + end
    ensures Standing(path, symbol, end, t)
  {
    var q, e := 1 + |path|, 3 + |path| + |symbol|;
    assert t[q] == afterPath[0] && t[q + 1] == afterPath[1];
    assert forall k :: 0 <= k < 4 ==> t[e + k] == afterSymbol[k];
    assert t[e + 1] == afterSymbol[1] && t[e + 2] == afterSymbol[2] && t[e + 3] == afterSymbol[3];
    assert t[e + 4..] == afterSymbol[4..] && afterSymbol[4..] == end;
    forall j | 0 <= j < |path| ensures t[1 + j] == path[j] {
      assert t[1..q][j] == path[j];
    }
  }

  lemma PathStands(path: string, symbol: string, end: string, t: string)
    requires PathShape(path) && Standing(path, symbol, end, t)
    ensures var q := 1 + |path|;
      && Tick(t, SpaceEnd(t, 0)) == 1 && At(t, 1, ROOT) && |path| > |ROOT| + 3
      && WordEnd(t, 1 + |ROOT|) == |path| - 2 && At(t, |path| - 2, ".py")
      && SpaceEnd(t, q) == q + 1
  {
    PathAt(t, path);
    SpaceEndIs(t, 1 + |path|, 2 + |path|);
  }

  lemma SymbolStands(path: string, symbol: string, end: string, change: string, t: string)
    requires SymbolEnd(symbol + "`", 0) == Some(|symbol|) && Standing(path, symbol, end, t)
    requires if change == [] then end == [] else end == " " + change && !IsSpace(change[0])
    ensures var e := 3 + |path| + |symbol|;
      && SymbolEnd(t, 3 + |path|) == Some(e) && SpaceEnd(t, e + 1) == e + 2 && t[SpaceEnd(t, e + 4)..] == change
  {
    hide SymbolEnd;
    var e := 3 + |path| + |symbol|;
    SymbolShifts(t, 3 + |path|, symbol);
    SpaceEndIs(t, e + 1, e + 2);
    ChangeAt(t, e + 4, end, change);
  }

  lemma AnchorOfParts(path: string, symbol: string, end: string, change: string, t: string)
    requires PathShape(path)
    requires SymbolEnd(symbol + "`", 0) == Some(|symbol|)
    requires t == " " + path + " `" + symbol + "` --" + end
    requires if change == [] then end == [] else end == " " + change && !IsSpace(change[0])
    ensures ParseAnchor(t) == Some(Anchor(path, symbol, change))
  {
    hide ParseAnchor, ParseSymbol, SymbolEnd, SpaceEnd, WordEnd, PathShape, At, Standing, IsSpace;
    PartsStand(path, symbol, end, t);
    PathStands(path, symbol, end, t);
    SymbolStands(path, symbol, end, change, t);
    SymbolRead(path, symbol, end, change, t);
    PathRead(path, symbol, end, t);
  }

  lemma SymbolRead(path: string, symbol: string, end: string, change: string, t: string)
    requires Standing(path, symbol, end, t)
    requires var q, e := 1 + |path|, 3 + |path| + |symbol|;
      && SpaceEnd(t, q) == q + 1 && SymbolEnd(t, q + 2) == Some(e) && SpaceEnd(t, e + 1) == e + 2
      && t[SpaceEnd(t, e + 4)..] == change
    ensures ParseSymbol(t, 1 + |path|, path) == Some(Anchor(path, symbol, change))
  {
    hide SpaceEnd, SymbolEnd;
    var q, e := 1 + |path|, 3 + |path| + |symbol|;
    assert At(t, q + 1, "`") && At(t, e, "`") && At(t, e + 2, "--");
  }

  lemma PathRead(path: string, symbol: string, end: string, t: string)
    requires Standing(path, symbol, end, t) && |path| > |ROOT| + 3
    requires Tick(t, SpaceEnd(t, 0)) == 1 && At(t, 1, ROOT)
    requires WordEnd(t, 1 + |ROOT|) == |path| - 2 && At(t, |path| - 2, ".py")
    ensures ParseAnchor(t) == ParseSymbol(t, 1 + |path|, path)
  {
    hide SpaceEnd, WordEnd, ParseSymbol, At;
    assert Tick(t, 1 + |path|) == 1 + |path|;
  }

  lemma ChangeAt(t: string, i: nat, end: string, change: string)
    requires i <= |t| && t[i..] == end
    requires if change == [] then end == [] else end == " " + change && !IsSpace(change[0])
    ensures t[SpaceEnd(t, i)..] == change
  {
    if change != [] {
      assert t[i] == end[0] && t[i + 1] == end[1];
      SpaceEndIs(t, i, i + 1);
      assert t[i + 1..] == end[1..];
    } else {
      SpaceEndIs(t, i, i);
    }
  }

  /** The path is found where it was printed. */
  lemma PathAt(t: string, path: string)
    requires PathShape(path) && |t| > 1 + |path| && t[0] == ' '
    requires forall j :: 0 <= j < |path| ==> t[1 + j] == path[j]
    ensures Tick(t, SpaceEnd(t, 0)) == 1 && At(t, 1, ROOT)
    ensures WordEnd(t, 1 + |ROOT|) == |path| - 2 && At(t, |path| - 2, ".py")
  {
    assert forall j :: 0 <= j < |ROOT| ==> path[j] == ROOT[j] by {
      forall j | 0 <= j < |ROOT| ensures path[j] == ROOT[j] {
        assert path[..|ROOT|][j] == path[j];
      }
    }
    assert t[1] == ROOT[0];
    SpaceEndIs(t, 0, 1);
    assert path[|path| - 3..][0] == '.' && path[|path| - 3..][1] == 'p' && path[|path| - 3..][2] == 'y';
    forall m | 1 + |ROOT| <= m < |path| - 2 ensures IsWord(t[m]) {
      assert t[1 + (m - 1)] == path[m - 1];
    }
    WordEndIs(t, 1 + |ROOT|, |path| - 2);
  }

  /** What a box with these digits and this text after it makes of a line. */
  lemma BoxedStep(digits: string, rest: string, t: string)
    requires digits != [] && AllDigits(digits) && t == "    " + digits + ". [ ]" + rest
    ensures StepOf(t) == Assembled(digits, ' ', rest)
  {
    hide Assembled;
    var b := 4 + |digits|;
    assert t == "    " + digits + (". [ ]" + rest);
    Cut("    ", digits, ". [ ]" + rest);
    assert t[b..] == ". [ ]" + rest;
    assert t[b] == '.' && t[b + 1] == ' ' && t[b + 2] == '[' && t[b + 3] == ' ' && t[b + 4] == ']' by {
      assert forall k :: 0 <= k < 5 ==> t[b + k] == (". [ ]" + rest)[k];
    }
    forall j | 4 <= j < b ensures IsDigit(t[j]) {
      assert t[4..b][j - 4] == digits[j - 4] && digits[j - 4] in digits;
    }
    BoxIs(t, 4, b, b + 2);
    assert t[b + 5..] == rest by {
      assert (". [ ]" + rest)[5..] == rest;
    }
  }

  lemma AssembledBack(step: Step)
    requires WellFormed(step)
    ensures TrimRight(Tail(step)) != [] && Assembled(Decimal(step.number), ' ', TrimRight(Tail(step))) == Some(step)
  {
    hide ParseAnchor, TrimRight, Tail;
    AnchorOfTail(step);
    ParseDecimal(step.number);
  }

  /** Printing a step and reading the line back gives the step. */
  lemma StepRoundTrip(step: Step)
    requires WellFormed(step)
    ensures StepMatch(StepLine(step)) == Some(step)
    ensures TrimRight(StepLine(step)) != [] && TrimRight(StepLine(step))[0] == ' '
  {
    hide StepOf, Assembled, WellFormed, TrimRight;
    var box := "    " + Decimal(step.number) + ". [ ]";
    AssembledBack(step);
    assert StepLine(step) == box + Tail(step);
    TrimRightAppend(box, Tail(step));
    BoxedStep(Decimal(step.number), TrimRight(Tail(step)), box + TrimRight(Tail(step)));
  }

  lemma PathIsOneLine(path: string)
    requires PathShape(path)
    ensures forall c :: c in path ==> !IsBreak(c)
  {
    forall i | 0 <= i < |path| ensures !IsBreak(path[i]) {
      if i < |ROOT| {
        assert path[..|ROOT|][i] == path[i];
      } else if i >= |path| - 3 {
        assert path[|path| - 3..][i - (|path| - 3)] == path[i];
      }
    }
  }

  lemma SymbolIsOneLine(symbol: string)
    requires SymbolEnd(symbol + "`", 0) == Some(|symbol|)
    ensures forall c :: c in symbol ==> !IsBreak(c)
  {
    var u := symbol + "`";
    forall i | 0 <= i < |symbol| ensures !IsBreak(symbol[i]) {
      assert u[i] == symbol[i];
      assert forall m :: 0 <= m < WordEnd(u, 0) ==> IsWord(u[m]);
      if i > WordEnd(u, 0) {
        assert IsWord(u[i]);
      }
    }
  }

  lemma DecimalIsOneLine(n: nat)
    ensures forall c :: c in Decimal(n) ==> !IsBreak(c)
  {
    assert forall c :: c in Decimal(n) ==> IsDigit(c);
  }

  /** A printed step is one line. */
  lemma StepLineIsOneLine(step: Step)
    requires WellFormed(step)
    ensures forall c :: c in StepLine(step) ==> !IsBreak(c)
  {
    hide PathShape, SymbolEnd, Decimal;
    PathIsOneLine(step.path);
    SymbolIsOneLine(step.symbol);
    DecimalIsOneLine(step.number);
  }
}
