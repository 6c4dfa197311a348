/** Planned steps in the backlog. */
module BacklogPlan {
  // When planned steps come back as written: `write_planned_steps` in
  // src/evomesh/codebase.py, on the text of the file.

  import opened Options
  import opened Text
  import opened BacklogLines
  import opened Backlog
  import opened BacklogEdits
  import opened BacklogAppend

  /** The line the steps are written after, for the item at `i`. */
  function AnchorLine(lines: seq<string>, i: nat): string
    requires i < |lines|
  {
    lines[i + Prose(lines[i + 1..])]
  }

  /** The line already ends in a newline, or in nothing: no other line break is in the way. */
  predicate EndsClean(line: string) {
    line == [] || line[|line| - 1] == '\n' || !Terminated(line)
  }

  predicate AllBlank(lines: seq<string>) {
    forall i :: 0 <= i < |lines| ==> TrimRight(lines[i]) == []
  }

  /** The rest of the item's block, from the blank line on that ends its first paragraph. */
  function AfterProse(lines: seq<string>, i: nat): seq<string>
    requires i < |lines|
  {
    var after := lines[i + 1..];
    var p, n := Prose(after), BlockLength(after);
    if p <= n then after[p..n] else []
  }

  /** The lines of the written text when the line before the steps ends in another break. */
  function PlannedApart(lines: seq<string>, i: nat, steps: seq<Step>): seq<string>
    requires i < |lines|
  {
    var end := i + 1 + Prose(lines[i + 1..]);
    lines[..end] + ["\n"] + StepLines(steps) + lines[end..]
  }

  // ---- the written text splits into the planned lines ----

  lemma {:induction false} StepLinesWellLined(steps: seq<Step>)
    requires forall s :: s in steps ==> WellFormed(s)
    ensures |StepLines(steps)| == |steps|
    ensures WellLined(StepLines(steps)) && (steps != [] ==> Terminated(StepLines(steps)[|steps| - 1]))
  {
    hide WellFormed, StepLines, Newlined;
    PrintedNewlined(steps);
    PrintedOneLine(steps);
    PrintedLength(steps);
    NewlinedWellLined(Printed(steps));
  }

  lemma {:induction false} PrintedLength(steps: seq<Step>)
    ensures |Printed(steps)| == |steps|
  {
    hide StepLine;
    if steps != [] {
      PrintedLength(steps[1..]);
    }
  }

  lemma WellLinedCut(lines: seq<string>, end: nat)
    requires WellLined(lines) && 0 < end <= |lines|
    ensures WellLined(lines[..end]) && WellLined(lines[end..])
    ensures end < |lines| ==> Terminated(lines[end - 1])
  {
    hide IsLine, Terminated;
  }

  lemma ThreeWellLined(a: seq<string>, b: seq<string>, c: seq<string>)
    requires WellLined(a) && WellLined(b) && WellLined(c)
    requires (a != [] ==> Terminated(a[|a| - 1])) && (b != [] ==> Terminated(b[|b| - 1]))
    ensures WellLined(a + b + c)
  {
    hide IsLine, Terminated, WellLined;
    WellLinedAppend(a, b);
    WellLinedAppend(a + b, c);
  }

  lemma CleanEnd(lines: seq<string>)
    requires WellLined(lines) && lines != [] && EndsClean(lines[|lines| - 1])
    ensures WellLined(EndLast(lines)) && Terminated(EndLast(lines)[|lines| - 1])
  {
    hide WellLined, IsBreak;
    var last := lines[|lines| - 1];
    if Terminated(last) {
      assert EndLast(lines) == lines;
    } else {
      EndLastWellLined(lines);
    }
  }

  lemma {:induction false} CleanRoundTrip(text: string, i: nat, steps: seq<Step>)
    requires i < |KeepLines(text)| && (forall s :: s in steps ==> WellFormed(s))
    requires EndsClean(AnchorLine(KeepLines(text), i))
    ensures var after := Planned(KeepLines(text), i, steps); KeepLines(Flatten(after)) == after
  {
    hide KeepLines, Flatten, WellFormed, StepLines, Prose, WellLined, EndLast, Terminated, EndsClean;
    var lines := KeepLines(text);
    KeepLinesWellLined(text);
    var end := i + 1 + Prose(lines[i + 1..]);
    WellLinedCut(lines, end);
    CleanEnd(lines[..end]);
    StepLinesWellLined(steps);
    ThreeWellLined(EndLast(lines[..end]), StepLines(steps), lines[end..]);
    SplitJoined(Planned(lines, i, steps));
  }

  lemma NotClean(line: string)
    requires !EndsClean(line)
    ensures Terminated(line) && Ended(line) == line + "\n"
  {
  }

  lemma {:induction false} ApartSplits(a: seq<string>, b: seq<string>, c: seq<string>)
    requires WellLined(a) && WellLined(b) && WellLined(c)
    requires a != [] && !EndsClean(a[|a| - 1]) && (b != [] ==> Terminated(b[|b| - 1]))
    ensures KeepLines(Flatten(a + ["\n"] + b + c)) == a + ["\n"] + b + c
    ensures Flatten(a + ["\n"] + b + c) == Flatten(EndLast(a) + b + c)
  {
    hide KeepLines, Flatten, WellLined, Terminated, EndLast, EndsClean, Ended;
    NotClean(a[|a| - 1]);
    BlankWellLined(a);
    ThreeWellLined(a + ["\n"], b, c);
    SplitJoined(a + ["\n"] + b + c);
    FlatApart(a, b, c);
  }

  lemma {:induction false} ApartRoundTrip(text: string, i: nat, steps: seq<Step>)
    requires i < |KeepLines(text)| && (forall s :: s in steps ==> WellFormed(s))
    requires !EndsClean(AnchorLine(KeepLines(text), i))
    ensures var after := PlannedApart(KeepLines(text), i, steps);
      KeepLines(Flatten(after)) == after && Flatten(after) == Flatten(Planned(KeepLines(text), i, steps))
  {
    hide KeepLines, Flatten, WellFormed, StepLines, Prose, WellLined, Terminated, EndLast, EndsClean;
    var lines := KeepLines(text);
    KeepLinesWellLined(text);
    var end := i + 1 + Prose(lines[i + 1..]);
    WellLinedCut(lines, end);
    StepLinesWellLined(steps);
    ApartSplits(lines[..end], StepLines(steps), lines[end..]);
  }

  /** A newline added to the last line, or as a line of its own: the text is the same. */
  lemma FlatApart(a: seq<string>, b: seq<string>, c: seq<string>)
    requires a != [] && Ended(a[|a| - 1]) == a[|a| - 1] + "\n"
    ensures Flatten(a + ["\n"] + b + c) == Flatten(EndLast(a) + b + c)
  {
    hide Ended, Flatten;
    var front, last := a[..|a| - 1], a[|a| - 1];
    assert a == front + [last];
    FlattenLast(front, last);
    FlattenLast(front, last + "\n");
    FlattenLast(a, "\n");
    assert Flatten(front) + last + "\n" == Flatten(front) + (last + "\n");
    FlattenAppend(a + ["\n"], b);
    FlattenAppend(EndLast(a), b);
    FlattenAppend(a + ["\n"] + b, c);
    FlattenAppend(EndLast(a) + b, c);
  }

  // ---- a blank line in the middle of a detail ----

  lemma StripIsTrimmed(s: string)
    requires TrimRight(s) != []
    ensures Trimmed(Strip(s))
  {
    hide IsSpace;
    var t := TrimRight(s);
    LeavesSomething(t);
    var u := TrimLeft(t);
    assert u[|u| - 1] == t[|t| - 1];
  }

  lemma {:induction false} LeavesSomething(t: string)
    requires t != [] && !IsSpace(t[|t| - 1])
    ensures TrimLeft(t) != []
  {
    hide IsSpace;
    if IsSpace(t[0]) {
      LeavesSomething(t[1..]);
    }
  }

  lemma StripKeepsHead(a: string, b: string)
    requires a != [] && !IsSpace(a[0]) && TrimRight(b) != []
    ensures Strip(a + b) == a + TrimRight(b)
  {
    hide IsSpace, TrimRight;
    TrimRightAppend(a, b);
    assert (a + TrimRight(b))[0] == a[0];
  }

  lemma {:induction false} JoinedTwo(a: seq<string>, b: seq<string>)
    requires a != [] && b != []
    ensures Joined(a + b) == Joined(a) + "\n" + Joined(b)
  {
    assert (a + b)[0] == a[0] && (a + b)[1..] == a[1..] + b;
    if |a| == 1 {
      assert a[1..] + b == b;
    } else {
      JoinedTwo(a[1..], b);
      assert a[0] + "\n" + (Joined(a[1..]) + "\n" + Joined(b)) == a[0] + "\n" + Joined(a[1..]) + "\n" + Joined(b);
    }
  }

  lemma NotAllSpace(s: string, i: nat)
    requires i < |s| && !IsSpace(s[i])
    ensures TrimRight(s) != []
  {
    hide IsSpace;
  }

  lemma {:induction false} JoinedHolds(parts: seq<string>, k: nat)
    requires k < |parts| && Trimmed(parts[k])
    ensures TrimRight(Joined(parts)) != []
  {
    hide IsSpace, TrimRight;
    if |parts| == 1 {
      NotAllSpace(parts[0], 0);
    } else if k == 0 {
      NotAllSpace(Joined(parts), 0);
    } else {
      JoinedHolds(parts[1..], k - 1);
      var head := parts[0] + "\n";
      TrimRightAppend(head, Joined(parts[1..]));
    }
  }

  /** A blank part between text and text shows. */
  lemma {:induction false} BlankShows(a: seq<string>, b: seq<string>, k: nat)
    requires a != [] && Trimmed(a[0]) && k < |b| && Trimmed(b[k])
    ensures Strip(Joined(a + [""] + b)) != Strip(Joined(a + b))
  {
    hide Trimmed, IsSpace, TrimRight, TrimLeft, Joined, Strip;
    var ja, jb := Joined(a), Joined(b);
    JoinedTwo(a, b);
    JoinedTwo(a + [""], b);
    JoinedSnoc(a, "");
    JoinedHolds(b, k);
    JoinedStarts(a);
    StripKeepsHead(ja + "\n", jb);
    assert ja + "\n" + "" + "\n" == ja + "\n" + "\n";
    StripKeepsHead(ja + "\n" + "\n", jb);
    assert |ja + "\n" + "\n" + TrimRight(jb)| > |ja + "\n" + TrimRight(jb)|;
  }

  lemma JoinedStarts(a: seq<string>)
    requires a != [] && Trimmed(a[0])
    ensures Joined(a) != [] && !IsSpace(Joined(a)[0])
  {
    hide IsSpace;
  }

  lemma {:induction false} BlankTailVanishes(a: seq<string>, blanks: seq<string>)
    requires forall i :: 0 <= i < |blanks| ==> blanks[i] == ""
    ensures Strip(Joined(a + blanks)) == Strip(Joined(a))
    decreases |blanks|
  {
    hide Strip, Joined;
    if blanks == [] {
      assert a + blanks == a;
    } else {
      var front := blanks[..|blanks| - 1];
      BlankTailVanishes(a, front);
      assert a + blanks == (a + front) + [""];
      JoinedBlank(a + front);
    }
  }

  lemma BlankHeadVanishes(b: seq<string>)
    ensures Strip(Joined([""] + b)) == Strip(Joined(b))
  {
    hide IsSpace, TrimRight;
    if b == [] {
      assert [""] + b == [""];
    } else {
      var j := Joined(b);
      assert ([""] + b)[1..] == b;
      assert Joined([""] + b) == "\n" + j;
      NewlineIsSpace();
      if TrimRight(j) == [] {
        AllSpaceTrims(j);
        AllSpaceTrims("\n" + j);
      } else {
        TrimRightAppend("\n", j);
        assert ("\n" + TrimRight(j))[1..] == TrimRight(j);
      }
    }
  }

  lemma AllSpaceTrims(s: string)
    requires forall i :: 0 <= i < |s| ==> IsSpace(s[i])
    ensures TrimRight(s) == []
  {
    hide IsSpace;
    TrimRightIs(s, 0);
  }

  /** What a paragraph reads as: its lines stripped, none of them empty. */
  lemma {:induction false} StepLessDetails(block: seq<string>)
    requires Steps(block) == []
    ensures |Details(block)| == |block|
  {
    hide StepMatch, Strip;
    if block != [] {
      assert StepMatch(block[0]).None?;
      StepLessDetails(block[1..]);
    }
  }

  lemma {:induction false} DetailAt(block: seq<string>, i: nat)
    requires Steps(block) == [] && i < |block|
    ensures |Details(block)| == |block| && Details(block)[i] == Strip(block[i])
  {
    hide StepMatch, Strip;
    StepLessDetails(block);
    if i > 0 {
      DetailAt(block[1..], i - 1);
    }
  }

  lemma {:induction false} ProseIsText(lines: seq<string>)
    ensures forall i :: 0 <= i < Prose(lines) ==> TrimRight(lines[i]) != []
  {
    hide TrimRight, Continues;
    if lines != [] {
      ProseIsText(lines[1..]);
    }
  }

  lemma StripBlank(s: string)
    requires TrimRight(s) == []
    ensures Strip(s) == []
  {
  }

  /** Whether a blank line between the first paragraph and the rest shows in the detail. */
  lemma BlankBetween(prose: seq<string>, more: seq<string>)
    requires Steps(prose + more) == [] && forall k :: 0 <= k < |prose| ==> TrimRight(prose[k]) != []
    ensures Strip(Joined(Details(prose) + [""] + Details(more))) == Strip(Joined(Details(prose) + Details(more)))
      <==> prose == [] || AllBlank(more)
  {
    hide Joined, Strip, TrimRight, Details, Steps;
    PartsAppend(prose, more);
    assert Steps(prose) == [] && Steps(more) == [];
    StepLessDetails(prose);
    StepLessDetails(more);
    var a, b := Details(prose), Details(more);
    if prose == [] {
      assert a == [] && a + [""] + b == [""] + b && a + b == b;
      BlankHeadVanishes(b);
    } else if AllBlank(more) {
      forall i | 0 <= i < |b| ensures b[i] == "" {
        DetailAt(more, i);
        StripBlank(more[i]);
      }
      BlankTailVanishes(a, b);
      assert forall i :: 0 <= i < |[""] + b| ==> ([""] + b)[i] == "";
      BlankTailVanishes(a, [""] + b);
      Regroup(a, [""], b);
    } else {
      var k :| 0 <= k < |more| && TrimRight(more[k]) != [];
      DetailAt(prose, 0);
      DetailAt(more, k);
      StripIsTrimmed(prose[0]);
      StripIsTrimmed(more[k]);
      BlankShows(a, b, k);
    }
  }

  // ---- the theorem ----

  /** The item when a blank line got between its first paragraph and its new steps. */
  lemma {:induction false} ApartBlock(title: string, prose: seq<string>, more: seq<string>, steps: seq<Step>)
    requires Steps(prose + more) == [] && (forall s :: s in steps ==> WellFormed(s))
    requires forall k :: 0 <= k < |prose| ==> TrimRight(prose[k]) != []
    ensures ParseItem(title, prose + ["\n"] + StepLines(steps) + more) == ParseItem(title, prose + more).(steps := steps)
      <==> prose == [] || AllBlank(more)
  {
    hide Joined, Strip, TrimRight, Details, Steps, WellFormed, StepLines;
    BlankBetween(prose, more);
    StepLinesParse(steps);
    BlankParts();
    PartsAppend(prose, more);
    PartsAppend(prose, ["\n"]);
    PartsAppend(prose + ["\n"], StepLines(steps));
    PartsAppend(prose + ["\n"] + StepLines(steps), more);
    var d := Details(prose) + [""];
    assert d + [] + Details(more) == d + Details(more);
    assert Steps(prose) == [] && Steps(more) == [];
    assert [] + [] + steps + [] == steps;
  }

  lemma ApartContinues(prose: seq<string>, more: seq<string>, steps: seq<Step>)
    requires forall s :: s in steps ==> WellFormed(s)
    requires (forall k :: 0 <= k < |prose| ==> Continues(prose[k])) && (forall k :: 0 <= k < |more| ==> Continues(more[k]))
    ensures var block := prose + ["\n"] + StepLines(steps) + more; forall k :: 0 <= k < |block| ==> Continues(block[k])
  {
    hide Continues, WellFormed, StepLines, StepMatch, Strip, OpenTitle;
    BlankContinues();
    StepLinesParse(steps);
  }

  lemma {:induction false} ApartLines(lines: seq<string>, i: nat, steps: seq<Step>, prose: seq<string>, more: seq<string>, rest: seq<string>)
    requires Split(lines, i, prose, more, rest)
    ensures PlannedApart(lines, i, steps) == lines[..i] + ([lines[i]] + (prose + ["\n"] + StepLines(steps) + more) + rest)
  {
    hide StepLines, Prose, Continues;
    var end := i + 1 + |prose|;
    assert lines == lines[..i] + [lines[i]] + lines[i + 1..];
    assert lines[..end] == lines[..i] + [lines[i]] + prose && lines[end..] == more + rest;
    ApartRegroup(lines[..i], [lines[i]], prose, ["\n"] + StepLines(steps), more, rest);
    Regroup(lines[..end], ["\n"], StepLines(steps));
    Regroup(prose, ["\n"], StepLines(steps));
  }

  lemma ApartRegroup(a: seq<string>, h: seq<string>, p: seq<string>, w: seq<string>, m: seq<string>, r: seq<string>)
    ensures (a + h + p) + w + (m + r) == a + (h + (p + w + m) + r)
  {
    Regroup(a + h + p + w, m, r);
    Regroup(a, h + (p + w + m), r);
    Regroup(a, h, p + w + m);
    Regroup(a + h, p + w, m);
    Regroup(a + h, p, w);
  }

  lemma {:induction false} ApartItems(lines: seq<string>, title: string, steps: seq<Step>)
    requires ItemAt(lines, title) < |lines| && forall s :: s in steps ==> WellFormed(s)
    requires Steps(lines[ItemAt(lines, title) + 1..][..BlockLength(lines[ItemAt(lines, title) + 1..])]) == []
    ensures Items(PlannedApart(lines, ItemAt(lines, title), steps)) == WithSteps(Items(lines), title, steps)
      <==> Prose(lines[ItemAt(lines, title) + 1..]) == 0 || AllBlank(AfterProse(lines, ItemAt(lines, title)))
  {
    hide OpenTitle, Continues, ParseItem, Items, WellFormed, StepLines, Steps, TrimRight, PlannedApart, AllBlank, Prose, BlockLength;
    var i := ItemAt(lines, title);
    ItemAtIsFirst(lines, title);
    var prose, more, rest := SplitAt(lines, i);
    MoreIsAfter(lines, i, prose, more, rest);
    ProseIsText(lines[i + 1..]);
    ApartLines(lines, i, steps, prose, more, rest);
    ApartContinues(prose, more, steps);
    OldChunk(lines[..i], lines[i], prose, more, rest, lines);
    ChunkReads(lines[..i], lines[i], title, prose + more, rest, lines);
    var block' := prose + ["\n"] + StepLines(steps) + more;
    ChunkReads(lines[..i], lines[i], title, block', rest, PlannedApart(lines, i, steps));
    NotListedBefore(lines, title, i);
    TitleOf(title, prose + more);
    var item, item' := ParseItem(title, prose + more), ParseItem(title, block');
    WithStepsMiddle(Items(lines[..i]), item, Items(rest), title, steps);
    ApartBlock(title, prose, more, steps);
    SameMiddle(Items(lines[..i]), item', item.(steps := steps), Items(rest));
  }

  lemma MoreIsAfter(lines: seq<string>, i: nat, prose: seq<string>, more: seq<string>, rest: seq<string>)
    requires Split(lines, i, prose, more, rest)
    requires lines[i + 1..][..BlockLength(lines[i + 1..])] == prose + more
    ensures AfterProse(lines, i) == more
    ensures forall k :: 0 <= k < |prose| ==> prose[k] == lines[i + 1..][k]
  {
    hide Continues, Prose, BlockLength;
    var after := lines[i + 1..];
    var n := BlockLength(after);
    assert after[..n][|prose|..] == more && after[..n][|prose|..] == after[|prose|..n];
  }

  lemma SameMiddle<T>(a: seq<T>, x: T, y: T, c: seq<T>)
    ensures a + [x] + c == a + [y] + c <==> x == y
  {
    assert (a + [x] + c)[|a|] == x && (a + [y] + c)[|a|] == y;
  }

  /** Writing planned steps under a stepless item gives that item exactly those steps and
      changes no other, if and only if the line they follow ends in a newline or is the
      last, or is the item's own line, or nothing but blank lines of the item come after.
      (Otherwise a line break other than a newline becomes a blank line in the detail.) */
  lemma PlannedText(text: string, title: string, steps: seq<Step>)
    requires ItemAt(KeepLines(text), title) < |KeepLines(text)| && forall s :: s in steps ==> WellFormed(s)
    requires var i := ItemAt(KeepLines(text), title); var after := KeepLines(text)[i + 1..];
      Steps(after[..BlockLength(after)]) == []
    ensures var lines := KeepLines(text); var i := ItemAt(lines, title);
      Listed(Flatten(Planned(lines, i, steps))) == WithSteps(Listed(text), title, steps) <==>
        EndsClean(AnchorLine(lines, i)) || Prose(lines[i + 1..]) == 0 || AllBlank(AfterProse(lines, i))
  {
    hide KeepLines, Flatten, Items, Listed, Planned, PlannedApart, EndsClean, AnchorLine, Prose, BlockLength, AfterProse, AllBlank, WellFormed, Steps, WithSteps;
    var lines := KeepLines(text);
    var i := ItemAt(lines, title);
    ListedKeep(text);
    ListedKeep(Flatten(Planned(lines, i, steps)));
    if EndsClean(AnchorLine(lines, i)) {
      CleanRoundTrip(text, i, steps);
      PlanAddsSteps(lines, title, steps);
    } else {
      ApartRoundTrip(text, i, steps);
      ApartItems(lines, title, steps);
    }
  }

  // ---- a text it fails on ----

  /** A detail line that ends in a form feed, a blank line, and more detail. */
  function FormFed(): seq<string> {
    ["- [ ] t\n", "    a\U{C}", "\n", "    b\n"]
  }

  lemma FormFedShapes()
    ensures var lines := FormFed(); WellLined(lines) && OpenTitle(lines[0]) == Some("t") && !EndsClean(lines[1])
    ensures var after := FormFed()[1..];
      && (forall i :: 0 <= i < 3 ==> Continues(after[i]) && StepMatch(after[i]).None?)
      && TrimRight(after[0]) != [] && TrimRight(after[1]) == [] && TrimRight(after[2]) != []
  {
    hide TrimRight, OpenTitle, Continues, StepMatch;
    HeadShape();
    DetailShape("    a\U{C}", 4, 5);
    DetailShape("\n", 0, 0);
    DetailShape("    b\n", 4, 5);
  }

  lemma HeadShape()
    ensures OpenTitle("- [ ] t\n") == Some("t")
  {
    TrimRightIs("- [ ] t\n", 7);
    var t := "- [ ] t\n"[..7];
    LeadingBlanksIs(t, 0);
    assert t[6..] == "t";
  }

  /** Blanks and then no dash and no digit: neither an item nor a step. */
  lemma DetailShape(line: string, a: nat, n: nat)
    requires a <= n <= |line| && (n == 0 || !IsSpace(line[n - 1])) && (forall i :: n <= i < |line| ==> IsSpace(line[i]))
    requires forall m :: 0 <= m < a ==> line[m] == ' '
    requires if a < n then a > 0 && !IsSpace(line[a]) && !IsDigit(line[a]) && line[a] != '-' else a == 0
    ensures Continues(line) && StepMatch(line).None? && |TrimRight(line)| == n
  {
    hide TrimRight, BoxAt, IsSpace, IsDigit;
    TrimRightIs(line, n);
    var t := line[..n];
    assert !IsSpace('-') && IsSpace(' ') by {
      BlankIsSpace();
    }
    LeadingBlanksIs(t, a);
    NoNumberNoStep(t, a);
  }

  lemma BlankIsSpace()
    ensures !IsSpace('-') && IsSpace(' ')
  {
  }

  lemma NoNumberNoStep(t: string, a: nat)
    requires a <= |t| && (forall m :: 0 <= m < a ==> t[m] == ' ')
    requires a < |t| ==> !IsSpace(t[a]) && !IsDigit(t[a])
    ensures StepOf(t).None?
  {
    SpaceEndIs(t, 0, a);
  }

  /** Steps planned under this item are read back, but a blank line has come into its detail. */
  lemma PlannedShowsTheBreak(steps: seq<Step>)
    requires forall s :: s in steps ==> WellFormed(s)
    ensures var text := Flatten(FormFed()); var lines := KeepLines(text);
      && lines == FormFed() && ItemAt(lines, "t") == 0
      && Steps(lines[1..][..BlockLength(lines[1..])]) == []
      && Listed(Flatten(Planned(lines, 0, steps))) != WithSteps(Listed(text), "t", steps)
  {
    hide KeepLines, Flatten, Listed, Planned, WithSteps, StepMatch, TrimRight, OpenTitle, Continues, EndsClean, WellFormed, IsBreak, WellLined;
    FormFedShapes();
    SplitJoined(FormFed());
    var lines := FormFed();
    var after := lines[1..];
    BlockLengthIs(after, []);
    assert after + [] == after && after[..3] == after;
    assert Steps(after[3..]) == [] && Steps(after[2..]) == [] && Steps(after[1..]) == [] && Steps(after) == [];
    assert Prose(after[1..]) == 0 && Prose(after) == 1;
    assert AfterProse(lines, 0) == after[1..3] && after[1..3][1] == after[2];
    PlannedText(Flatten(lines), "t", steps);
  }
}
