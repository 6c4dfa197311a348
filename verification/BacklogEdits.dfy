/** Dropping items, writing planned steps and appending an item, on lines
    (src/evomesh/codebase.py). */
module BacklogEdits {
  import opened Options
  import opened Text
  import opened BacklogLines
  import opened Backlog

  // ---- lines that differ in trailing space only ----

  lemma SameTail(a: seq<string>, b: seq<string>, n: nat)
    requires SameTrimmed(a, b) && n <= |a|
    ensures SameTrimmed(a[n..], b[n..]) && SameTrimmed(a[..n], b[..n])
  {
    hide TrimRight;
    forall i | 0 <= i < |a| - n ensures TrimRight(a[n..][i]) == TrimRight(b[n..][i]) {
      assert a[n..][i] == a[n + i] && b[n..][i] == b[n + i];
    }
  }

  lemma SameLine(a: string, b: string)
    requires TrimRight(a) == TrimRight(b)
    ensures OpenTitle(a) == OpenTitle(b) && Continues(a) == Continues(b)
    ensures StepMatch(a) == StepMatch(b) && Strip(a) == Strip(b)
  {
    hide StepOf, TrimRight, TrimLeft;
  }

  lemma {:induction false} SameBlock(a: seq<string>, b: seq<string>)
    requires SameTrimmed(a, b)
    ensures Details(a) == Details(b) && Steps(a) == Steps(b) && BlockLength(a) == BlockLength(b)
  {
    hide StepMatch, Continues, TrimRight, Strip;
    if a != [] {
      SameLine(a[0], b[0]);
      SameTail(a, b, 1);
      SameBlock(a[1..], b[1..]);
    }
  }

  /** Trailing space never changes what a file lists. */
  lemma {:induction false} SameItems(a: seq<string>, b: seq<string>)
    requires SameTrimmed(a, b)
    ensures Items(a) == Items(b)
    decreases |a|
  {
    hide OpenTitle, Continues, TrimRight;
    if a != [] {
      SameLine(a[0], b[0]);
      SameTail(a, b, 1);
      if OpenTitle(a[0]).Some? {
        SameBlock(a[1..], b[1..]);
        var n := BlockLength(a[1..]);
        SameTail(a[1..], b[1..], n);
        SameBlock(a[1..][..n], b[1..][..n]);
        SameItems(a[1..][n..], b[1..][n..]);
      } else {
        SameItems(a[1..], b[1..]);
      }
    }
  }

  // ---- drop_improvements ----

  /** The lines kept, given whether the scan is inside a dropped item. */
  function Dropped(lines: seq<string>, titles: set<string>, skipping: bool): seq<string> {
    if lines == [] then []
    else
      var skip := if OpenTitle(lines[0]).Some? then OpenTitle(lines[0]).value in titles
                  else skipping && Continues(lines[0]);
      if skip then Dropped(lines[1..], titles, true) else [lines[0]] + Dropped(lines[1..], titles, false)
  }

  /** The list without the items of these titles. */
  function Kept(items: seq<Improvement>, titles: set<string>): seq<Improvement> {
    if items == [] then []
    else if items[0].title in titles then Kept(items[1..], titles)
    else [items[0]] + Kept(items[1..], titles)
  }

  lemma {:induction false} DroppedBlock(block: seq<string>, rest: seq<string>, titles: set<string>, skipping: bool)
    requires Fresh(rest) && forall i :: 0 <= i < |block| ==> Continues(block[i])
    ensures Dropped(block + rest, titles, skipping) == (if skipping then [] else block) + Dropped(rest, titles, false)
  {
    hide IsDone;
    if block == [] {
      assert block + rest == rest;
      DroppedFresh(rest, titles, skipping);
    } else {
      assert Continues(block[0]) && OpenTitle(block[0]).None?;
      var all := block + rest;
      assert all[0] == block[0] && all[1..] == block[1..] + rest;
      DroppedBlock(block[1..], rest, titles, skipping);
    }
  }

  lemma DroppedFresh(rest: seq<string>, titles: set<string>, skipping: bool)
    requires Fresh(rest)
    ensures Dropped(rest, titles, skipping) == Dropped(rest, titles, false)
  {
    hide OpenTitle, Continues;
  }

  lemma DroppedHead(head: string, tail: seq<string>, titles: set<string>)
    requires OpenTitle(head).Some?
    ensures Dropped([head] + tail, titles, false) ==
      if OpenTitle(head).value in titles then Dropped(tail, titles, true) else [head] + Dropped(tail, titles, false)
  {
    hide OpenTitle, Continues;
    var lines := [head] + tail;
    assert lines[0] == head && lines[1..] == tail;
  }

  lemma Regroup<T>(a: seq<T>, b: seq<T>, c: seq<T>)
    ensures a + b + c == a + (b + c)
  {
  }

  lemma {:induction false} DroppedChunk(head: string, block: seq<string>, rest: seq<string>, titles: set<string>)
    requires OpenTitle(head).Some? && Fresh(rest) && forall i :: 0 <= i < |block| ==> Continues(block[i])
    ensures Dropped([head] + block + rest, titles, false) ==
      if OpenTitle(head).value in titles then Dropped(rest, titles, false) else [head] + block + Dropped(rest, titles, false)
  {
    hide OpenTitle, Continues, Dropped;
    var own := OpenTitle(head).value in titles;
    DroppedBlock(block, rest, titles, own);
    DroppedHead(head, block + rest, titles);
    Regroup([head], block, rest);
    if own {
      Regroup([], [], Dropped(rest, titles, false));
    } else {
      Regroup([head], block, Dropped(rest, titles, false));
    }
  }

  /** What is kept of lines where nothing runs on again starts fresh. */
  lemma {:induction false} DroppedStaysFresh(lines: seq<string>, titles: set<string>)
    requires Fresh(lines)
    ensures Fresh(Dropped(lines, titles, false))
    decreases |lines|
  {
    hide OpenTitle, Continues;
    if lines != [] && OpenTitle(lines[0]).Some? && OpenTitle(lines[0]).value in titles {
      var block, rest := ChunkAt(lines, 0);
      assert lines == [lines[0]] + block + rest;
      DroppedChunk(lines[0], block, rest, titles);
      DroppedStaysFresh(rest, titles);
    }
  }

  /** Dropping the lines of the named items drops exactly those items. */
  lemma {:induction false} DropDrops(lines: seq<string>, titles: set<string>)
    ensures Items(Dropped(lines, titles, false)) == Kept(Items(lines), titles)
    decreases |lines|
  {
    hide OpenTitle, Continues, ParseItem, Items;
    if lines == [] {
      NothingListed();
    } else if OpenTitle(lines[0]).Some? {
      var block, rest := ChunkAt(lines, 0);
      assert lines == [lines[0]] + block + rest;
      DropDrops(rest, titles);
      DroppedChunk(lines[0], block, rest, titles);
      ItemsOfChunk(lines[0], block, rest);
      var item := ParseItem(OpenTitle(lines[0]).value, block);
      TitleOf(OpenTitle(lines[0]).value, block);
      assert ([item] + Items(rest))[1..] == Items(rest);
      if OpenTitle(lines[0]).value !in titles {
        DroppedStaysFresh(rest, titles);
        ItemsOfChunk(lines[0], block, Dropped(rest, titles, false));
      }
    } else {
      DropDrops(lines[1..], titles);
      SkipsHead(lines[0], lines[1..]);
      SkipsHead(lines[0], Dropped(lines[1..], titles, false));
      assert lines == [lines[0]] + lines[1..];
    }
  }

  lemma NothingListed()
    ensures Items([]) == []
  {
  }

  lemma SkipsHead(head: string, rest: seq<string>)
    requires OpenTitle(head).None?
    ensures Items([head] + rest) == Items(rest)
  {
    hide OpenTitle;
    ItemsSkip([head], rest);
  }

  // ---- write_planned_steps ----

  /** How many lines directly under an item belong to it and are not blank. */
  function Prose(lines: seq<string>): (n: nat)
    ensures n <= |lines| && (n < |lines| ==> TrimRight(lines[n]) == [] || !Continues(lines[n]))
    ensures forall i :: 0 <= i < n ==> Continues(lines[i])
  {
    if lines == [] || TrimRight(lines[0]) == [] || !Continues(lines[0]) then 0 else 1 + Prose(lines[1..])
  }

  /** `line` with a newline at its end. */
  function Ended(line: string): string {
    if line != [] && line[|line| - 1] == '\n' then line else line + "\n"
  }

  /** The lines with a newline at the end of the last one. */
  function EndLast(lines: seq<string>): (r: seq<string>)
    ensures |r| == |lines|
  {
    if lines == [] then [] else lines[..|lines| - 1] + [Ended(lines[|lines| - 1])]
  }

  function StepLines(steps: seq<Step>): seq<string> {
    if steps == [] then [] else [StepLine(steps[0]) + "\n"] + StepLines(steps[1..])
  }

  /** The lines with `steps` written under the item at `i`. */
  function Planned(lines: seq<string>, i: nat, steps: seq<Step>): seq<string>
    requires i < |lines|
  {
    var end := i + 1 + Prose(lines[i + 1..]);
    EndLast(lines[..end]) + StepLines(steps) + lines[end..]
  }

  /** The list with `steps` given to the first item of this title. */
  function WithSteps(items: seq<Improvement>, title: string, steps: seq<Step>): seq<Improvement> {
    if items == [] then []
    else if items[0].title == title then [items[0].(steps := steps)] + items[1..]
    else [items[0]] + WithSteps(items[1..], title, steps)
  }

  lemma EndedTrims(line: string)
    ensures TrimRight(Ended(line)) == TrimRight(line)
  {
    if !(line != [] && line[|line| - 1] == '\n') {
      TrimRightPad(line, '\n');
    }
  }

  lemma {:induction false} PartsAppend(a: seq<string>, b: seq<string>)
    ensures Details(a + b) == Details(a) + Details(b) && Steps(a + b) == Steps(a) + Steps(b)
  {
    hide StepMatch, Strip;
    if a == [] {
      assert a + b == b;
    } else {
      assert (a + b)[1..] == a[1..] + b && (a + b)[0] == a[0];
      PartsAppend(a[1..], b);
    }
  }

  lemma PrintedStep(step: Step)
    requires WellFormed(step)
    ensures StepMatch(StepLine(step) + "\n") == Some(step) && Continues(StepLine(step) + "\n")
  {
    hide StepMatch, StepLine, TrimRight, Continues, OpenTitle;
    var line := StepLine(step);
    StepRoundTrip(step);
    TrimRightPad(line, '\n');
    SameLine(line + "\n", line);
    StepHasBox(line);
    StepContinues(line);
  }

  lemma {:induction false} StepLinesParse(steps: seq<Step>)
    requires forall s :: s in steps ==> WellFormed(s)
    ensures Steps(StepLines(steps)) == steps && Details(StepLines(steps)) == []
    ensures forall i :: 0 <= i < |StepLines(steps)| ==> Continues(StepLines(steps)[i])
  {
    hide StepMatch, StepLine, Continues, WellFormed;
    if steps != [] {
      PrintedStep(steps[0]);
      StepLinesParse(steps[1..]);
    }
  }

  /** The item's block with the steps written into it reads as the item with the steps. */
  lemma PlannedBlock(title: string, prose: seq<string>, prose': seq<string>, more: seq<string>, steps: seq<Step>)
    requires SameTrimmed(prose, prose') && (forall s :: s in steps ==> WellFormed(s))
    requires Steps(prose + more) == []
    ensures ParseItem(title, prose' + StepLines(steps) + more) == ParseItem(title, prose + more).(steps := steps)
  {
    hide WellFormed, StepLines, Strip, Details, Steps;
    SameBlock(prose, prose');
    StepLinesParse(steps);
    PartsAppend(prose, more);
    PartsAppend(prose' + StepLines(steps), more);
    PartsAppend(prose', StepLines(steps));
    assert Details(prose') + [] == Details(prose');
    assert Steps(prose) == [] && Steps(more) == [];
  }

  /** How the item at `i` splits: its prose, the rest of its block, the lines after it. */
  ghost predicate Split(lines: seq<string>, i: nat, prose: seq<string>, more: seq<string>, rest: seq<string>) {
    && i < |lines| && Fresh(rest) && |prose| == Prose(lines[i + 1..]) && lines[i + 1..] == prose + (more + rest)
    && (forall k :: 0 <= k < |prose| ==> Continues(prose[k])) && (forall k :: 0 <= k < |more| ==> Continues(more[k]))
  }

  lemma SplitAt(lines: seq<string>, i: nat) returns (prose: seq<string>, more: seq<string>, rest: seq<string>)
    requires i < |lines|
    ensures Split(lines, i, prose, more, rest)
    ensures lines[i + 1..][..BlockLength(lines[i + 1..])] == prose + more
  {
    hide Continues, TrimRight, Prose, BlockLength;
    var after := lines[i + 1..];
    ProseWithinBlock(after);
    prose, more, rest := CutTwice(after, Prose(after), BlockLength(after));
    SplitParts(after, prose, more, rest);
  }

  lemma CutTwice<T>(s: seq<T>, p: nat, n: nat) returns (a: seq<T>, b: seq<T>, c: seq<T>)
    requires p <= n <= |s|
    ensures a == s[..p] && b == s[p..n] && c == s[n..] && s[..n] == a + b && s == a + (b + c)
  {
    a, b, c := s[..p], s[p..n], s[n..];
  }

  lemma SplitParts(after: seq<string>, prose: seq<string>, more: seq<string>, rest: seq<string>)
    requires Prose(after) <= BlockLength(after) && prose == after[..Prose(after)]
    requires more == after[Prose(after)..BlockLength(after)] && rest == after[BlockLength(after)..]
    ensures Fresh(rest) && (forall k :: 0 <= k < |prose| ==> Continues(prose[k])) && (forall k :: 0 <= k < |more| ==> Continues(more[k]))
  {
    hide Continues, TrimRight;
    forall k | 0 <= k < |more| ensures Continues(more[k]) {
      assert more[k] == after[Prose(after) + k];
    }
  }

  /** Writing planned steps under a stepless item gives it exactly those steps, changes no
      other item, and leaves its detail alone. */
  lemma {:induction false} PlanAddsSteps(lines: seq<string>, title: string, steps: seq<Step>)
    requires ItemAt(lines, title) < |lines| && forall s :: s in steps ==> WellFormed(s)
    requires Steps(lines[ItemAt(lines, title) + 1..][..BlockLength(lines[ItemAt(lines, title) + 1..])]) == []
    ensures Items(Planned(lines, ItemAt(lines, title), steps)) == WithSteps(Items(lines), title, steps)
  {
    hide OpenTitle, Continues, ParseItem, Items, WellFormed, StepLines, Steps, TrimRight, EndLast, Planned;
    var i := ItemAt(lines, title);
    ItemAtIsFirst(lines, title);
    var prose, more, rest := SplitAt(lines, i);
    PlannedLines(lines, i, steps, prose, more + rest);
    PlannedChunk(lines[..i], lines[i], title, prose, more, rest, steps, lines, Planned(lines, i, steps));
    NotListedBefore(lines, title, i);
    TitleOf(title, prose + more);
    WithStepsMiddle(Items(lines[..i]), ParseItem(title, prose + more), Items(rest), title, steps);
  }

  lemma {:induction false} PlannedChunk(before: seq<string>, head: string, title: string, prose: seq<string>, more: seq<string>,
                     rest: seq<string>, steps: seq<Step>, lines: seq<string>, planned: seq<string>)
    requires |before| < |lines| && lines[..|before|] == before && lines[|before|] == head
    requires Split(lines, |before|, prose, more, rest) && OpenTitle(head) == Some(title)
    requires Steps(prose + more) == [] && forall s :: s in steps ==> WellFormed(s)
    requires planned == before + (EndLast([head] + prose) + StepLines(steps) + (more + rest))
    ensures Items(lines) == Items(before) + [ParseItem(title, prose + more)] + Items(rest)
    ensures Items(planned) == Items(before) + [ParseItem(title, prose + more).(steps := steps)] + Items(rest)
  {
    hide OpenTitle, Continues, ParseItem, Items, WellFormed, StepLines, Steps, TrimRight, EndLast, Prose;
    OldChunk(before, head, prose, more, rest, lines);
    ChunkReads(before, head, title, prose + more, rest, lines);
    var top := EndLast([head] + prose);
    TopEnded(head, prose, title);
    StepLinesParse(steps);
    NewChunk(before, top, StepLines(steps), more, rest);
    ChunkReads(before, top[0], title, top[1..] + StepLines(steps) + more, rest, planned);
    PlannedBlock(title, prose, top[1..], more, steps);
  }

  lemma OldChunk(before: seq<string>, head: string, prose: seq<string>, more: seq<string>, rest: seq<string>, lines: seq<string>)
    requires |before| < |lines| && lines[..|before|] == before && lines[|before|] == head
    requires lines[|before| + 1..] == prose + (more + rest)
    ensures lines == before + ([head] + (prose + more) + rest)
  {
    Regroup(prose, more, rest);
    Regroup([head], prose + more, rest);
    assert lines == lines[..|before|] + ([lines[|before|]] + lines[|before| + 1..]);
  }

  lemma NewChunk(before: seq<string>, top: seq<string>, written: seq<string>, more: seq<string>, rest: seq<string>)
    requires top != []
    ensures before + (top + written + (more + rest)) == before + ([top[0]] + (top[1..] + written + more) + rest)
  {
    var tail := top[1..];
    assert top == [top[0]] + tail;
    Regroup([top[0]], tail + written, more);
    Regroup([top[0]], tail, written);
    Regroup(top + written, more, rest);
  }

  /** Ending the last of an item's own lines keeps its title and its prose. */
  lemma TopEnded(head: string, prose: seq<string>, title: string)
    requires OpenTitle(head) == Some(title) && forall k :: 0 <= k < |prose| ==> Continues(prose[k])
    ensures var top := EndLast([head] + prose);
      && OpenTitle(top[0]) == Some(title) && SameTrimmed(prose, top[1..])
      && forall k :: 0 <= k < |prose| ==> Continues(top[1..][k])
  {
    hide OpenTitle, Continues, TrimRight, Ended;
    var old_ := [head] + prose;
    var top := EndLast(old_);
    EndedTrims(old_[|prose|]);
    assert SameTrimmed(old_, top);
    SameLine(old_[0], top[0]);
    SameTail(old_, top, 1);
    assert old_[1..] == prose;
    forall k | 0 <= k < |prose| ensures Continues(top[1..][k]) {
      SameLine(prose[k], top[1..][k]);
    }
  }

  lemma EndLastSkips(a: seq<string>, top: seq<string>)
    requires top != []
    ensures EndLast(a + top) == a + EndLast(top)
  {
    hide Ended;
    assert (a + top)[..|a + top| - 1] == a + top[..|top| - 1];
  }

  lemma PlannedLines(lines: seq<string>, i: nat, steps: seq<Step>, prose: seq<string>, tail: seq<string>)
    requires i < |lines| && |prose| == Prose(lines[i + 1..]) && lines[i + 1..] == prose + tail
    ensures Planned(lines, i, steps) == lines[..i] + (EndLast([lines[i]] + prose) + StepLines(steps) + tail)
  {
    hide EndLast, StepLines, Prose;
    CutAfter(lines, i, prose, tail);
    EndLastSkips(lines[..i], [lines[i]] + prose);
    Grouped(lines[..i], EndLast([lines[i]] + prose), StepLines(steps), tail);
  }

  lemma CutAfter(lines: seq<string>, i: nat, prose: seq<string>, tail: seq<string>)
    requires i < |lines| && lines[i + 1..] == prose + tail
    ensures var end := i + 1 + |prose|; end <= |lines| && lines[..end] == lines[..i] + ([lines[i]] + prose) && lines[end..] == tail
  {
    assert lines == lines[..i] + [lines[i]] + lines[i + 1..];
  }

  lemma Grouped(a: seq<string>, b: seq<string>, c: seq<string>, d: seq<string>)
    ensures (a + b) + c + d == a + (b + c + d)
  {
  }

  lemma {:induction false} ProseWithinBlock(lines: seq<string>)
    ensures Prose(lines) <= BlockLength(lines)
  {
    hide Continues, TrimRight;
    if lines != [] {
      ProseWithinBlock(lines[1..]);
    }
  }

  lemma {:induction false} ChunkReads(before: seq<string>, head: string, title: string, block: seq<string>, rest: seq<string>, lines: seq<string>)
    requires lines == before + ([head] + block + rest) && OpenTitle(head) == Some(title)
    requires Fresh(rest) && forall k :: 0 <= k < |block| ==> Continues(block[k])
    ensures Items(lines) == Items(before) + [ParseItem(title, block)] + Items(rest)
  {
    hide OpenTitle, Continues, ParseItem, Items;
    ItemsOfChunked(lines, before, head, block, rest);
  }

  lemma {:induction false} WithStepsMiddle(a: seq<Improvement>, item: Improvement, c: seq<Improvement>, title: string, steps: seq<Step>)
    requires !Lists(a, title) && item.title == title
    ensures WithSteps(a + [item] + c, title, steps) == a + [item.(steps := steps)] + c
  {
    var all := a + [item] + c;
    if a == [] {
      assert all == [item] + c && all[1..] == c;
    } else {
      assert all[0] == a[0] && all[1..] == a[1..] + [item] + c;
      assert a[0].title != title;
      forall i | 0 <= i < |a[1..]| ensures a[1..][i].title != title {
        assert a[1..][i] == a[i + 1];
      }
      WithStepsMiddle(a[1..], item, c, title, steps);
    }
  }
}
