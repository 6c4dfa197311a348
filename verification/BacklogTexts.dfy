module BacklogTexts {
  // The backlog edits on the text of the file: splitting the edited text again gives the
  // edited lines, so what the file lists afterwards is the edited list
  // (src/evomesh/codebase.py).

  import opened Options
  import opened Text
  import opened BacklogLines
  import opened Backlog
  import opened BacklogSteps
  import opened BacklogEdits
  import opened BacklogAppend

  // ---- ticking ----

  /** `line` with an `x` in place of a blank inside it. */
  ghost predicate Marked(line: string, marked: string) {
    exists p :: 0 < p < |line| - 1 && marked == line[p := 'x'] && line[p] == ' '
  }

  lemma MarkedIsLine(line: string, marked: string)
    requires IsLine(line) && Marked(line, marked)
    ensures IsLine(marked) && Terminated(marked) == Terminated(line)
  {
  }

  lemma MarkedRoundTrip(text: string, i: nat, marked: string)
    requires i < |KeepLines(text)| && Marked(KeepLines(text)[i], marked)
    ensures KeepLines(Flatten(KeepLines(text)[i := marked])) == KeepLines(text)[i := marked]
  {
    hide KeepLines, Flatten, IsLine, Terminated, Marked;
    var lines := KeepLines(text);
    KeepLinesWellLined(text);
    assert lines[i] in lines;
    MarkedIsLine(lines[i], marked);
    forall l | l in lines[i := marked] ensures IsLine(l) {
      assert l in lines || l == marked;
    }
    SplitJoined(lines[i := marked]);
  }

  /** The lines after ticking the first open item of this title. */
  function ItemTicked(lines: seq<string>, title: string): seq<string> {
    var i := ItemAt(lines, title);
    if i < |lines| then lines[i := TickedItemLine(lines[i])] else lines
  }

  lemma {:induction false} ItemTickedText(text: string, title: string)
    requires ItemAt(KeepLines(text), title) < |KeepLines(text)|
    ensures var after := ItemTicked(KeepLines(text), title);
      KeepLines(Flatten(after)) == after && Listed(Flatten(after)) == Closed(Listed(text), title)
  {
    hide KeepLines, Flatten, OpenTitle, TickedItemLine, IsDone, Items, Listed, ItemAt;
    var lines := KeepLines(text);
    ItemAtIsFirst(lines, title);
    TickedItemIsDone(lines[ItemAt(lines, title)]);
    MarkedRoundTrip(text, ItemAt(lines, title), TickedItemLine(lines[ItemAt(lines, title)]));
    TickItemCloses(lines, title);
    ListedKeep(text);
    ListedKeep(Flatten(ItemTicked(lines, title)));
  }

  /** The lines after ticking the step `tick_step` finds. */
  function StepTicked(lines: seq<string>, title: string, number: nat): seq<string> {
    var k := StepAt(lines, title, number, false);
    if k < |lines| then lines[k := TickedStepLine(lines[k])] else lines
  }

  lemma {:induction false} StepTickedText(text: string, title: string, number: nat)
    ensures StepAt(KeepLines(text), title, number, false) < |KeepLines(text)| <==> Tickable(Listed(text), title, number)
    ensures Tickable(Listed(text), title, number) ==>
      var after := StepTicked(KeepLines(text), title, number);
      KeepLines(Flatten(after)) == after && Listed(Flatten(after)) == Ticked(Listed(text), title, number)
  {
    hide KeepLines, Flatten, StepMatch, TickedStepLine, Items, Listed, StepAt, Ticked, Tickable, TrimRight;
    var lines := KeepLines(text);
    ListedKeep(text);
    TickStepTicks(lines, title, number);
    var k := StepAt(lines, title, number, false);
    if k < |lines| {
      StepAtFinds(lines, title, number, false);
      TickedStepIsDone(lines[k]);
      MarkedRoundTrip(text, k, TickedStepLine(lines[k]));
      ListedKeep(Flatten(StepTicked(lines, title, number)));
    }
  }

  /** Where the first item of this title is in the list, or its length. */
  function FirstOf(items: seq<Improvement>, title: string): (i: nat)
    ensures i <= |items| && (i < |items| ==> items[i].title == title)
    ensures forall j :: 0 <= j < i ==> items[j].title != title
  {
    if items == [] || items[0].title == title then 0 else 1 + FirstOf(items[1..], title)
  }

  /** `tick_step` ticks the item too if the first item of the title has no open step left. */
  predicate Finished(items: seq<Improvement>, title: string) {
    var i := FirstOf(items, title);
    i < |items| && items[i].AllDone()
  }

  /** The lines after `tick_step` found its step. */
  function StepLanded(lines: seq<string>, title: string, number: nat): seq<string> {
    var ticked := StepTicked(lines, title, number);
    if Finished(Items(ticked), title) then ItemTicked(ticked, title) else ticked
  }

  /** `tick_step` on the list: the step ticked, then the item closed if nothing is open in it. */
  function Landed(items: seq<Improvement>, title: string, number: nat): seq<Improvement> {
    var ticked := Ticked(items, title, number);
    if Finished(ticked, title) then Closed(ticked, title) else ticked
  }

  lemma {:induction false} StepLandedText(text: string, title: string, number: nat)
    requires Tickable(Listed(text), title, number)
    ensures var after := StepLanded(KeepLines(text), title, number);
      KeepLines(Flatten(after)) == after && Listed(Flatten(after)) == Landed(Listed(text), title, number)
  {
    hide KeepLines, Flatten, Items, Listed, StepTicked, ItemTicked, Ticked, Tickable, FirstOf;
    var ticked := StepTicked(KeepLines(text), title, number);
    StepTickedText(text, title, number);
    ListedKeep(Flatten(ticked));
    if Finished(Items(ticked), title) {
      FinishedIsListed(ticked, title);
      ItemTickedText(Flatten(ticked), title);
    }
  }

  lemma {:induction false} FinishedIsListed(lines: seq<string>, title: string)
    requires Finished(Items(lines), title)
    ensures ItemAt(lines, title) < |lines|
  {
    hide Items;
    ListedIffOpened(lines, title);
    assert Items(lines)[FirstOf(Items(lines), title)].title == title;
  }

  /** Every line but the step's, and its item's if that is finished, is what it was. */
  lemma StepLandedKeepsLines(lines: seq<string>, title: string, number: nat)
    ensures var after := StepLanded(lines, title, number); var ticked := StepTicked(lines, title, number);
      && |after| == |lines|
      && forall j :: 0 <= j < |lines| ==>
           || after[j] == lines[j]
           || j == StepAt(lines, title, number, false)
           || (Finished(Items(ticked), title) && j == ItemAt(ticked, title))
  {
    hide OpenTitle, Items, StepAt, ItemAt, TickedStepLine, TickedItemLine;
    var ticked := StepTicked(lines, title, number);
    if Finished(Items(ticked), title) {
      FinishedIsListed(ticked, title);
    }
  }

  // ---- which item the step is ticked in, and which is closed ----

  /** Where the first item of this title that has the step open is, or the list's length. */
  function WorkedOn(items: seq<Improvement>, title: string, number: nat): (k: nat)
    ensures k <= |items| && (k < |items| ==> items[k].title == title && items[k].HasOpenStep(number))
    ensures forall j :: 0 <= j < k ==> items[j].title != title || !items[j].HasOpenStep(number)
  {
    if items == [] || (items[0].title == title && items[0].HasOpenStep(number)) then 0
    else 1 + WorkedOn(items[1..], title, number)
  }

  /** An item with this step ticked. */
  function StepDone(item: Improvement, number: nat): Improvement {
    item.(steps := TickedSteps(item.steps, number))
  }

  /** Item `i` with its step ticked, or gone if that was its last open step. */
  function WithStepDone(items: seq<Improvement>, i: nat, number: nat): seq<Improvement>
    requires i < |items|
  {
    var item := StepDone(items[i], number);
    items[..i] + (if item.AllDone() then [] else [item]) + items[i + 1..]
  }

  lemma {:induction false} TickedAt(items: seq<Improvement>, title: string, number: nat, i: nat)
    requires i < |items| && items[i].title == title && items[i].HasOpenStep(number)
    requires forall j :: 0 <= j < i ==> items[j].title != title || !items[j].HasOpenStep(number)
    ensures Ticked(items, title, number) == items[..i] + [StepDone(items[i], number)] + items[i + 1..]
  {
    hide TickedSteps;
    if i == 0 {
      assert items[..0] == [];
    } else {
      TickedAt(items[1..], title, number, i - 1);
      assert items[..i] == [items[0]] + items[1..][..i - 1];
      assert items[1..][i..] == items[i + 1..];
    }
  }

  lemma {:induction false} FirstOfIs(items: seq<Improvement>, title: string, i: nat)
    requires i < |items| && items[i].title == title && forall j :: 0 <= j < i ==> items[j].title != title
    ensures FirstOf(items, title) == i
  {
    if i > 0 {
      FirstOfIs(items[1..], title, i - 1);
    }
  }

  lemma NotListed(items: seq<Improvement>, title: string)
    requires forall j :: 0 <= j < |items| ==> items[j].title != title
    ensures !Lists(items, title)
  {
  }

  /** Closing a listed title removes its first item. */
  lemma ClosedAt(items: seq<Improvement>, title: string)
    requires FirstOf(items, title) < |items|
    ensures var f := FirstOf(items, title); Closed(items, title) == items[..f] + items[f + 1..]
  {
    hide Closed, FirstOf;
    var f := FirstOf(items, title);
    assert items == items[..f] + [items[f]] + items[f + 1..];
    NotListed(items[..f], title);
    ClosedMiddle(items[..f], items[f], items[f + 1..], title);
  }

  /** Removing either of two places leaves the same list exactly when all between are equal. */
  lemma RemovedSame<T>(xs: seq<T>, f: nat, k: nat)
    requires f < k < |xs|
    ensures xs[..f] + xs[f + 1..] == xs[..k] + xs[k + 1..] <==> forall j :: f <= j < k ==> xs[j] == xs[k]
  {
    var a, b := xs[..f] + xs[f + 1..], xs[..k] + xs[k + 1..];
    if a == b {
      forall j | f <= j < k ensures xs[j] == xs[j + 1] {
        assert a[j] == xs[j + 1] && b[j] == xs[j];
      }
      AllAsLast(xs, f, k);
    }
    if forall j :: f <= j < k ==> xs[j] == xs[k] {
      forall j | 0 <= j < |a| ensures a[j] == b[j] {
        if f <= j < k {
          assert a[j] == xs[j + 1] && b[j] == xs[j];
        }
      }
      assert a == b;
    }
  }

  lemma {:induction false} AllAsLast<T>(xs: seq<T>, f: nat, k: nat)
    requires f <= k < |xs| && forall j :: f <= j < k ==> xs[j] == xs[j + 1]
    ensures forall j :: f <= j < k ==> xs[j] == xs[k]
    decreases k
  {
    if f < k {
      AllAsLast(xs, f, k - 1);
      assert xs[k - 1] == xs[k - 1 + 1];
    }
  }

  /** The item worked on is the first of its title; or both have open steps left; or both
      have none, and from the first of the title to the one worked on all items are alike. */
  predicate LandsRight(items: seq<Improvement>, title: string, number: nat) {
    var f, k := FirstOf(items, title), WorkedOn(items, title, number);
    k < |items| && f < k ==>
      var item := StepDone(items[k], number);
      && (items[f].AllDone() <==> item.AllDone())
      && (item.AllDone() ==> forall j :: f <= j < k ==> items[j] == item)
  }

  /** The ticked list: the item worked on replaced, the first of the title where it was. */
  lemma TickedIs(items: seq<Improvement>, title: string, number: nat)
    requires Tickable(items, title, number)
    ensures var f, k := FirstOf(items, title), WorkedOn(items, title, number);
      && f <= k < |items|
      && Ticked(items, title, number) == items[k := StepDone(items[k], number)]
      && FirstOf(items[k := StepDone(items[k], number)], title) == f
  {
    hide TickedSteps, Ticked, FirstOf, WorkedOn;
    var f, k := FirstOf(items, title), WorkedOn(items, title, number);
    TickedAt(items, title, number, k);
    var ticked := items[k := StepDone(items[k], number)];
    assert ticked == items[..k] + [StepDone(items[k], number)] + items[k + 1..];
    FirstOfIs(ticked, title, f);
  }

  function Removed<T>(xs: seq<T>, i: nat, gone: bool): seq<T>
    requires i < |xs|
  {
    if gone then xs[..i] + xs[i + 1..] else xs
  }

  /** What `tick_step` comes to, read off the ticked list. */
  lemma LandedIs(items: seq<Improvement>, title: string, number: nat)
    requires Tickable(items, title, number)
    ensures var f, k := FirstOf(items, title), WorkedOn(items, title, number);
      && f <= k < |items|
      && var ticked := items[k := StepDone(items[k], number)];
      Landed(items, title, number) == Removed(ticked, f, ticked[f].AllDone())
  {
    hide StepDone, Ticked, Closed, FirstOf, WorkedOn, Tickable, Improvement.AllDone;
    TickedIs(items, title, number);
    ClosedAt(Ticked(items, title, number), title);
  }

  /** What it says, read off the same list. */
  lemma WithStepDoneIs(items: seq<Improvement>, k: nat, number: nat)
    requires k < |items|
    ensures var ticked := items[k := StepDone(items[k], number)];
      WithStepDone(items, k, number) == Removed(ticked, k, ticked[k].AllDone())
  {
    hide StepDone, Improvement.AllDone;
    ReplacedAt(items, k, StepDone(items[k], number));
  }

  lemma OneShorter<T>(xs: seq<T>, i: nat)
    requires i < |xs|
    ensures |xs[..i] + xs[i + 1..]| == |xs| - 1 && xs[..i] + xs[i + 1..] != xs
  {
  }

  lemma ReplacedAt<T>(xs: seq<T>, k: nat, x: T)
    requires k < |xs|
    ensures xs[k := x] == xs[..k] + [x] + xs[k + 1..]
    ensures xs[k := x][..k] + xs[k := x][k + 1..] == xs[..k] + [] + xs[k + 1..]
  {
  }

  /** `tick_step` does what it says -- exactly that step of the item worked on is ticked, and
      that item leaves the list if it was its last open step -- exactly when LandsRight. */
  lemma LandedExactly(items: seq<Improvement>, title: string, number: nat)
    requires Tickable(items, title, number)
    ensures var k := WorkedOn(items, title, number);
      k < |items| && (Landed(items, title, number) == WithStepDone(items, k, number) <==> LandsRight(items, title, number))
  {
    hide Landed, WithStepDone, FirstOf, WorkedOn, Tickable, StepDone, Improvement.AllDone, Removed;
    LandedIs(items, title, number);
    WithStepDoneIs(items, WorkedOn(items, title, number), number);
    var f, k := FirstOf(items, title), WorkedOn(items, title, number);
    var item := StepDone(items[k], number);
    assert items[k := item][k] == item;
    if f < k {
      assert items[k := item][f] == items[f];
      RemovedExactly(items, f, k, item, items[f].AllDone(), item.AllDone());
    }
  }

  /** With `x` put at `k`, removing place `f` or nothing against removing place `k` or nothing. */
  lemma RemovedExactly<T>(xs: seq<T>, f: nat, k: nat, x: T, first: bool, other: bool)
    requires f < k < |xs|
    ensures var t := xs[k := x];
      Removed(t, f, first) == Removed(t, k, other) <==>
        (first <==> other) && (other ==> forall j :: f <= j < k ==> xs[j] == x)
  {
    var t := xs[k := x];
    RemovedSame(t, f, k);
    OneShorter(t, f);
    OneShorter(t, k);
    assert forall j :: f <= j < k ==> t[j] == xs[j];
  }

  ghost predicate DistinctTitles(items: seq<Improvement>) {
    forall i, j :: 0 <= i < j < |items| ==> items[i].title != items[j].title
  }

  /** With distinct titles it always does. */
  lemma LandedDistinct(items: seq<Improvement>, title: string, number: nat, i: nat)
    requires DistinctTitles(items) && i < |items| && items[i].title == title && items[i].HasOpenStep(number)
    ensures Landed(items, title, number) == WithStepDone(items, i, number)
  {
    hide Landed, WithStepDone, FirstOf, WorkedOn;
    assert WorkedOn(items, title, number) == i && FirstOf(items, title) <= i;
    LandedExactly(items, title, number);
  }

  function Stepless(): Improvement {
    Improvement("Trim logs", "", [])
  }

  function TwoSteps(): Improvement {
    Improvement("Trim logs", "", [Step(1, "src/evomesh/a.py", "f", "", false), Step(2, "src/evomesh/b.py", "g", "", false)])
  }

  /** The backlog after a stepless item and one of the same title with two open steps were
      appended to an empty file: two lines `- [ ] Trim logs`, the second with two step lines. */
  function Namesakes(): string {
    Appended(Appended("", Stepless()), TwoSteps())
  }

  lemma NamesakesListed()
    ensures Listed(Namesakes()) == [Stepless(), TwoSteps()]
  {
    hide Listed, Appended, WellFormed;
    EmptyListsNothing();
    StepsWellFormed();
    assert Plain(Stepless()) && Plain(TwoSteps()) by {
      assert Lines("") == [] && Joined([]) == "";
    }
    AppendRoundTrip("", Stepless());
    AppendRoundTrip(Appended("", Stepless()), TwoSteps());
  }

  lemma EmptyListsNothing()
    ensures Listed("") == []
  {
    assert Lines("") == [] && Items([]) == [];
  }

  lemma StepsWellFormed()
    ensures forall s :: s in TwoSteps().steps ==> WellFormed(s)
  {
    var f, g := "f`", "g`";
    assert WordEnd(f, 1) == 1 && WordEnd(g, 1) == 1;
    assert WordEnd(f, 0) == 1 && WordEnd(g, 0) == 1;
    assert SymbolEnd(f, 0) == Some(1) && SymbolEnd(g, 0) == Some(1);
    assert "f" + "`" == f && "g" + "`" == g;
    PathsShaped();
  }

  lemma PathsShaped()
    ensures PathShape("src/evomesh/a.py") && PathShape("src/evomesh/b.py")
  {
  }

  /** With two of one title it may not: ticking a step of the second item removes the first
      from the list, though no step of it was worked on. */
  lemma LandedClosesANamesake()
    ensures var items := Listed(Namesakes());
      && items == [Stepless(), TwoSteps()] && Tickable(items, "Trim logs", 1) && !LandsRight(items, "Trim logs", 1)
      && WorkedOn(items, "Trim logs", 1) == 1 && WithStepDone(items, 1, 1) == [Stepless(), StepDone(TwoSteps(), 1)]
      && Listed(Flatten(StepLanded(KeepLines(Namesakes()), "Trim logs", 1))) == [StepDone(TwoSteps(), 1)]
  {
    hide Namesakes, Listed, StepLanded, KeepLines, Flatten;
    NamesakesListed();
    var first, second, title := Stepless(), TwoSteps(), "Trim logs";
    var items := [first, second];
    assert second.steps[0].number == 1 && second.HasOpenStep(1) && items[1] == second;
    assert !first.HasOpenStep(1) && items[1..] == [second] && [second][1..] == [];
    assert Tickable(items, title, 1) && WorkedOn(items, title, 1) == 1 && FirstOf(items, title) == 0;
    var done := StepDone(second, 1);
    assert !done.steps[1].done && !done.AllDone() && first.AllDone();
    StepLandedText(Namesakes(), title, 1);
    LandedIs(items, title, 1);
    assert items[1 := done] == [first, done];
  }

  // ---- dropping ----

  lemma {:induction false} DroppedWellLined(lines: seq<string>, titles: set<string>, skipping: bool)
    requires WellLined(lines)
    ensures WellLined(Dropped(lines, titles, skipping))
    ensures forall l :: l in Dropped(lines, titles, skipping) ==> l in lines
    ensures |Dropped(lines, titles, skipping)| <= |lines|
  {
    hide OpenTitle, Continues, IsLine, Terminated;
    if lines != [] {
      WellLinedTail(lines);
      DroppedWellLined(lines[1..], titles, true);
      DroppedWellLined(lines[1..], titles, false);
      var rest := Dropped(lines[1..], titles, false);
      assert rest != [] ==> Terminated(lines[0]);
      WellLinedCons(lines[0], rest);
    }
  }

  lemma WellLinedTail(lines: seq<string>)
    requires WellLined(lines) && lines != []
    ensures WellLined(lines[1..]) && IsLine(lines[0]) && (|lines| > 1 ==> Terminated(lines[0]))
  {
    hide IsLine, Terminated;
  }

  lemma WellLinedCons(line: string, rest: seq<string>)
    requires IsLine(line) && WellLined(rest) && (rest != [] ==> Terminated(line))
    ensures WellLined([line] + rest)
  {
    hide IsLine, Terminated;
  }

  /** After `drop_improvements` the file lists exactly the items not named. */
  lemma DroppedText(text: string, titles: set<string>)
    ensures var after := Dropped(KeepLines(text), titles, false);
      KeepLines(Flatten(after)) == after && Listed(Flatten(after)) == Kept(Listed(text), titles)
  {
    hide KeepLines, Flatten, Dropped, Items, Listed, WellLined;
    var lines := KeepLines(text);
    KeepLinesWellLined(text);
    DroppedWellLined(lines, titles, false);
    SplitJoined(Dropped(lines, titles, false));
    DropDrops(lines, titles);
    ListedKeep(text);
    ListedKeep(Flatten(Dropped(lines, titles, false)));
  }
}
