/** The backlog as a file in place. */
module BacklogFiles {
  // The backlog file and the functions that read and edit it, loop by loop
  // (src/evomesh/codebase.py).

  import opened Options
  import opened Text
  import opened BacklogLines
  import opened Backlog
  import opened BacklogSteps
  import opened BacklogEdits
  import opened BacklogAppend
  import opened BacklogTexts
  import opened BacklogPlan

  // ---- where the loops stand ----

  /** What is still to be listed when `block` has been gathered under `title`. */
  function Pending(title: Option<string>, block: seq<string>, lines: seq<string>): seq<Improvement> {
    if title.None? then Items(lines)
    else [ParseItem(title.value, block + lines[..BlockLength(lines)])] + Items(lines[BlockLength(lines)..])
  }

  lemma PendingOpens(title: Option<string>, block: seq<string>, lines: seq<string>)
    requires lines != [] && OpenTitle(lines[0]).Some?
    ensures Pending(title, block, lines) ==
      (if title.Some? then [ParseItem(title.value, block)] else []) + Pending(OpenTitle(lines[0]), [], lines[1..])
  {
    hide OpenTitle, ParseItem, Continues;
    OpenIsFresh(lines[0]);
    var n := BlockLength(lines[1..]);
    assert [] + lines[1..][..n] == lines[1..][..n];
    assert block + lines[..0] == block && lines[0..] == lines;
  }

  lemma PendingContinues(title: string, block: seq<string>, lines: seq<string>)
    requires lines != [] && Continues(lines[0])
    ensures Pending(Some(title), block, lines) == Pending(Some(title), block + [lines[0]], lines[1..])
  {
    hide ParseItem, Continues, Items;
    var n := BlockLength(lines[1..]);
    assert lines[..1 + n] == [lines[0]] + lines[1..][..n];
    assert lines[1 + n..] == lines[1..][n..];
    Regroup(block, [lines[0]], lines[1..][..n]);
  }

  lemma PendingEnds(title: Option<string>, block: seq<string>, lines: seq<string>)
    requires lines != [] && OpenTitle(lines[0]).None? && (title.Some? ==> !Continues(lines[0]))
    ensures Pending(title, block, lines) ==
      (if title.Some? then [ParseItem(title.value, block)] else []) + Pending(None, [], lines[1..])
  {
    hide OpenTitle, ParseItem, Continues;
    assert block + lines[..0] == block && lines[0..] == lines;
  }

  lemma AllPending(lines: seq<string>)
    ensures Items(lines) == [] + Pending(None, [], lines[0..])
  {
    hide Items;
    assert lines[0..] == lines;
  }

  lemma NothingPending(title: Option<string>, block: seq<string>)
    ensures Pending(title, block, []) == if title.Some? then [ParseItem(title.value, block)] else []
  {
    hide ParseItem;
    assert block + [][..0] == block;
  }

  lemma {:induction false} ItemAtMoves(lines: seq<string>, title: string, index: nat)
    requires index < |lines| && ItemAt(lines, title) >= index
    ensures if OpenTitle(lines[index]) == Some(title) then ItemAt(lines, title) == index else ItemAt(lines, title) > index
  {
    hide OpenTitle;
    ItemAtIsFirst(lines, title);
  }

  /** The rest of `tick_step`'s search, from `index` on. */
  lemma StepAtMoves(lines: seq<string>, title: string, number: nat, inside: bool, index: nat)
    requires index < |lines|
    ensures StepAt(lines[index..], title, number, inside) ==
      if OpenTitle(lines[index]).Some? then 1 + StepAt(lines[index + 1..], title, number, OpenTitle(lines[index]).value == title)
      else if inside && Continues(lines[index]) && IsOpenStep(lines[index], number) then 0
      else 1 + StepAt(lines[index + 1..], title, number, inside && Continues(lines[index]))
  {
    hide OpenTitle, Continues, IsOpenStep;
    assert lines[index..][1..] == lines[index + 1..];
  }

  lemma DroppedMoves(lines: seq<string>, titles: set<string>, skipping: bool, index: nat)
    requires index < |lines|
    ensures var skip := if OpenTitle(lines[index]).Some? then OpenTitle(lines[index]).value in titles
                        else skipping && Continues(lines[index]);
      Dropped(lines[index..], titles, skipping) ==
        if skip then Dropped(lines[index + 1..], titles, true) else [lines[index]] + Dropped(lines[index + 1..], titles, false)
  {
    hide OpenTitle, Continues;
    assert lines[index..][1..] == lines[index + 1..];
  }

  /** A title is listed exactly where the lines open it; the listed item holds its block's steps. */
  lemma {:induction false} FirstListed(lines: seq<string>, title: string)
    requires ItemAt(lines, title) < |lines|
    ensures FirstOf(Items(lines), title) < |Items(lines)|
    ensures var after := lines[ItemAt(lines, title) + 1..];
      Items(lines)[FirstOf(Items(lines), title)].steps == Steps(after[..BlockLength(after)])
  {
    hide OpenTitle, Items, Continues, Details, Steps, Strip, BlockLength;
    var i := ItemAt(lines, title);
    ItemAtIsFirst(lines, title);
    var prose, more, rest := SplitAt(lines, i);
    OldChunk(lines[..i], lines[i], prose, more, rest, lines);
    ChunkReads(lines[..i], lines[i], title, prose + more, rest, lines);
    NotListedBefore(lines, title, i);
    var before, item := Items(lines[..i]), ParseItem(title, prose + more);
    TitleOf(title, prose + more);
    assert Items(lines)[|before|] == item;
    forall j | 0 <= j < |before| ensures Items(lines)[j].title != title {
      assert Items(lines)[j] == before[j];
    }
    FirstOfIs(Items(lines), title, |before|);
  }

  /** Past the item's own line and the paragraph under it. */
  method ProseEnd(lines: seq<string>, index: nat) returns (end: nat)
    requires index < |lines|
    ensures end == index + 1 + Prose(lines[index + 1..]) && index < end <= |lines|
  {
    hide TrimRight, Continues, Prose;
    end := index + 1;
    ProseEnds(lines, end);
    while end < |lines| && TrimRight(lines[end]) != [] && Continues(lines[end])
      invariant index < end <= |lines|
      invariant index + 1 + Prose(lines[index + 1..]) == end + Prose(lines[end..])
    {
      ProseEnds(lines, end);
      end := end + 1;
    }
    ProseEnds(lines, end);
  }

  // ---- the file ----

  class BacklogFile {
    /** The text of the file, if there is one. */
    var text: Option<string>

    constructor (text: Option<string>)
      ensures this.text == text
    {
      this.text := text;
    }

    ghost function Contents(): seq<Improvement>
      reads this
    {
      if text.None? then [] else Listed(text.value)
    }

    ghost function FileLines(): seq<string>
      reads this
    {
      if text.None? then [] else KeepLines(text.value)
    }

    /** `open_improvements`. */
    method OpenImprovements() returns (items: seq<Improvement>)
      ensures items == Contents()
    {
      hide OpenTitle, ParseItem, Continues, Items, Pending, Lines;
      items := [];
      if text.None? {
        return;
      }
      var lines := Lines(text.value);
      var title: Option<string> := None;
      var block: seq<string> := [];
      var index := 0;
      AllPending(lines);
      while index < |lines|
        invariant index <= |lines| && (title.None? ==> block == [])
        invariant Items(lines) == items + Pending(title, block, lines[index..])
      {
        var line := lines[index];
        ghost var rest, shown := lines[index..], items;
        assert rest[0] == line && rest[1..] == lines[index + 1..];
        ghost var closed := if title.Some? then [ParseItem(title.value, block)] else [];
        if OpenTitle(line).Some? {
          PendingOpens(title, block, rest);
          if title.Some? {
            items := items + [ParseItem(title.value, block)];
          }
          title, block := OpenTitle(line), [];
        } else if title.Some? && Continues(line) {
          PendingContinues(title.value, block, rest);
          block := block + [line];
          closed := [];
        } else {
          PendingEnds(title, block, rest);
          if title.Some? {
            items := items + [ParseItem(title.value, block)];
            title, block := None, [];
          }
        }
        assert items == shown + closed;
        Regroup(shown, closed, Pending(title, block, rest[1..]));
        index := index + 1;
      }
      assert lines[index..] == [];
      NothingPending(title, block);
      if title.Some? {
        items := items + [ParseItem(title.value, block)];
      } else {
        assert items + [] == items;
      }
    }

    /** `tick_improvement`: the first open item of this title leaves the list, and its line is
        the only one that changes. */
    method TickImprovement(title: string) returns (ticked: bool)
      modifies this
      ensures ticked <==> Lists(old(Contents()), title)
      ensures !ticked ==> text == old(text)
      ensures ticked ==> text.Some? && Contents() == Closed(old(Contents()), title)
      ensures ticked ==> FileLines() == ItemTicked(old(FileLines()), title)
    {
      hide OpenTitle, Items, Listed, KeepLines, Flatten, TickedItemLine;
      if text.None? {
        return false;
      }
      var lines := KeepLines(text.value);
      ListedIffOpened(lines, title);
      ListedKeep(text.value);
      var index := 0;
      while index < |lines|
        invariant index <= |lines| && ItemAt(lines, title) >= index
        invariant text == old(text)
      {
        ItemAtMoves(lines, title, index);
        if OpenTitle(lines[index]) == Some(title) {
          ItemTickedText(text.value, title);
          lines := lines[index := TickedItemLine(lines[index])];
          text := Some(Flatten(lines));
          return true;
        }
        index := index + 1;
      }
      return false;
    }

    /** `tick_step`: the step ticked, and its item closed once nothing is open in it. */
    method TickStep(title: string, number: nat) returns (ticked: bool)
      modifies this
      ensures ticked <==> Tickable(old(Contents()), title, number)
      ensures !ticked ==> text == old(text)
      ensures ticked ==> text.Some? && Contents() == Landed(old(Contents()), title, number)
      ensures ticked ==> FileLines() == StepLanded(old(FileLines()), title, number)
    {
      hide OpenTitle, Continues, IsOpenStep, Items, Listed, KeepLines, Flatten, TickedStepLine, StepAt, Tickable, Ticked, FirstOf, ItemAt;
      if text.None? {
        NoneTickable(title, number);
        return false;
      }
      var lines := KeepLines(text.value);
      StepTickedText(text.value, title, number);
      var inside := false;
      var index := 0;
      assert lines[0..] == lines;
      while index < |lines|
        invariant index <= |lines|
        invariant text == old(text) && lines == KeepLines(text.value)
        invariant StepAt(lines, title, number, false) == index + StepAt(lines[index..], title, number, inside)
      {
        var line := lines[index];
        StepAtMoves(lines, title, number, inside, index);
        if OpenTitle(line).Some? {
          inside := OpenTitle(line).value == title;
        } else {
          if inside && !Continues(line) {
            inside := false;
          }
          if inside && IsOpenStep(line, number) {
            ghost var before := text.value;
            StepLandedText(before, title, number);
            text := Some(Flatten(lines[index := TickedStepLine(line)]));
            ListedKeep(text.value);
            var items := OpenImprovements();
            var first := FirstOf(items, title);
            if first < |items| && items[first].AllDone() {
              var closed := TickImprovement(title);
              FinishedIsListed(KeepLines(Flatten(StepTicked(lines, title, number))), title);
              ListedIffOpened(KeepLines(Flatten(StepTicked(lines, title, number))), title);
            }
            return true;
          }
        }
        index := index + 1;
      }
      assert StepAt(lines[index..], title, number, inside) == 0 by {
        NoLinesNoStep(title, number, inside);
        assert lines[index..] == [];
      }
      return false;
    }

    /** `drop_improvements`: exactly the named items are gone, every line kept is as it was. */
    method DropImprovements(titles: set<string>)
      modifies this
      ensures Contents() == Kept(old(Contents()), titles)
      ensures text.Some? <==> old(text).Some?
      ensures FileLines() == if titles == {} then old(FileLines()) else Dropped(old(FileLines()), titles, false)
    {
      hide OpenTitle, Continues, Items, Listed, KeepLines, Flatten;
      if titles == {} || text.None? {
        KeptAll(Contents());
        return;
      }
      var lines := KeepLines(text.value);
      DroppedText(text.value, titles);
      var kept: seq<string> := [];
      var skipping := false;
      var index := 0;
      assert lines[0..] == lines && [] + Dropped(lines, titles, false) == Dropped(lines, titles, false);
      while index < |lines|
        invariant index <= |lines| && text == old(text)
        invariant Dropped(lines, titles, false) == kept + Dropped(lines[index..], titles, skipping)
      {
        var line := lines[index];
        DroppedMoves(lines, titles, skipping, index);
        if OpenTitle(line).Some? {
          skipping := OpenTitle(line).value in titles;
        } else if skipping && !Continues(line) {
          skipping := false;
        }
        if !skipping {
          kept := kept + [line];
        }
        index := index + 1;
      }
      assert lines[index..] == [] && kept + [] == kept;
      text := Some(Flatten(kept));
    }

    /** `write_planned_steps`: the lines written, or nothing when there is no such item. */
    method WritePlannedSteps(title: string, steps: seq<Step>) returns (written: Option<string>)
      modifies this
      ensures written.Some? <==> steps != [] && Lists(old(Contents()), title)
      ensures written.None? ==> text == old(text)
      ensures written.Some? ==>
        var lines := old(FileLines()); var i := ItemAt(lines, title);
        && i < |lines| && written.value == Flatten(StepLines(steps))
        && text == Some(Flatten(Planned(lines, i, steps)))
    {
      hide OpenTitle, Continues, Items, Listed, KeepLines, Flatten, StepLines, StepLine, TrimRight, Ended, Prose, ItemAt;
      if steps == [] || text.None? {
        return None;
      }
      var lines := KeepLines(text.value);
      ListedIffOpened(lines, title);
      ListedKeep(text.value);
      var index := 0;
      while index < |lines|
        invariant index <= |lines| && ItemAt(lines, title) >= index
        invariant text == old(text) && lines == KeepLines(text.value)
      {
        ItemAtMoves(lines, title, index);
        if OpenTitle(lines[index]) == Some(title) {
          var end := ProseEnd(lines, index);
          var top := lines[..end - 1] + [Ended(lines[end - 1])];
          assert top == EndLast(lines[..end]);
          var added := Flatten(StepLines(steps));
          InsertedFlat(top, StepLines(steps), lines[end..]);
          text := Some(Flatten(top + [added] + lines[end..]));
          return Some(added);
        }
        index := index + 1;
      }
      return None;
    }

    /** `append_item`. */
    method AppendItem(item: Improvement) returns (block: string)
      modifies this
      ensures block == Joined(ItemLines(item))
      ensures text == Some(Appended(if old(text).Some? then old(text).value else "", item))
      ensures Plain(item) ==> Contents() == old(Contents()) + [item]
    {
      hide Items, Plain, ItemLines, Joined;
      var was := if text.Some? then text.value else "";
      block := Joined(ItemLines(item));
      var separator := if was == "" || was[|was| - 1] == '\n' then "" else "\n";
      NothingListed();
      if Plain(item) {
        AppendRoundTrip(was, item);
      }
      text := Some(was + separator + block + "\n");
    }
  }

  /** One inserted text of several lines reads like the lines inserted one by one. */
  lemma InsertedFlat(top: seq<string>, written: seq<string>, tail: seq<string>)
    ensures Flatten(top + [Flatten(written)] + tail) == Flatten(top + written + tail)
  {
    hide Flatten;
    FlattenAppend(top, written);
    FlattenAppend(top + written, tail);
    FlattenLast(top, Flatten(written));
    FlattenAppend(top + [Flatten(written)], tail);
  }

  lemma {:induction false} ProseEnds(lines: seq<string>, end: nat)
    requires end <= |lines|
    ensures if end < |lines| && TrimRight(lines[end]) != [] && Continues(lines[end])
      then Prose(lines[end..]) == 1 + Prose(lines[end + 1..]) else Prose(lines[end..]) == 0
  {
    hide TrimRight, Continues;
    if end < |lines| {
      assert lines[end..][0] == lines[end] && lines[end..][1..] == lines[end + 1..];
    }
  }

  lemma NoneTickable(title: string, number: nat)
    ensures !Tickable([], title, number)
  {
  }

  lemma NoLinesNoStep(title: string, number: nat, inside: bool)
    ensures StepAt([], title, number, inside) == 0
  {
  }

  lemma {:induction false} KeptAll(items: seq<Improvement>)
    ensures Kept(items, {}) == items
    ensures forall titles :: Kept([], titles) == []
  {
    if items != [] {
      KeptAll(items[1..]);
    }
  }

  // ---- what a caller sees ----

  /** With distinct open titles, ticking a step that is open ticks exactly that step of
      exactly that item, and the item leaves the list if that was its last open step. */
  method TickDistinctStep(file: BacklogFile, title: string, number: nat, ghost i: nat)
    requires file.text.Some? && DistinctTitles(file.Contents()) && i < |file.Contents()|
    requires file.Contents()[i].title == title && file.Contents()[i].HasOpenStep(number)
    modifies file
    ensures file.Contents() == WithStepDone(old(file.Contents()), i, number)
  {
    hide Listed;
    LandedDistinct(file.Contents(), title, number, i);
    var ticked := file.TickStep(title, number);
  }

  /** Planned steps written under a listed stepless item are read back as its steps, and no
      other item changes, exactly when no foreign line break stands between the item's
      first paragraph and later text of it. */
  lemma PlannedIsListed(text: string, title: string, steps: seq<Step>)
    requires Lists(Listed(text), title) && Listed(text)[FirstOf(Listed(text), title)].steps == []
    requires forall s :: s in steps ==> WellFormed(s)
    ensures ItemAt(KeepLines(text), title) < |KeepLines(text)|
    ensures var lines := KeepLines(text); var i := ItemAt(lines, title);
      Listed(Flatten(Planned(lines, i, steps))) == WithSteps(Listed(text), title, steps) <==>
        EndsClean(AnchorLine(lines, i)) || Prose(lines[i + 1..]) == 0 || AllBlank(AfterProse(lines, i))
  {
    hide Items, Listed, KeepLines, Flatten, WellFormed, Planned, WithSteps, EndsClean, AnchorLine, AfterProse, AllBlank, Prose, BlockLength, Steps, ItemAt;
    ListedKeep(text);
    ListedIffOpened(KeepLines(text), title);
    FirstListed(KeepLines(text), title);
    PlannedText(text, title, steps);
  }
}
