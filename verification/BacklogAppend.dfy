/** Appending an item to the backlog and reading it back
    (`append_item` in src/evomesh/codebase.py). */
module BacklogAppend {
  import opened Options
  import opened Text
  import opened BacklogLines
  import opened Backlog
  import opened BacklogEdits

  /** What the backlog text lists: `open_improvements`. */
  function Listed(text: string): seq<Improvement> {
    Items(Lines(text))
  }

  lemma {:induction false} ListedKeep(text: string)
    ensures Items(KeepLines(text)) == Listed(text)
  {
    hide Items;
    KeepLinesTrim(text);
    SameItems(KeepLines(text), Lines(text));
  }

  predicate IsBlankLine(line: string) {
    Strip(line) == []
  }

  /** The indented detail lines, blank ones left out. */
  function Indented(detail: seq<string>): seq<string> {
    if detail == [] then []
    else if IsBlankLine(detail[0]) then Indented(detail[1..])
    else ["    " + detail[0]] + Indented(detail[1..])
  }

  function Printed(steps: seq<Step>): seq<string> {
    if steps == [] then [] else [StepLine(steps[0])] + Printed(steps[1..])
  }

  function ItemLines(item: Improvement): seq<string> {
    ["- [ ] " + item.title] + Indented(Lines(item.detail)) + Printed(item.steps)
  }

  /** The text after `append_item`. */
  function Appended(text: string, item: Improvement): string {
    var separator := if text == "" || text[|text| - 1] == '\n' then "" else "\n";
    text + separator + Joined(ItemLines(item)) + "\n"
  }

  // ---- items that survive printing ----

  predicate Trimmed(s: string) {
    s != [] && !IsSpace(s[0]) && !IsSpace(s[|s| - 1])
  }

  predicate OneLine(s: string) {
    forall i :: 0 <= i < |s| ==> !IsBreak(s[i])
  }

  /** A detail line that is text: trimmed, and not in the step shape once indented. */
  predicate DetailLine(line: string) {
    Trimmed(line) && OneLine(line) && StepMatch("    " + line).None?
  }

  /** Trimmed title and detail lines, no blank or step-shaped detail line, open steps only. */
  ghost predicate Plain(item: Improvement) {
    && Trimmed(item.title) && OneLine(item.title)
    && item.detail == Joined(Lines(item.detail))
    && (forall i :: 0 <= i < |Lines(item.detail)| ==> DetailLine(Lines(item.detail)[i]))
    && (forall s :: s in item.steps ==> WellFormed(s))
  }

  // ---- the printed lines, each with its newline ----

  function Newlined(lines: seq<string>): (r: seq<string>)
    ensures |r| == |lines|
    ensures forall i :: 0 <= i < |lines| ==> r[i] == lines[i] + "\n"
  {
    if lines == [] then [] else [lines[0] + "\n"] + Newlined(lines[1..])
  }

  lemma {:induction false} JoinedIsFlat(lines: seq<string>)
    requires lines != []
    ensures Joined(lines) + "\n" == Flatten(Newlined(lines))
  {
    if |lines| == 1 {
      assert Newlined(lines) == [lines[0] + "\n"];
      assert Newlined(lines)[1..] == [];
      assert lines[0] + "\n" + [] == lines[0] + "\n";
    } else {
      JoinedIsFlat(lines[1..]);
      assert Newlined(lines)[1..] == Newlined(lines[1..]);
      var rest := Joined(lines[1..]);
      assert lines[0] + "\n" + rest + "\n" == lines[0] + "\n" + (rest + "\n");
    }
  }

  lemma {:induction false} NewlinedWellLined(lines: seq<string>)
    requires forall i :: 0 <= i < |lines| ==> OneLine(lines[i])
    ensures WellLined(Newlined(lines)) && forall i :: 0 <= i < |lines| ==> Terminated(Newlined(lines)[i])
  {
    var r := Newlined(lines);
    forall i | 0 <= i < |r| ensures IsLine(r[i]) && Terminated(r[i]) {
      assert r[i] == lines[i] + "\n";
    }
  }

  // ---- what a plain item's lines read as ----

  lemma StripTrimmed(a: string, s: string)
    requires Trimmed(s) && forall i :: 0 <= i < |a| ==> IsSpace(a[i])
    ensures Strip(a + s) == s
  {
    hide IsSpace;
    TrimRightIs(a + s, |a + s|);
    assert (a + s)[..|a + s|] == a + s;
    TrimLeftIs(a, s);
  }

  lemma {:induction false} TrimLeftIs(a: string, s: string)
    requires s != [] && !IsSpace(s[0]) && forall i :: 0 <= i < |a| ==> IsSpace(a[i])
    ensures TrimLeft(a + s) == s
  {
    hide IsSpace;
    if a == [] {
      assert a + s == s;
    } else {
      assert (a + s)[1..] == a[1..] + s;
      TrimLeftIs(a[1..], s);
    }
  }

  lemma BlanksAreSpace(n: string)
    requires forall i :: 0 <= i < |n| ==> n[i] == ' '
    ensures forall i :: 0 <= i < |n| ==> IsSpace(n[i])
  {
  }

  /** An indented trimmed line belongs to the item above it, and strips to what was indented. */
  lemma IndentedReads(line: string)
    requires Trimmed(line)
    ensures var l := "    " + line; TrimRight(l) == l && Continues(l) && Strip(l) == line
  {
    hide IsSpace, Boxed;
    var l := "    " + line;
    TrimRightIs(l, |l|);
    assert l[..|l|] == l;
    BlanksAreSpace("    ");
    StripTrimmed("    ", line);
    FourBlanks(line);
  }

  lemma FourBlanks(line: string)
    requires line != [] && !IsSpace(line[0])
    ensures var l := "    " + line; LeadingBlanks(l) == 4 && forall mark :: !Boxed(l, LeadingBlanks(l), mark)
  {
    var l := "    " + line;
    assert line[0] != ' ';
    LeadingBlanksIs(l, 4);
  }

  lemma DetailLineReads(line: string)
    requires DetailLine(line)
    ensures var l := "    " + line + "\n"; Continues(l) && StepMatch(l).None? && Strip(l) == line && !IsBlankLine(line)
  {
    hide StepMatch, Continues, TrimRight, IsSpace, TrimLeft;
    IndentedReads(line);
    TrimRightPad("    " + line, '\n') by {
      assert IsSpace('\n') by { NewlineIsSpace(); }
    }
    SameLine("    " + line + "\n", "    " + line);
    StripTrimmed("", line);
    assert "" + line == line;
  }

  lemma NewlineIsSpace()
    ensures IsSpace('\n') && IsBreak('\n')
  {
  }

  lemma {:induction false} DetailsRead(detail: seq<string>)
    requires forall i :: 0 <= i < |detail| ==> DetailLine(detail[i])
    ensures var lines := Newlined(Indented(detail));
      && Details(lines) == detail && Steps(lines) == []
      && forall i :: 0 <= i < |lines| ==> Continues(lines[i])
  {
    hide DetailLine, StepMatch, Continues, Strip, IsBlankLine;
    if detail != [] {
      DetailsRead(detail[1..]);
      DetailLineReads(detail[0]);
      var first, rest := "    " + detail[0] + "\n", Newlined(Indented(detail[1..]));
      assert Indented(detail) == ["    " + detail[0]] + Indented(detail[1..]);
      assert Indented(detail)[1..] == Indented(detail[1..]);
      var lines := Newlined(Indented(detail));
      assert lines == [first] + rest && lines[1..] == rest;
    }
  }

  lemma {:induction false} PrintedNewlined(steps: seq<Step>)
    ensures Newlined(Printed(steps)) == StepLines(steps)
  {
    hide StepLine;
    if steps != [] {
      PrintedNewlined(steps[1..]);
      assert Printed(steps)[1..] == Printed(steps[1..]);
    }
  }

  lemma NewlinedAppend(a: seq<string>, b: seq<string>)
    ensures Newlined(a + b) == Newlined(a) + Newlined(b)
  {
  }

  lemma {:induction false} JoinedTrimmed(detail: seq<string>)
    requires forall i :: 0 <= i < |detail| ==> Trimmed(detail[i])
    ensures detail != [] ==> Trimmed(Joined(detail))
  {
    hide IsSpace;
    if |detail| > 1 {
      JoinedTrimmed(detail[1..]);
      var r := Joined(detail);
      assert r == detail[0] + "\n" + Joined(detail[1..]);
      assert r[0] == detail[0][0] && r[|r| - 1] == Joined(detail[1..])[|Joined(detail[1..])| - 1];
    }
  }

  lemma {:induction false} StripOfDetail(detail: seq<string>)
    requires forall i :: 0 <= i < |detail| ==> Trimmed(detail[i])
    ensures Strip(Joined(detail)) == Joined(detail)
  {
    hide Trimmed;
    if detail != [] {
      JoinedTrimmed(detail);
      StripTrimmed("", Joined(detail));
      assert "" + Joined(detail) == Joined(detail);
    }
  }

  lemma TitleReads(title: string)
    requires Trimmed(title)
    ensures OpenTitle("- [ ] " + title + "\n") == Some(title) && !Continues("- [ ] " + title + "\n")
  {
    hide IsSpace;
    var l := "- [ ] " + title;
    TrimRightIs(l, |l|);
    assert l[..|l|] == l;
    NewlineIsSpace();
    TrimRightPad(l, '\n');
    LeadingBlanksIs(l, 0);
    assert l[6..] == title;
    assert !IsSpace(l[6]);
  }

  /** The lines written for a plain item list exactly that item. */
  lemma ItemLinesRead(item: Improvement)
    requires Plain(item)
    ensures Items(Newlined(ItemLines(item))) == [item] && Fresh(Newlined(ItemLines(item)))
  {
    hide DetailLine, WellFormed, Continues, OpenTitle, Items, Details, Steps, Strip, Newlined, Indented, Printed, StepLines;
    var detail := Lines(item.detail);
    var head := "- [ ] " + item.title + "\n";
    var prose, written := Newlined(Indented(detail)), StepLines(item.steps);
    NewlinedAppend(["- [ ] " + item.title] + Indented(detail), Printed(item.steps));
    NewlinedAppend(["- [ ] " + item.title], Indented(detail));
    PrintedNewlined(item.steps);
    assert Newlined(["- [ ] " + item.title]) == [head];
    var lines := Newlined(ItemLines(item));
    assert lines == [head] + prose + written;
    TitleReads(item.title);
    DetailsRead(detail);
    StepLinesParse(item.steps);
    Regroup([head], prose, written);
    PartsAppend(prose, written);
    BlockIsItem(item, head, prose, written);
  }

  lemma BlockIsItem(item: Improvement, head: string, prose: seq<string>, written: seq<string>)
    requires Plain(item) && OpenTitle(head) == Some(item.title)
    requires (forall i :: 0 <= i < |prose| ==> Continues(prose[i])) && (forall i :: 0 <= i < |written| ==> Continues(written[i]))
    requires Details(prose + written) == Lines(item.detail) + [] && Steps(prose + written) == [] + item.steps
    ensures Items([head] + (prose + written)) == [item]
  {
    hide DetailLine, WellFormed, Continues, OpenTitle, Items, Details, Steps, Strip;
    var block := prose + written;
    assert [head] + block + [] == [head] + block;
    ItemsOfChunk(head, block, []);
    NothingListed();
    assert Lines(item.detail) + [] == Lines(item.detail) && [] + item.steps == item.steps;
    assert forall i :: 0 <= i < |Lines(item.detail)| ==> Trimmed(Lines(item.detail)[i]) by {
      DetailsTrimmed(Lines(item.detail));
    }
    StripOfDetail(Lines(item.detail));
  }

  lemma DetailsTrimmed(detail: seq<string>)
    requires forall i :: 0 <= i < |detail| ==> DetailLine(detail[i])
    ensures forall i :: 0 <= i < |detail| ==> Trimmed(detail[i]) && OneLine(detail[i])
  {
    hide StepMatch, Trimmed, OneLine;
  }

  lemma {:induction false} IndentedOneLine(detail: seq<string>)
    requires forall i :: 0 <= i < |detail| ==> OneLine(detail[i])
    ensures forall i :: 0 <= i < |Indented(detail)| ==> OneLine(Indented(detail)[i])
  {
    hide IsBlankLine;
    if detail != [] {
      IndentedOneLine(detail[1..]);
    }
  }

  lemma {:induction false} PrintedOneLine(steps: seq<Step>)
    requires forall s :: s in steps ==> WellFormed(s)
    ensures forall i :: 0 <= i < |Printed(steps)| ==> OneLine(Printed(steps)[i])
  {
    hide WellFormed, StepLine, IsBreak;
    if steps != [] {
      StepLineIsOneLine(steps[0]);
      PrintedOneLine(steps[1..]);
    }
  }

  lemma ItemLinesOneLine(item: Improvement)
    requires Plain(item)
    ensures forall i :: 0 <= i < |ItemLines(item)| ==> OneLine(ItemLines(item)[i])
  {
    hide WellFormed, DetailLine, Trimmed, Indented, Printed;
    DetailsTrimmed(Lines(item.detail));
    IndentedOneLine(Lines(item.detail));
    PrintedOneLine(item.steps);
  }

  // ---- what is before the new item ----

  /** One more blank line at the end never changes what is listed. */
  lemma {:induction false} BlankAtEnd(lines: seq<string>)
    ensures Items(lines + ["\n"]) == Items(lines)
    decreases |lines|
  {
    hide OpenTitle, Continues, ParseItem, Items;
    if lines == [] {
      BlankListsNothing();
      assert lines + ["\n"] == ["\n"];
    } else if OpenTitle(lines[0]).Some? {
      var block, rest := ChunkAt(lines, 0);
      assert lines == [lines[0]] + block + rest;
      ItemsOfChunk(lines[0], block, rest);
      if rest == [] {
        BlankInBlock(lines[0], block);
        assert lines + ["\n"] == [lines[0]] + (block + ["\n"]);
      } else {
        BlankAtEnd(rest);
        ItemsOfChunk(lines[0], block, rest + ["\n"]);
        Regroup([lines[0]] + block, rest, ["\n"]);
      }
    } else {
      BlankAtEnd(lines[1..]);
      SkipsHead(lines[0], lines[1..]);
      SkipsHead(lines[0], lines[1..] + ["\n"]);
      assert lines == [lines[0]] + lines[1..];
      Regroup([lines[0]], lines[1..], ["\n"]);
    }
  }

  lemma BlankContinues()
    ensures Continues("\n") && StepMatch("\n").None? && Strip("\n") == [] && OpenTitle("\n").None?
  {
    assert TrimRight("\n") == [];
  }

  lemma BlankListsNothing()
    ensures Items(["\n"]) == Items([])
  {
    hide OpenTitle, Continues, StepMatch, Strip, Items;
    BlankContinues();
    assert ["\n"] + [] == ["\n"];
    ItemsSkip(["\n"], []);
  }

  lemma {:induction false} BlankInBlock(head: string, block: seq<string>)
    requires OpenTitle(head).Some? && forall i :: 0 <= i < |block| ==> Continues(block[i])
    ensures Items([head] + (block + ["\n"])) == Items([head] + block + [])
  {
    hide OpenTitle, Continues, Items, Details, Steps, Strip;
    BlankContinues();
    ItemsOfChunk(head, block, []);
    ItemsOfChunk(head, block + ["\n"], []);
    assert [head] + (block + ["\n"]) + [] == [head] + (block + ["\n"]);
    PartsAppend(block, ["\n"]);
    BlankParts();
    assert Steps(block) + [] == Steps(block);
    JoinedBlank(Details(block));
  }

  lemma BlankParts()
    ensures Details(["\n"]) == [""] && Steps(["\n"]) == []
  {
    hide StepMatch, Strip;
    BlankContinues();
    assert ["\n"][1..] == [];
  }

  lemma JoinedBlank(parts: seq<string>)
    ensures Strip(Joined(parts + [""])) == Strip(Joined(parts))
  {
    hide TrimLeft, TrimRight, IsSpace;
    if parts == [] {
      assert parts + [""] == [""];
    } else {
      JoinedSnoc(parts, "");
      assert Joined(parts) + "\n" + "" == Joined(parts) + "\n";
      NewlineIsSpace();
      TrimRightPad(Joined(parts), '\n');
    }
  }

  /** The old lines as they stand before the appended ones. */
  function Before(text: string): seq<string> {
    var lines := KeepLines(text);
    if text == "" || text[|text| - 1] == '\n' then lines
    else if Terminated(lines[|lines| - 1]) then lines + ["\n"]
    else EndLast(lines)
  }

  lemma FlattenLast(front: seq<string>, last: string)
    ensures Flatten(front + [last]) == Flatten(front) + last
  {
    FlattenAppend(front, [last]);
    FlattenOne(last);
  }

  lemma LastOfKeep(text: string)
    requires text != ""
    ensures KeepLines(text) != [] && KeepLines(text)[|KeepLines(text)| - 1] != []
    ensures var last := KeepLines(text)[|KeepLines(text)| - 1]; last[|last| - 1] == text[|text| - 1]
  {
    hide KeepLines, IsBreak, Flatten, Terminated;
    var lines := KeepLines(text);
    KeepLinesWellLined(text);
    if lines == [] {
      NothingFlat();
    } else {
      var front, last := lines[..|lines| - 1], lines[|lines| - 1];
      assert last in lines && lines == front + [last];
      FlattenLast(front, last);
    }
  }

  lemma NothingFlat()
    ensures Flatten([]) == ""
  {
  }

  lemma {:induction false} FlattenEndLast(lines: seq<string>)
    requires lines != [] && !Terminated(lines[|lines| - 1])
    ensures Flatten(EndLast(lines)) == Flatten(lines) + "\n"
  {
    hide IsBreak, Flatten;
    var front, last := lines[..|lines| - 1], lines[|lines| - 1];
    assert lines == front + [last];
    NewlineIsSpace();
    assert Ended(last) == last + "\n";
    FlattenLast(front, last);
    FlattenLast(front, last + "\n");
    Regroup(Flatten(front), last, "\n");
  }

  lemma FlattenOne(line: string)
    ensures Flatten([line]) == line
  {
    assert Flatten([line]) == line + Flatten([]);
  }

  lemma EndLastWellLined(lines: seq<string>)
    requires WellLined(lines) && lines != [] && !Terminated(lines[|lines| - 1])
    ensures WellLined(EndLast(lines)) && Terminated(EndLast(lines)[|lines| - 1])
  {
    NewlineIsSpace();
    var r := EndLast(lines);
    forall l | l in r ensures IsLine(l) {
      var i :| 0 <= i < |r| && r[i] == l;
      if i < |lines| - 1 {
        assert l == lines[i];
      } else {
        var last := lines[|lines| - 1];
        assert last in lines && l == last + "\n";
      }
    }
  }

  /** What stands before the appended lines is the old text, ended, and lists what it listed. */
  lemma BeforeFacts(text: string)
    ensures Items(Before(text)) == Listed(text)
    ensures WellLined(Before(text)) && (Before(text) != [] ==> Terminated(Before(text)[|Before(text)| - 1]))
    ensures Flatten(Before(text)) == text + if text == "" || text[|text| - 1] == '\n' then "" else "\n"
  {
    hide Items, EndLast, IsBreak, Terminated, TrimRight;
    var lines := KeepLines(text);
    KeepLinesWellLined(text);
    ListedKeep(text);
    NewlineIsSpace();
    if text != "" {
      LastOfKeep(text);
      var last := lines[|lines| - 1];
      if text[|text| - 1] == '\n' {
        EndsTerminated(last);
      } else if Terminated(last) {
        BlankAtEnd(lines);
        FlattenAppend(lines, ["\n"]);
        FlattenOne("\n");
        BlankWellLined(lines);
      } else {
        FlattenEndLast(lines);
        EndLastWellLined(lines);
        EndLastTrims(lines);
        SameItems(lines, EndLast(lines));
      }
    }
  }

  lemma EndsTerminated(line: string)
    requires line != [] && line[|line| - 1] == '\n'
    ensures Terminated(line)
  {
  }

  lemma BlankWellLined(lines: seq<string>)
    requires WellLined(lines) && lines != [] && Terminated(lines[|lines| - 1])
    ensures WellLined(lines + ["\n"]) && Terminated((lines + ["\n"])[|lines|])
  {
    NewlineIsSpace();
  }

  lemma EndLastTrims(lines: seq<string>)
    requires lines != []
    ensures SameTrimmed(lines, EndLast(lines))
  {
    hide TrimRight, Ended;
    EndedTrims(lines[|lines| - 1]);
  }

  lemma WellLinedAppend(a: seq<string>, b: seq<string>)
    requires WellLined(a) && WellLined(b) && (a != [] ==> Terminated(a[|a| - 1]))
    ensures WellLined(a + b)
  {
    hide IsLine, Terminated;
  }

  /** Append round trip: whatever the old text ended with, the text after `append_item`
      lists the earlier items unchanged and then exactly the appended one. */
  lemma AppendRoundTrip(text: string, item: Improvement)
    requires Plain(item)
    ensures Listed(Appended(text, item)) == Listed(text) + [item]
  {
    hide Items, Plain, WellLined, Before, Terminated, Newlined, ItemLines, Listed, OneLine;
    var before, written := Before(text), Newlined(ItemLines(item));
    BeforeFacts(text);
    ItemLinesOneLine(item);
    NewlinedWellLined(ItemLines(item));
    WellLinedAppend(before, written);
    SplitJoined(before + written);
    FlattenAppend(before, written);
    AppendedFlat(text, item);
    ListedKeep(Appended(text, item));
    ItemLinesRead(item);
    ItemsAppend(before, written);
  }

  lemma AppendedFlat(text: string, item: Improvement)
    ensures Appended(text, item) == (text + if text == "" || text[|text| - 1] == '\n' then "" else "\n") + Flatten(Newlined(ItemLines(item)))
  {
    hide Joined, Newlined;
    var lines := ItemLines(item);
    assert |lines| > 0;
    JoinedIsFlat(lines);
    var separator := if text == "" || text[|text| - 1] == '\n' then "" else "\n";
    Regroup(text + separator, Joined(lines), "\n");
  }
}
