/** Ticking one step of an open item (`tick_step` in src/evomesh/codebase.py). */
module BacklogSteps {
  import opened Options
  import opened Text
  import opened BacklogLines
  import opened Backlog

  predicate IsOpenStep(line: string, number: nat) {
    StepMatch(line).Some? && StepMatch(line).value.number == number && !StepMatch(line).value.done
  }

  /** The steps with the first open one of this number done. */
  function TickedSteps(steps: seq<Step>, number: nat): (r: seq<Step>)
    ensures |r| == |steps|
  {
    if steps == [] then []
    else if steps[0].number == number && !steps[0].done then [steps[0].(done := true)] + steps[1..]
    else [steps[0]] + TickedSteps(steps[1..], number)
  }

  /** Only a step of this number changes, and only from open to done. */
  lemma {:induction false} TickedStepsFacts(steps: seq<Step>, number: nat)
    ensures var r := TickedSteps(steps, number);
      forall i :: 0 <= i < |steps| ==>
        r[i] == steps[i] || (steps[i].number == number && !steps[i].done && r[i] == steps[i].(done := true))
  {
    if steps != [] {
      TickedStepsFacts(steps[1..], number);
    }
  }

  /** The list with the first item of this title that has the step open showing it done. */
  function Ticked(items: seq<Improvement>, title: string, number: nat): seq<Improvement> {
    if items == [] then []
    else if items[0].title == title && items[0].HasOpenStep(number) then
      [items[0].(steps := TickedSteps(items[0].steps, number))] + items[1..]
    else [items[0]] + Ticked(items[1..], title, number)
  }

  predicate Tickable(items: seq<Improvement>, title: string, number: nat) {
    exists i :: 0 <= i < |items| && items[i].title == title && items[i].HasOpenStep(number)
  }

  /** Where the first open step of this number stands in a block, or the block's length. */
  function BlockStep(block: seq<string>, number: nat): (j: nat)
    ensures j <= |block|
  {
    if block == [] || IsOpenStep(block[0], number) then 0 else 1 + BlockStep(block[1..], number)
  }

  lemma {:induction false} BlockStepIsOpen(block: seq<string>, number: nat)
    ensures BlockStep(block, number) < |block| ==> IsOpenStep(block[BlockStep(block, number)], number)
  {
    hide IsOpenStep;
    if block != [] && !IsOpenStep(block[0], number) {
      BlockStepIsOpen(block[1..], number);
    }
  }

  /** The line the loop of `tick_step` stops at, or the number of lines. */
  function StepAt(lines: seq<string>, title: string, number: nat, inside: bool): (k: nat)
    ensures k <= |lines|
  {
    if lines == [] then 0
    else if OpenTitle(lines[0]).Some? then 1 + StepAt(lines[1..], title, number, OpenTitle(lines[0]).value == title)
    else
      var still := inside && Continues(lines[0]);
      if still && IsOpenStep(lines[0], number) then 0
      else 1 + StepAt(lines[1..], title, number, still)
  }

  lemma {:induction false} StepAtFinds(lines: seq<string>, title: string, number: nat, inside: bool)
    ensures var k := StepAt(lines, title, number, inside); k < |lines| ==> IsOpenStep(lines[k], number)
  {
    hide OpenTitle, Continues, IsOpenStep;
    if lines != [] {
      StepAtFinds(lines[1..], title, number, inside && OpenTitle(lines[0]).None? && Continues(lines[0]));
      if OpenTitle(lines[0]).Some? {
        StepAtFinds(lines[1..], title, number, OpenTitle(lines[0]).value == title);
      }
    }
  }

  // ---- inside one block ----

  lemma {:induction false} StepAtInBlock(block: seq<string>, rest: seq<string>, title: string, number: nat, inside: bool)
    requires Fresh(rest) && forall i :: 0 <= i < |block| ==> Continues(block[i])
    ensures StepAt(block + rest, title, number, inside) ==
      if inside && BlockStep(block, number) < |block| then BlockStep(block, number)
      else |block| + StepAt(rest, title, number, false)
  {
    hide IsOpenStep, IsDone;
    if block == [] {
      assert block + rest == rest;
      StepAtFresh(rest, title, number, inside);
    } else {
      assert Continues(block[0]) && OpenTitle(block[0]).None?;
      var all := block + rest;
      assert all[0] == block[0] && all[1..] == block[1..] + rest;
      StepAtInBlock(block[1..], rest, title, number, inside);
    }
  }

  lemma StepAtFresh(rest: seq<string>, title: string, number: nat, inside: bool)
    requires Fresh(rest)
    ensures StepAt(rest, title, number, inside) == StepAt(rest, title, number, false)
  {
    hide IsOpenStep, OpenTitle, Continues;
  }

  lemma {:induction false} StepsTicked(block: seq<string>, number: nat)
    requires BlockStep(block, number) < |block|
    ensures var j := BlockStep(block, number); var after := block[j := TickedStepLine(block[j])];
      Steps(after) == TickedSteps(Steps(block), number) && Details(after) == Details(block)
  {
    hide StepMatch, TickedStepLine, Strip;
    BlockStepIsOpen(block, number);
    var j := BlockStep(block, number);
    var after := block[j := TickedStepLine(block[j])];
    if j == 0 {
      TickedStepIsDone(block[0]);
      assert after[1..] == block[1..];
    } else {
      assert after[1..] == block[1..][j - 1 := TickedStepLine(block[j])];
      StepsTicked(block[1..], number);
    }
  }

  lemma {:induction false} OpenStepInBlock(block: seq<string>, number: nat)
    ensures BlockStep(block, number) < |block| <==>
      exists i :: 0 <= i < |Steps(block)| && Steps(block)[i].number == number && !Steps(block)[i].done
  {
    hide StepMatch;
    if block != [] {
      OpenStepInBlock(block[1..], number);
      var all, later := Steps(block), Steps(block[1..]);
      if StepMatch(block[0]).Some? {
        assert all == [StepMatch(block[0]).value] + later;
        if i :| 0 <= i < |later| && later[i].number == number && !later[i].done {
          assert all[i + 1] == later[i];
        }
        if IsOpenStep(block[0], number) {
          assert all[0].number == number && !all[0].done;
        }
        if i :| 0 <= i < |all| && all[i].number == number && !all[i].done {
          assert i > 0 ==> all[i] == later[i - 1];
        }
      }
    }
  }

  /** A ticked step still belongs to the item above it. */
  lemma TickedStillContinues(line: string, number: nat)
    requires Continues(line) && IsOpenStep(line, number)
    ensures Continues(TickedStepLine(line))
  {
    hide StepMatch, TickedStepLine, TrimRight, OpenTitle, IsDone;
    StepHasBox(line);
    TickedStepIsDone(line);
    StepHasBox(TickedStepLine(line));
    StepContinues(line);
    IndentOf(line);
    StepContinues(TickedStepLine(line));
  }

  lemma IndentOf(line: string)
    requires Continues(line) && TrimRight(line) != []
    ensures TrimRight(line)[0] == ' ' || TrimRight(line)[0] == '\t'
  {
    hide OpenTitle, IsDone;
  }

  // ---- in the whole file ----

  lemma TickedHead(head: string, block: seq<string>, rest: seq<string>, title: string, number: nat)
    requires OpenTitle(head) == Some(title) && Fresh(rest) && forall i :: 0 <= i < |block| ==> Continues(block[i])
    requires BlockStep(block, number) < |block|
    ensures var j := BlockStep(block, number);
      Items([head] + block[j := TickedStepLine(block[j])] + rest) ==
        [ParseItem(title, block).(steps := TickedSteps(Steps(block), number))] + Items(rest)
  {
    hide OpenTitle, Continues, TickedStepLine, Items;
    BlockStepIsOpen(block, number);
    var j := BlockStep(block, number);
    TickedStillContinues(block[j], number);
    ItemsOfChunk(head, block[j := TickedStepLine(block[j])], rest);
    StepsTicked(block, number);
  }

  /** `tick_step` finds a line exactly when some item of the title has the step open, and
      ticking that line ticks that step in the list and nothing else. */
  lemma {:induction false} TickStepTicks(lines: seq<string>, title: string, number: nat)
    ensures var k := StepAt(lines, title, number, false);
      && (k < |lines| <==> Tickable(Items(lines), title, number))
      && (k < |lines| ==> Items(lines[k := TickedStepLine(lines[k])]) == Ticked(Items(lines), title, number))
    decreases |lines|
  {
    hide OpenTitle, Continues, TickedStepLine, IsOpenStep, Items, Ticked, StepAt, Tickable;
    if lines == [] {
      NothingToTick(title, number);
    } else if OpenTitle(lines[0]).Some? {
      var block, rest := ChunkAt(lines, 0);
      assert lines == [lines[0]] + block + rest;
      TickStepTicks(rest, title, number);
      TickInChunk(lines[0], block, rest, title, number);
    } else {
      TickStepTicks(lines[1..], title, number);
      TickBeyond(lines, title, number);
    }
  }

  lemma NothingToTick(title: string, number: nat)
    ensures StepAt([], title, number, false) == 0 && !Tickable(Items([]), title, number)
  {
  }

  lemma TickBeyond(lines: seq<string>, title: string, number: nat)
    requires lines != [] && OpenTitle(lines[0]).None?
    requires var k := StepAt(lines[1..], title, number, false);
      && (k < |lines[1..]| <==> Tickable(Items(lines[1..]), title, number))
      && (k < |lines[1..]| ==> Items(lines[1..][k := TickedStepLine(lines[1..][k])]) == Ticked(Items(lines[1..]), title, number))
    ensures var k := StepAt(lines, title, number, false);
      && (k < |lines| <==> Tickable(Items(lines), title, number))
      && (k < |lines| ==> Items(lines[k := TickedStepLine(lines[k])]) == Ticked(Items(lines), title, number))
  {
    hide OpenTitle, Continues, TickedStepLine, IsOpenStep, Ticked, Tickable;
    var k := StepAt(lines[1..], title, number, false);
    assert StepAt(lines, title, number, false) == 1 + k;
    if k < |lines[1..]| {
      var after := lines[k + 1 := TickedStepLine(lines[k + 1])];
      assert after[1..] == lines[1..][k := TickedStepLine(lines[1..][k])];
    }
  }

  lemma TickInChunk(head: string, block: seq<string>, rest: seq<string>, title: string, number: nat)
    requires OpenTitle(head).Some? && Fresh(rest) && forall i :: 0 <= i < |block| ==> Continues(block[i])
    requires var k := StepAt(rest, title, number, false);
      && (k < |rest| <==> Tickable(Items(rest), title, number))
      && (k < |rest| ==> Items(rest[k := TickedStepLine(rest[k])]) == Ticked(Items(rest), title, number))
    ensures var lines := [head] + block + rest; var k := StepAt(lines, title, number, false);
      && (k < |lines| <==> Tickable(Items(lines), title, number))
      && (k < |lines| ==> Items(lines[k := TickedStepLine(lines[k])]) == Ticked(Items(lines), title, number))
  {
    hide OpenTitle, Continues, TickedStepLine, IsOpenStep, Items, ParseItem, Steps;
    var lines := [head] + block + rest;
    var own := OpenTitle(head).value;
    var item := ParseItem(own, block);
    StepAtHead(head, block, rest, title, number);
    ItemsOfChunk(head, block, rest);
    OpenIffBlock(own, block, number);
    TickableCons(item, Items(rest), title, number);
    assert ([item] + Items(rest))[1..] == Items(rest);
    var j, k := BlockStep(block, number), StepAt(rest, title, number, false);
    if own == title && j < |block| {
      TickedHead(head, block, rest, title, number);
      assert lines[1 + j := TickedStepLine(block[j])] == [head] + block[j := TickedStepLine(block[j])] + rest;
    } else if k < |rest| {
      var after := rest[k := TickedStepLine(rest[k])];
      StepAtFinds(rest, title, number, false);
      TickedStaysFresh(rest, k, number);
      assert lines[1 + |block| + k := TickedStepLine(rest[k])] == [head] + block + after;
      ItemsOfChunk(head, block, after);
    }
  }

  lemma StepAtHead(head: string, block: seq<string>, rest: seq<string>, title: string, number: nat)
    requires OpenTitle(head).Some? && Fresh(rest) && forall i :: 0 <= i < |block| ==> Continues(block[i])
    ensures StepAt([head] + block + rest, title, number, false) ==
      if OpenTitle(head).value == title && BlockStep(block, number) < |block| then 1 + BlockStep(block, number)
      else 1 + |block| + StepAt(rest, title, number, false)
  {
    hide OpenTitle, Continues, IsOpenStep;
    var lines := [head] + block + rest;
    assert lines[1..] == block + rest && lines[0] == head;
    StepAtInBlock(block, rest, title, number, OpenTitle(head).value == title);
  }

  lemma OpenIffBlock(title: string, block: seq<string>, number: nat)
    ensures ParseItem(title, block).title == title
    ensures ParseItem(title, block).HasOpenStep(number) <==> BlockStep(block, number) < |block|
    ensures ParseItem(title, block).steps == Steps(block)
  {
    hide Details, Strip, BlockStep;
    var steps := ParseItem(title, block).steps;
    assert steps == Steps(block);
    OpenStepInBlock(block, number);
    if i :| 0 <= i < |steps| && steps[i].number == number && !steps[i].done {
      assert Steps(block)[i] == steps[i];
    }
  }

  lemma TickableCons(item: Improvement, items: seq<Improvement>, title: string, number: nat)
    ensures Tickable([item] + items, title, number) <==>
      (item.title == title && item.HasOpenStep(number)) || Tickable(items, title, number)
  {
    var all := [item] + items;
    if i :| 0 <= i < |items| && items[i].title == title && items[i].HasOpenStep(number) {
      assert all[i + 1] == items[i];
    }
    if item.title == title && item.HasOpenStep(number) {
      assert all[0] == item;
    }
    if i :| 0 <= i < |all| && all[i].title == title && all[i].HasOpenStep(number) {
      assert i > 0 ==> all[i] == items[i - 1];
    }
  }

  /** The line ticked is never the first of a fresh rest, so the rest stays fresh. */
  lemma TickedStaysFresh(rest: seq<string>, k: nat, number: nat)
    requires Fresh(rest) && k < |rest| && IsOpenStep(rest[k], number)
    ensures Fresh(rest[k := TickedStepLine(rest[k])])
  {
    if k == 0 {
      NotIndented(rest[0], number);
    }
  }

  lemma NotIndented(line: string, number: nat)
    requires !Continues(line) && IsOpenStep(line, number)
    ensures !Continues(TickedStepLine(line))
  {
    hide StepMatch, TickedStepLine, TrimRight, OpenTitle, IsDone;
    StepHasBox(line);
    TickedStepIsDone(line);
    StepContinues(line);
  }
}
