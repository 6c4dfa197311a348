/** The prompt text. */
module PromptText {
  // The assembled prompt: its length against the budget, what the provenance records say of
  // it, and packets for which the final cut takes text away
  // (`assemble_with_provenance` in src/evomesh/cognitive_services.py).

  import opened Text
  import opened ContextBudget
  import opened PromptBudget
  import opened PromptContents

  // ---- the assembly ----

  class ContextAssembler {
    const maxChars: int

    constructor (maxChars: int)
      ensures this.maxChars == maxChars
    {
      this.maxChars := maxChars;
    }

    /** The loop over sections that fills `allocations` and takes from `remaining`. */
    method HandOut(rule: Rule, sections: seq<Section>, allocations: map<Source, int>, remaining: int)
      returns (given: map<Source, int>, left: int)
      requires maxChars >= 1
      ensures Granted(given, left) == Hand(rule, maxChars, sections, Granted(allocations, remaining))
    {
      given, left := allocations, remaining;
      var k := 0;
      assert sections[..0] == [];
      while k < |sections|
        invariant k <= |sections|
        invariant Granted(given, left) == Hand(rule, maxChars, sections[..k], Granted(allocations, remaining))
      {
        var section := sections[k];
        assert sections[..k + 1][..k] == sections[..k];
        var allocation := Grant(rule, maxChars, section, left);
        given := given[section.source := allocation];
        left := left - allocation;
        k := k + 1;
      }
      assert sections[..k] == sections;
    }

    /** `assemble_with_provenance`. */
    method Assemble(packet: Packet) returns (text: string, provenance: seq<Record>)
      ensures maxChars < 1 ==> text == "" && provenance == []
      ensures maxChars >= 1 ==>
        && text == Cut(Uncut(packet, maxChars), maxChars)
        && provenance == Provenance(OutputOf(packet), Allocated(packet, maxChars).allocations)
      ensures maxChars >= 1 && Fits(packet, maxChars) ==> text == WholeText(packet)
    {
      hide Fits, WholeText, Hand, Specs, Sorted, Chosen, FullCost, Stacked, Clip;
      if maxChars < 1 {
        return "", [];
      }
      var specs := Specs(packet);
      var remaining: int := Max(0, maxChars - 2 * Max(0, |specs| - 1));
      var required := Sorted(ByPriority, Chosen(specs, true));
      var allocations: map<Source, int>;
      if FullCost(required) <= remaining {
        allocations, remaining := HandOut(Whole, required, map[], remaining);
      } else {
        allocations, remaining := HandOut(Shared, required, map[], remaining);
      }
      var optional := Sorted(ByPriority, Chosen(specs, false));
      allocations, remaining := HandOut(Spare, optional, allocations, remaining);
      assert allocations == Allocated(packet, maxChars).allocations;

      var outputSpecs := Sorted(ForOutput, specs);
      var rendered: seq<string> := [];
      provenance := [];
      var k := 0;
      assert outputSpecs[..0] == [];
      while k < |outputSpecs|
        invariant k <= |outputSpecs|
        invariant rendered == RenderedAll(outputSpecs[..k], allocations)
        invariant provenance == Provenance(outputSpecs[..k], allocations)
      {
        var section := outputSpecs[k];
        assert outputSpecs[..k + 1][..k] == outputSpecs[..k];
        var allocation := AllocationOf(allocations, section);
        var contentBudget := Max(0, allocation - LabelCost(section));
        var selected := ClipHead(section.content, contentBudget);
        if allocation > 0 {
          rendered := rendered + [Render(section, selected)];
        }
        provenance := provenance + [Record(section.source, |section.content|, |selected|, |selected| < |section.content|, section.required)];
        k := k + 1;
      }
      assert outputSpecs[..k] == outputSpecs;
      text := Cut(Stacked(rendered), maxChars);
      if Fits(packet, maxChars) {
        WholePrompt(packet, maxChars);
      }
    }
  }

  // ---- how long the text is ----

  /** What a section takes up in the text. */
  function Shown(a: map<Source, int>): Section -> int {
    s => if AllocationOf(a, s) > 0 then LabelCost(s) + |Selected(s, a)| else 0
  }

  lemma {:induction false} RenderedLength(sections: seq<Section>, a: map<Source, int>)
    ensures Lengths(RenderedAll(sections, a)) == Sum(sections, Shown(a))
    ensures |RenderedAll(sections, a)| <= |sections|
  {
    hide Selected, AllocationOf;
    if sections != [] {
      var front, last := sections[..|sections| - 1], sections[|sections| - 1];
      RenderedLength(front, a);
      var before := RenderedAll(front, a);
      var part := Render(last, Selected(last, a));
      assert (before + [part])[..|before|] == before;
      assert before + [] == before;
    }
  }

  /** The length of the text before the cut, section by section, as the provenance counts it. */
  lemma UncutLength(p: Packet, maxChars: nat)
    ensures var a := Allocated(p, maxChars).allocations; var parts := RenderedAll(OutputOf(p), a);
      |Uncut(p, maxChars)| == Sum(OutputOf(p), Shown(a)) + if parts == [] then 0 else 2 * (|parts| - 1)
  {
    hide Allocated, OutputOf, Stacked, Lengths, Sum;
    var a := Allocated(p, maxChars).allocations;
    RenderedLength(OutputOf(p), a);
    StackedLength(RenderedAll(OutputOf(p), a));
  }

  /** The records are about the printed sections, one each, and count what was selected. */
  lemma {:induction false} ProvenanceCounts(sections: seq<Section>, a: map<Source, int>)
    ensures |Provenance(sections, a)| == |sections|
    ensures forall k :: 0 <= k < |sections| ==>
      var r := Provenance(sections, a)[k];
      r.source == sections[k].source && r.included == |Selected(sections[k], a)| && r.available == |sections[k].content|
  {
    hide Selected;
    if sections != [] {
      ProvenanceCounts(sections[..|sections| - 1], a);
    }
  }

  // ---- when the text fits ----

  /** Every section's clip keeps to its allocation. */
  ghost predicate ClipsFit(sections: seq<Section>, a: map<Source, int>) {
    forall s :: s in sections ==> |Selected(s, a)| <= Max(0, AllocationOf(a, s) - LabelCost(s))
  }

  /** Every allocation is nothing or covers the label. */
  ghost predicate LabelsFit(sections: seq<Section>, a: map<Source, int>) {
    forall s :: s in sections ==> AllocationOf(a, s) == 0 || AllocationOf(a, s) >= LabelCost(s)
  }

  lemma {:induction false} SparesCoverLabels(maxChars: nat, sections: seq<Section>, start: Granted)
    requires Distinct(sections)
    ensures forall s :: s in sections ==>
      var r := Hand(Spare, maxChars, sections, start).allocations;
      s.source in r && (r[s.source] == 0 || r[s.source] >= LabelCost(s))
  {
    hide LabelCost, Share;
    if sections != [] {
      var front, s := sections[..|sections| - 1], sections[|sections| - 1];
      SparesCoverLabels(maxChars, front, start);
      assert sections == front + [s];
      var before := Hand(Spare, maxChars, front, start);
      SpareCoversLabel(maxChars, s, before.remaining);
    }
  }

  lemma SpareCoversLabel(maxChars: nat, s: Section, remaining: int)
    ensures Grant(Spare, maxChars, s, remaining) == 0 || Grant(Spare, maxChars, s, remaining) >= LabelCost(s)
  {
  }

  /** From 150 characters on, or whenever the required sections fit together, every
      allocation covers its label. */
  lemma LabelsAlwaysFit(p: Packet, maxChars: nat)
    requires maxChars >= 150 || RequiredFit(p, maxChars)
    ensures LabelsFit(OutputOf(p), Allocated(p, maxChars).allocations)
  {
    hide Specs, Sorted, Chosen, Hand, Reserve, FullCost, LabelCost, Share, RequiredFit;
    PartsOf(p);
    OptionalNew(p, maxChars);
    SparesCoverLabels(maxChars, OptionalOf(p), AfterRequired(p, maxChars));
    forall s | s in OutputOf(p)
      ensures AllocationOf(Allocated(p, maxChars).allocations, s) == 0 || AllocationOf(Allocated(p, maxChars).allocations, s) >= LabelCost(s)
    {
      if s.required {
        if RequiredFit(p, maxChars) {
          RequiredVerbatim(p, maxChars, s);
        } else {
          RequiredShares(p, maxChars, s);
        }
      } else {
        assert s in OptionalOf(p);
      }
    }
  }

  lemma {:induction false} SumAtMost(sections: seq<Section>, f: Section -> int, g: Section -> int)
    requires forall s :: s in sections ==> f(s) <= g(s)
    ensures Sum(sections, f) <= Sum(sections, g)
  {
    if sections != [] {
      SumAtMost(sections[..|sections| - 1], f, g);
    }
  }

  lemma {:induction false} NothingShown(sections: seq<Section>, a: map<Source, int>)
    requires RenderedAll(sections, a) == []
    ensures forall s :: s in sections ==> AllocationOf(a, s) <= 0
    ensures Sum(sections, Shown(a)) == 0
  {
    hide Selected, AllocationOf;
    if sections != [] {
      var front, last := sections[..|sections| - 1], sections[|sections| - 1];
      assert RenderedAll(front, a) == [] && AllocationOf(a, last) <= 0;
      NothingShown(front, a);
      assert sections == front + [last];
    }
  }

  lemma {:induction false} SomethingShown(sections: seq<Section>, a: map<Source, int>)
    requires RenderedAll(sections, a) != [] && forall s :: s in sections ==> AllocationOf(a, s) >= 0
    ensures Sum(sections, Allot(a)) > 0
  {
    hide Selected, AllocationOf;
    var front, last := sections[..|sections| - 1], sections[|sections| - 1];
    assert sections == front + [last];
    SumNonNegative(front, Allot(a));
    if AllocationOf(a, last) <= 0 {
      assert RenderedAll(front, a) + [] == RenderedAll(front, a);
      SomethingShown(front, a);
    }
  }

  lemma ShownAtMostAllotted(sections: seq<Section>, a: map<Source, int>)
    requires LabelsFit(sections, a) && ClipsFit(sections, a)
    ensures Sum(sections, Shown(a)) <= Sum(sections, Allot(a))
  {
    hide Selected, AllocationOf, LabelCost;
    SumAtMost(sections, Shown(a), Allot(a));
  }

  lemma SpecsCount(p: Packet)
    ensures |OutputOf(p)| == |Specs(p)|
  {
    SumSorted(ForOutput, Specs(p), s => 0);
  }

  /** The final cut takes nothing away as long as every clip keeps to its allocation, in a
      budget of 150 characters or more, or one the required sections fit into. */
  lemma CutIsNoOp(p: Packet, maxChars: nat)
    requires maxChars >= 150 || RequiredFit(p, maxChars)
    requires ClipsFit(OutputOf(p), Allocated(p, maxChars).allocations)
    ensures |Uncut(p, maxChars)| <= maxChars && Cut(Uncut(p, maxChars), maxChars) == Uncut(p, maxChars)
  {
    hide Specs, OutputOf, Allocated, RequiredFit, Selected, AllocationOf, Uncut, LabelsFit, ClipsFit, LabelCost;
    var a := Allocated(p, maxChars).allocations;
    LabelsAlwaysFit(p, maxChars);
    AllocationsFit(p, maxChars);
    UncutLength(p, maxChars);
    ShownAtMostAllotted(OutputOf(p), a);
    WithinReserve(p, maxChars, 0);
  }

  lemma LabelsNonNegative(sections: seq<Section>, a: map<Source, int>)
    requires LabelsFit(sections, a)
    ensures forall s :: s in sections ==> AllocationOf(a, s) >= 0
  {
    hide AllocationOf;
  }

  /** The separators fit where they were reserved. */
  lemma WithinReserve(p: Packet, maxChars: nat, extra: nat)
    requires LabelsFit(OutputOf(p), Allocated(p, maxChars).allocations)
    requires Sum(OutputOf(p), Shown(Allocated(p, maxChars).allocations)) <= Sum(OutputOf(p), Allot(Allocated(p, maxChars).allocations)) + extra
    ensures |Uncut(p, maxChars)| <= maxChars + extra
  {
    hide Specs, OutputOf, Allocated, Selected, AllocationOf, Uncut, LabelsFit, LabelCost, RenderedAll;
    var a := Allocated(p, maxChars).allocations;
    AllocationsFit(p, maxChars);
    UncutLength(p, maxChars);
    SpecsCount(p);
    RenderedLength(OutputOf(p), a);
    LabelsNonNegative(OutputOf(p), a);
    if RenderedAll(OutputOf(p), a) == [] {
      NothingShown(OutputOf(p), a);
    } else {
      SomethingShown(OutputOf(p), a);
    }
  }

  /** Clips that overrun lengthen the text by at most the mark for each section. */
  lemma TextExceedsByMarks(p: Packet, maxChars: nat)
    requires maxChars >= 150 || RequiredFit(p, maxChars)
    ensures |Uncut(p, maxChars)| <= maxChars + MARK_LENGTH * |Specs(p)|
  {
    hide Specs, OutputOf, Allocated, RequiredFit, Selected, Uncut;
    var a := Allocated(p, maxChars).allocations;
    LabelsAlwaysFit(p, maxChars);
    SpecsCount(p);
    ShownAtMostMarked(OutputOf(p), a);
    WithinReserve(p, maxChars, MARK_LENGTH * |OutputOf(p)|);
  }

  lemma {:induction false} ShownAtMostMarked(sections: seq<Section>, a: map<Source, int>)
    requires LabelsFit(sections, a)
    ensures Sum(sections, Shown(a)) <= Sum(sections, Allot(a)) + MARK_LENGTH * |sections|
  {
    hide LabelCost, Clip, AllocationOf;
    if sections != [] {
      var front, last := sections[..|sections| - 1], sections[|sections| - 1];
      assert sections == front + [last];
      ShownAtMostMarked(front, a);
      ClipExceedsByMark(last.content, Max(0, AllocationOf(a, last) - LabelCost(last)));
    }
  }

  // ---- when it does not ----

  /** `k` lines of one character. */
  function Column(k: nat): string {
    if k == 0 then "" else "a\n" + Column(k - 1)
  }

  function Letters(k: nat): seq<string> {
    if k == 0 then [] else ["a"] + Letters(k - 1)
  }

  lemma {:induction false} ColumnLines(k: nat)
    ensures |Column(k)| == 2 * k && Lines(Column(k)) == Letters(k)
  {
    hide Lines;
    if k > 0 {
      ColumnLines(k - 1);
      var s := Column(k);
      assert s[0] == 'a' && s[1] == '\n' && s[2..] == Column(k - 1);
      FirstLine(s);
    } else {
      NothingSplits();
    }
  }

  lemma {:induction false} LettersSize(k: nat, n: nat)
    requires n <= k
    ensures |Letters(k)| == k && Size(Letters(k)[..n]) == 2 * n
    ensures forall i :: 0 <= i < k ==> |Letters(k)[i]| == 1
  {
    if k > 0 {
      LettersSize(k - 1, if n > 0 then n - 1 else 0);
      if n > 0 {
        assert Letters(k)[..n] == ["a"] + Letters(k - 1)[..n - 1];
        assert Letters(k)[..n][1..] == Letters(k - 1)[..n - 1];
      }
    }
    if n == 0 {
      assert Letters(k)[..0] == [];
    }
  }

  lemma {:induction false} FirstLine(s: string)
    requires |s| >= 2 && s[0] == 'a' && s[1] == '\n'
    ensures Lines(s) == ["a"] + Lines(s[2..])
  {
    assert !IsBreak('a') && IsBreak('\n');
    assert LineLength(s[1..]) == 0;
    assert LineLength(s) == 1;
    assert s[..1] == "a";
    if |s| == 2 {
      assert s[2..] == [];
    }
  }

  /** Twenty one-letter lines clipped to 16 characters come out as 43. */
  lemma ColumnOverruns(k: nat, budget: nat)
    requires k == 20 && budget == 16
    ensures |Clip(Column(k), budget)| == 43
  {
    hide Lines, Joined, KeptLines, Letters, Column, Size;
    ColumnLines(k);
    LettersSize(k, 8);
    KeptIs(Letters(k), budget, 0, 8);
    ClipLength(Column(k), budget);
  }

  function Xs(n: nat): (s: string)
    ensures |s| == n
  {
    if n == 0 then "" else "x" + Xs(n - 1)
  }

  /** A task that leaves beliefs exactly their label and sixteen characters. */
  function Tight(maxChars: nat): Packet
    requires maxChars >= 33
  {
    Packet(Xs(maxChars - 33), "", Column(20), "", "", [], "", "", "", "", "", "")
  }

  lemma PresentCons(slot: Slot, rest: seq<Slot>)
    ensures Present([slot] + rest) == if slot.present then [slot.section] + Present(rest) else Present(rest)
  {
    assert ([slot] + rest)[1..] == rest;
  }

  lemma {:induction false} PresentSkips(slots: seq<Slot>, rest: seq<Slot>)
    requires forall i :: 0 <= i < |slots| ==> !slots[i].present
    ensures Present(slots + rest) == Present(rest)
  {
    if slots == [] {
      assert slots + rest == rest;
    } else {
      assert (slots + rest)[1..] == slots[1..] + rest;
      PresentSkips(slots[1..], rest);
    }
  }

  lemma TightSpecs(p: Packet)
    requires p.beliefs != "" && p.goal == "" && p.intention == "" && p.working == "" && p.artifacts == []
    requires p.recentFailure == "" && p.world == "" && p.memory == "" && p.notes == "" && p.inbox == "" && p.outputContract == ""
    ensures Specs(p) == [Section(Beliefs, "BELIEFS", p.beliefs, 4, false, 12), Section(Task, "TASK", p.task, 0, true, 30)]
  {
    hide Present, Joined;
    var slots := Slots(p);
    var absent := slots[2..10];
    assert slots == [slots[0]] + ([slots[1]] + (absent + ([slots[10]] + [slots[11]])));
    PresentCons(slots[0], [slots[1]] + (absent + ([slots[10]] + [slots[11]])));
    PresentCons(slots[1], absent + ([slots[10]] + [slots[11]]));
    PresentSkips(absent, [slots[10]] + [slots[11]]);
    PresentCons(slots[10], [slots[11]]);
    assert [slots[11]] + [] == [slots[11]];
    PresentCons(slots[11], []);
    NonePresent();
  }

  lemma NonePresent()
    ensures Present([]) == []
  {
  }

  lemma SortedOne(order: Order, s: Section)
    ensures Sorted(order, [s]) == [s]
  {
    assert [s][..0] == [];
  }

  lemma TightParts(p: Packet, beliefs: Section, task: Section)
    requires Specs(p) == [beliefs, task] && !beliefs.required && task.required
    requires Key(ForOutput, task) < Key(ForOutput, beliefs)
    ensures RequiredOf(p) == [task] && OptionalOf(p) == [beliefs] && OutputOf(p) == [task, beliefs]
  {
    hide Specs, Key;
    ChosenTwo(beliefs, task);
    SortedOne(ByPriority, task);
    SortedOne(ByPriority, beliefs);
    SortedOne(ForOutput, beliefs);
    assert [beliefs, task][..1] == [beliefs];
    InsertBefore(ForOutput, beliefs, task);
  }

  lemma ChosenTwo(x: Section, y: Section)
    requires !x.required && y.required
    ensures Chosen([x, y], true) == [y] && Chosen([x, y], false) == [x]
  {
    assert [x, y][1..] == [y] && [y][1..] == [];
    assert Chosen([y], true) == [y] + Chosen([], true) && Chosen([y], false) == Chosen([], false);
  }

  lemma InsertBefore(order: Order, x: Section, s: Section)
    requires Key(order, s) < Key(order, x)
    ensures Insert(order, [x], s) == [s, x]
  {
    hide Key;
    assert [x][..0] == [] && Insert(order, [], s) == [s];
  }

  lemma HandOne(rule: Rule, maxChars: nat, s: Section, start: Granted)
    ensures Hand(rule, maxChars, [s], start) ==
      var grant := Grant(rule, maxChars, s, start.remaining);
      Granted(start.allocations[s.source := grant], start.remaining - grant)
  {
    hide Grant;
    assert [s][..0] == [];
  }

  lemma TightAllocations(maxChars: nat, p: Packet, beliefs: Section, task: Section)
    requires maxChars >= 33 && |Specs(p)| == 2
    requires RequiredOf(p) == [task] && OptionalOf(p) == [beliefs]
    requires beliefs.source == Beliefs && LabelCost(beliefs) == 9 && |beliefs.content| == 40
    requires task.source == Task && LabelCost(task) == 6 && |task.content| == maxChars - 33
    ensures Allocated(p, maxChars) == Granted(map[Task := maxChars - 27, Beliefs := 25], 0)
  {
    hide Specs, Sorted, Chosen, Hand, Share, LabelCost;
    assert FullCost([task]) == LabelCost(task) + |task.content| + FullCost([task][1..]);
    assert [task][1..] == [];
    HandOne(Whole, maxChars, task, Granted(map[], maxChars - 2));
    HandOne(Spare, maxChars, beliefs, Granted(map[Task := maxChars - 27], 25));
  }

  lemma RenderedTwo(a: map<Source, int>, x: Section, y: Section)
    requires AllocationOf(a, x) > 0 && AllocationOf(a, y) > 0
    ensures RenderedAll([x, y], a) == [Render(x, Selected(x, a)), Render(y, Selected(y, a))]
  {
    hide AllocationOf, Selected, Render;
    assert [x, y][..1] == [x];
    RenderedOne(a, x);
  }

  lemma RenderedOne(a: map<Source, int>, x: Section)
    requires AllocationOf(a, x) > 0
    ensures RenderedAll([x], a) == [Render(x, Selected(x, a))]
  {
    hide AllocationOf, Selected, Render;
    assert [x][..0] == [];
  }

  /** For every budget from 33 characters on there is a packet whose text the final cut
      shortens, by all 27 characters of the mark: the beliefs are clipped at a line and the
      mark is added on top of the lines kept. The provenance then counts 43 characters of
      beliefs where the text holds 16, and does not call the 40 there were truncated. */
  lemma CutTakesTheMark(maxChars: nat)
    requires maxChars >= 33
    ensures var p := Tight(maxChars); var a := Allocated(p, maxChars).allocations;
      && |Uncut(p, maxChars)| == maxChars + MARK_LENGTH
      && |Cut(Uncut(p, maxChars), maxChars)| == maxChars
      && |OutputOf(p)| == 2
      && Provenance(OutputOf(p), a) == Provenance(OutputOf(p)[..1], a) + [Record(Beliefs, 40, 43, false, false)]
  {
    hide Specs, Present, Column, Sorted, Chosen, Hand, Clip, Share, Uncut, Allocated, Key, Insert;
    var p := Tight(maxChars);
    var beliefs, task := Section(Beliefs, "BELIEFS", Column(20), 4, false, 12), Section(Task, "TASK", Xs(maxChars - 33), 0, true, 30);
    ColumnLines(20);
    TightSpecs(p);
    TightKeys(beliefs, task);
    TightParts(p, beliefs, task);
    TightAllocations(maxChars, p, beliefs, task);
    var a := Allocated(p, maxChars).allocations;
    TightText(maxChars, beliefs, task, a);
    UncutIs(p, maxChars);
  }

  lemma UncutIs(p: Packet, maxChars: nat)
    ensures Uncut(p, maxChars) == Stacked(RenderedAll(OutputOf(p), Allocated(p, maxChars).allocations))
  {
  }

  lemma TightKeys(beliefs: Section, task: Section)
    requires beliefs.source == Beliefs && beliefs.priority == 4 && !beliefs.required && task.source == Task && task.required
    ensures Key(ForOutput, task) < Key(ForOutput, beliefs)
  {
  }

  lemma TightText(maxChars: nat, beliefs: Section, task: Section, a: map<Source, int>)
    requires maxChars >= 33 && a == map[Task := maxChars - 27, Beliefs := 25]
    requires beliefs.source == Beliefs && beliefs.heading == "BELIEFS" && beliefs.content == Column(20)
    requires task.source == Task && task.heading == "TASK" && |task.content| == maxChars - 33
    ensures Selected(beliefs, a) == Clip(Column(20), 16) && |Selected(beliefs, a)| == 43
    ensures |Stacked(RenderedAll([task, beliefs], a))| == maxChars + 27
  {
    hide Column, Lines, KeptLines, Joined, Stacked, RenderedAll;
    ColumnOverruns(20, 16);
    RenderedTwo(a, task, beliefs);
    assert Selected(task, a) == task.content;
    StackedLength(RenderedAll([task, beliefs], a));
    LengthsTwo(Render(task, Selected(task, a)), Render(beliefs, Selected(beliefs, a)));
  }

  lemma LengthsTwo(x: string, y: string)
    ensures Lengths([x, y]) == |x| + |y|
  {
    assert [x, y] == [x] + [y] && [y] == [y] + [] && [y][..0] == [];
    LengthsCons(x, [y]);
  }

  // ---- below 150 characters ----

  /** Every section is there and every required one is long. */
  predicate Crowded(p: Packet) {
    && (forall i :: 0 <= i < 12 ==> Slots(p)[i].present)
    && |p.goal| >= 45 && |p.task| >= 45 && |p.outputContract| >= 45
  }

  lemma {:induction false} AskedAtCeilings(slots: seq<Slot>, maxChars: nat)
    requires forall i :: 0 <= i < |slots| ==> slots[i].present
    requires forall i :: 0 <= i < |slots| && slots[i].section.required ==>
      |slots[i].section.content| >= Max(24, Share(maxChars, slots[i].section.percent))
    ensures Sum(Chosen(Present(slots), true), Asked(maxChars)) == Ceilings(slots, maxChars)
    ensures |Present(slots)| == |slots|
  {
    hide LabelCost, Share;
    if slots != [] {
      AskedAtCeilings(slots[1..], maxChars);
      var s, rest := slots[0].section, Present(slots[1..]);
      assert ([s] + rest)[1..] == rest;
      if s.required {
        SumCons(s, Chosen(rest, true), Asked(maxChars));
      }
    }
  }

  lemma SharesAt149(maxChars: nat)
    requires maxChars == 149
    ensures Share(maxChars, 16) == 24 && Share(maxChars, 30) == 45 && Share(maxChars, 20) == 30
    ensures Ceiling3(maxChars) == 128
  {
  }

  lemma LongEnough(p: Packet, maxChars: nat)
    requires Crowded(p) && maxChars == 149
    ensures forall i :: 0 <= i < 12 && Slots(p)[i].section.required ==>
      |Slots(p)[i].section.content| >= Max(24, Share(maxChars, Slots(p)[i].section.percent))
  {
    hide Share, Joined;
    SharesAt149(maxChars);
  }

  /** 150 is exact: with 149 characters and every section there, the required ones do not
      all get label and share. */
  lemma SharesFailAt149(p: Packet, maxChars: nat)
    requires Crowded(p) && maxChars == 149
    ensures !RequiredFit(p, maxChars)
    ensures !AllDesired(maxChars, RequiredOf(p), Allocated(p, maxChars).allocations)
  {
    hide Slots, Sorted, Chosen, Present, Hand, Share, Sum, LabelCost, FullCost, Crowded;
    LongEnough(p, maxChars);
    EveryPresent(p);
    AskedAtCeilings(Slots(p), maxChars);
    CeilingsOfPacket(p, maxChars);
    SharesAt149(maxChars);
    PartsOf(p);
    SumSorted(ByPriority, Chosen(Specs(p), true), Asked(maxChars));
    FullCostIsSum(RequiredOf(p));
    AskedBelowVerbatim(RequiredOf(p), maxChars);
    SharesExactly(maxChars, RequiredOf(p), Reserve(p, maxChars));
    RequiredKept(p, maxChars);
    SameDesired(p, maxChars);
  }

  lemma EveryPresent(p: Packet)
    requires Crowded(p)
    ensures forall i :: 0 <= i < |Slots(p)| ==> Slots(p)[i].present
  {
    hide Joined;
  }

  lemma AskedBelowVerbatim(sections: seq<Section>, maxChars: nat)
    ensures Sum(sections, Asked(maxChars)) <= Sum(sections, Verbatim())
  {
    hide Share, LabelCost;
    SumAtMost(sections, Asked(maxChars), Verbatim());
  }

  lemma SameDesired(p: Packet, maxChars: nat)
    requires forall s :: s in RequiredOf(p) ==>
      AllocationOf(Allocated(p, maxChars).allocations, s) == AllocationOf(AfterRequired(p, maxChars).allocations, s)
    requires forall s :: s in RequiredOf(p) ==>
      s.source in Allocated(p, maxChars).allocations && s.source in AfterRequired(p, maxChars).allocations
    ensures AllDesired(maxChars, RequiredOf(p), Allocated(p, maxChars).allocations) <==>
      AllDesired(maxChars, RequiredOf(p), AfterRequired(p, maxChars).allocations)
  {
    hide Specs, Sorted, Chosen, Hand, Desired, RequiredFit, Reserve, Allocated, AfterRequired, RequiredOf;
  }
}
