/** The packet and its clipping. */
module ContextBudget {
  // The prompt budget of a task packet: how its characters are shared out, what clipping
  // does to a section, and when the final cut takes something away
  // (src/evomesh/cognitive_services.py, src/evomesh/memory.py).

  import opened Text

  // ---- clipping one section ----

  const TRUNCATION_MARK := "_[older entries compacted]_"
  const MARK_LENGTH: nat := 27

  lemma MarkLength()
    ensures |TRUNCATION_MARK| == MARK_LENGTH
  {
  }

  /** How many leading lines are kept when `size` characters are spent already. */
  function KeptLines(lines: seq<string>, budget: int, size: nat): (k: nat)
    ensures k <= |lines|
  {
    if lines == [] || size + |lines[0]| + 1 > budget then 0
    else 1 + KeptLines(lines[1..], budget, size + |lines[0]| + 1)
  }

  /** What lines cost, each with its newline. */
  function Size(lines: seq<string>): nat {
    if lines == [] then 0 else |lines[0]| + 1 + Size(lines[1..])
  }

  /** `clip(text, budget, keep="head")`. */
  function Clip(text: string, budget: int): string {
    if budget <= 0 then ""
    else if |text| <= budget then text
    else
      var lines := Lines(text);
      var k := KeptLines(lines, budget, 0);
      if k > 0 then Joined(lines[..k] + [TRUNCATION_MARK]) else text[..budget]
  }

  lemma {:induction false} SizeAppend(a: seq<string>, line: string)
    ensures Size(a + [line]) == Size(a) + |line| + 1
  {
    if a == [] {
      assert a + [line] == [line];
      assert Size([line]) == |line| + 1 + Size([]);
    } else {
      assert (a + [line])[1..] == a[1..] + [line];
      SizeAppend(a[1..], line);
    }
  }

  /** The lines kept are the longest run of leading lines that fits. */
  lemma {:induction false} KeptIsLongest(lines: seq<string>, budget: int, size: nat)
    requires size <= budget
    ensures var k := KeptLines(lines, budget, size);
      && size + Size(lines[..k]) <= budget
      && (k < |lines| ==> size + Size(lines[..k]) + |lines[k]| + 1 > budget)
  {
    if lines != [] && size + |lines[0]| + 1 <= budget {
      var k := KeptLines(lines[1..], budget, size + |lines[0]| + 1);
      KeptIsLongest(lines[1..], budget, size + |lines[0]| + 1);
      assert lines[..k + 1] == [lines[0]] + lines[1..][..k];
      assert lines[..k + 1][1..] == lines[1..][..k];
    } else {
      assert lines[..0] == [];
    }
  }

  lemma {:induction false} KeptIs(lines: seq<string>, budget: int, size: nat, k: nat)
    requires k <= |lines| && size + Size(lines[..k]) <= budget
    requires k < |lines| ==> size + Size(lines[..k]) + |lines[k]| + 1 > budget
    ensures KeptLines(lines, budget, size) == k
  {
    if k > 0 {
      assert lines[..k] == [lines[0]] + lines[1..][..k - 1];
      assert lines[..k][1..] == lines[1..][..k - 1];
      KeptIs(lines[1..], budget, size + |lines[0]| + 1, k - 1);
    } else {
      assert lines[..0] == [];
    }
  }

  /** `clip`, line by line. */
  method ClipHead(text: string, budget: int) returns (r: string)
    ensures r == Clip(text, budget)
  {
    hide Lines, Joined;
    if budget <= 0 {
      return "";
    }
    if |text| <= budget {
      return text;
    }
    var lines := Lines(text);
    var kept: seq<string> := [];
    var size := 0;
    while |kept| < |lines|
      invariant |kept| <= |lines| && kept == lines[..|kept|]
      invariant size == Size(kept) <= budget
    {
      var line := lines[|kept|];
      if size + |line| + 1 > budget {
        break;
      }
      SizeAppend(kept, line);
      kept := kept + [line];
      size := size + |line| + 1;
    }
    KeptIs(lines, budget, 0, |kept|);
    if kept != [] {
      r := Joined(kept + [TRUNCATION_MARK]);
    } else {
      r := text[..budget];
    }
  }

  lemma {:induction false} JoinedLength(parts: seq<string>)
    ensures |Joined(parts)| == if parts == [] then 0 else Size(parts) - 1
  {
    if |parts| > 1 {
      JoinedLength(parts[1..]);
    } else if |parts| == 1 {
      assert Size(parts[1..]) == 0;
    }
  }

  /** How many characters of lines a clip keeps. */
  function KeptSize(text: string, budget: int): nat {
    var lines := Lines(text);
    Size(lines[..KeptLines(lines, budget, 0)])
  }

  lemma ClipLength(text: string, budget: int)
    requires 0 < budget < |text|
    ensures KeptSize(text, budget) <= budget
    ensures |Clip(text, budget)| == if KeptSize(text, budget) > 0 then KeptSize(text, budget) + MARK_LENGTH else budget
  {
    hide Lines, Joined;
    var lines := Lines(text);
    var k := KeptLines(lines, budget, 0);
    KeptIsLongest(lines, budget, 0);
    MarkLength();
    if k > 0 {
      SizeAppend(lines[..k], TRUNCATION_MARK);
      JoinedLength(lines[..k] + [TRUNCATION_MARK]);
      SizeOfSome(lines[..k]);
    } else {
      assert lines[..0] == [];
    }
  }

  lemma SizeOfSome(lines: seq<string>)
    requires lines != []
    ensures Size(lines) > 0
  {
  }

  /** A clip is within its budget exactly when the text fits, not even its first line does,
      or the lines kept leave room for the mark. */
  lemma ClipFitsExactly(text: string, budget: int)
    ensures |Clip(text, budget)| <= (if budget > 0 then budget else 0) <==>
      budget <= 0 || |text| <= budget || KeptSize(text, budget) == 0 || KeptSize(text, budget) + MARK_LENGTH <= budget
  {
    hide KeptSize, Clip;
    if 0 < budget < |text| {
      ClipLength(text, budget);
    } else {
      ClipShort(text, budget);
    }
  }

  lemma ClipShort(text: string, budget: int)
    requires budget <= 0 || |text| <= budget
    ensures Clip(text, budget) == if budget <= 0 then "" else text
  {
  }

  /** And it never exceeds its budget by more than the mark. */
  lemma ClipExceedsByMark(text: string, budget: int)
    ensures |Clip(text, budget)| <= (if budget > 0 then budget else 0) + MARK_LENGTH
  {
    hide KeptSize, Clip;
    if 0 < budget < |text| {
      ClipLength(text, budget);
    } else {
      ClipShort(text, budget);
    }
  }

  // ---- sections ----

  datatype Source = Goal | Beliefs | Intention | Working | Artifacts | RecentFailure | World | Memory | Notes
    | Inbox | Task | OutputContract

  datatype Section = Section(source: Source, heading: string, content: string, priority: nat, required: bool, percent: nat)

  datatype Packet = Packet(task: string, goal: string, beliefs: string, intention: string, working: string,
                           artifacts: seq<string>, recentFailure: string, world: string, memory: string,
                           notes: string, inbox: string, outputContract: string)

  datatype Slot = Slot(present: bool, section: Section)

  function Slots(p: Packet): (slots: seq<Slot>)
    ensures |slots| == 12
  {
    [ Slot(p.goal != "", Section(Goal, "GOAL", p.goal, 1, true, 16)),
      Slot(p.beliefs != "", Section(Beliefs, "BELIEFS", p.beliefs, 4, false, 12)),
      Slot(p.intention != "", Section(Intention, "YOUR COMMITTED PLAN", p.intention, 2, false, 12)),
      Slot(p.working != "", Section(Working, "CURRENT WORK", p.working, 3, false, 10)),
      Slot(p.artifacts != [], Section(Artifacts, "RELEVANT ARTIFACTS", Joined(p.artifacts), 5, false, 8)),
      Slot(p.recentFailure != "", Section(RecentFailure, "RECENT FAILURE", p.recentFailure, 6, false, 8)),
      Slot(p.world != "", Section(World, "WORLD", p.world, 8, false, 6)),
      Slot(p.memory != "", Section(Memory, "RELEVANT MEMORY (older notes; BELIEFS win where they differ)", p.memory, 9, false, 10)),
      Slot(p.notes != "", Section(Notes, "RELEVANT WORKING NOTES (projection; BELIEFS win where they differ)", p.notes, 7, false, 8)),
      Slot(p.inbox != "", Section(Inbox, "RELEVANT INBOX", p.inbox, 10, false, 5)),
      Slot(true, Section(Task, "TASK", p.task, 0, true, 30)),
      Slot(p.outputContract != "", Section(OutputContract, "OUTPUT CONTRACT", p.outputContract, 0, true, 20)) ]
  }

  function Present(slots: seq<Slot>): (sections: seq<Section>)
    ensures |sections| <= |slots|
    ensures forall s :: s in sections ==> exists i :: 0 <= i < |slots| && slots[i].section == s
  {
    if slots == [] then []
    else if slots[0].present then [slots[0].section] + Present(slots[1..])
    else Present(slots[1..])
  }

  /** `TaskPacket.section_specs`. */
  function Specs(p: Packet): seq<Section> {
    Present(Slots(p))
  }

  /** Where a source comes in the list of specs. */
  function Rank(source: Source): nat {
    match source
    case Goal => 0
    case Beliefs => 1
    case Intention => 2
    case Working => 3
    case Artifacts => 4
    case RecentFailure => 5
    case World => 6
    case Memory => 7
    case Notes => 8
    case Inbox => 9
    case Task => 10
    case OutputContract => 11
  }

  /** No source twice. */
  ghost predicate Distinct(sections: seq<Section>) {
    forall i, j :: 0 <= i < j < |sections| ==> sections[i].source != sections[j].source
  }

  lemma {:induction false} PresentRanked(slots: seq<Slot>, from: nat)
    requires forall i :: 0 <= i < |slots| ==> Rank(slots[i].section.source) == from + i
    ensures Distinct(Present(slots))
    ensures forall s :: s in Present(slots) ==> Rank(s.source) >= from
  {
    hide Rank;
    if slots != [] {
      PresentRanked(slots[1..], from + 1);
    }
  }

  lemma SpecsDistinct(p: Packet)
    ensures Distinct(Specs(p)) && |Specs(p)| <= 12
  {
    hide Present, Joined;
    SlotsRanked(p);
    PresentRanked(Slots(p), 0);
  }

  lemma SlotsRanked(p: Packet)
    ensures forall i :: 0 <= i < |Slots(p)| ==> Rank(Slots(p)[i].section.source) == i
  {
    hide Joined;
  }

  // ---- sorting ----

  datatype Order = ByPriority | ForOutput

  /** The sort keys, as one number. */
  function Key(order: Order, s: Section): nat {
    match order
    case ByPriority => s.priority
    case ForOutput =>
      if s.required then (match s.source case Goal => 0 case Task => 1 case OutputContract => 2 case _ => s.priority)
      else 1000 + s.priority
  }

  function Insert(order: Order, sorted: seq<Section>, s: Section): seq<Section> {
    if sorted == [] || Key(order, sorted[|sorted| - 1]) <= Key(order, s) then sorted + [s]
    else Insert(order, sorted[..|sorted| - 1], s) + [sorted[|sorted| - 1]]
  }

  /** `sorted(...)`: stable, by key. */
  function Sorted(order: Order, sections: seq<Section>): seq<Section> {
    if sections == [] then []
    else Insert(order, Sorted(order, sections[..|sections| - 1]), sections[|sections| - 1])
  }

  function Chosen(sections: seq<Section>, required: bool): seq<Section> {
    if sections == [] then []
    else if sections[0].required == required then [sections[0]] + Chosen(sections[1..], required)
    else Chosen(sections[1..], required)
  }

  // ---- allocation ----

  /** Python's `round`: to the nearest, a tie to the even neighbour. */
  function Share(maxChars: nat, percent: nat): nat {
    var whole, rest := maxChars * percent / 100, maxChars * percent % 100;
    if rest > 50 || (rest == 50 && whole % 2 == 1) then whole + 1 else whole
  }

  function Min(a: int, b: int): int {
    if a < b then a else b
  }

  function Max(a: int, b: int): int {
    if a < b then b else a
  }

  function LabelCost(s: Section): nat {
    |s.heading| + 2
  }

  function FullCost(sections: seq<Section>): nat {
    if sections == [] then 0 else LabelCost(sections[0]) + |sections[0].content| + FullCost(sections[1..])
  }

  /** What a required section asks for when they do not all fit. */
  function Desired(s: Section, maxChars: nat): nat {
    LabelCost(s) + Min(|s.content|, Max(24, Share(maxChars, s.percent)))
  }

  datatype Rule = Whole | Shared | Spare

  /** What one section gets of what remains. */
  function Grant(rule: Rule, maxChars: nat, s: Section, remaining: int): int {
    match rule
    case Whole => LabelCost(s) + |s.content|
    case Shared => Min(remaining, Desired(s, maxChars))
    case Spare =>
      if remaining <= LabelCost(s) then 0
      else Min(remaining, LabelCost(s) + Min(|s.content|, Max(16, Share(maxChars, s.percent))))
  }

  datatype Granted = Granted(allocations: map<Source, int>, remaining: int)

  /** The loop over sections: each gets its grant, in order. */
  function Hand(rule: Rule, maxChars: nat, sections: seq<Section>, start: Granted): Granted {
    if sections == [] then start
    else
      var before := Hand(rule, maxChars, sections[..|sections| - 1], start);
      var s := sections[|sections| - 1];
      var grant := Grant(rule, maxChars, s, before.remaining);
      Granted(before.allocations[s.source := grant], before.remaining - grant)
  }

  function Reserve(p: Packet, maxChars: nat): nat {
    Max(0, maxChars - 2 * Max(0, |Specs(p)| - 1))
  }

  function RequiredOf(p: Packet): seq<Section> {
    Sorted(ByPriority, Chosen(Specs(p), true))
  }

  function OptionalOf(p: Packet): seq<Section> {
    Sorted(ByPriority, Chosen(Specs(p), false))
  }

  /** Whether the required sections fit together, verbatim. */
  predicate RequiredFit(p: Packet, maxChars: nat) {
    FullCost(RequiredOf(p)) <= Reserve(p, maxChars)
  }

  function Allocated(p: Packet, maxChars: nat): Granted {
    var rule := if RequiredFit(p, maxChars) then Whole else Shared;
    Hand(Spare, maxChars, OptionalOf(p), Hand(rule, maxChars, RequiredOf(p), Granted(map[], Reserve(p, maxChars))))
  }

  // ---- the text ----

  function Render(s: Section, selected: string): string {
    s.heading + (if s.source.Goal? then ": " else ":\n") + selected
  }

  function AllocationOf(a: map<Source, int>, s: Section): int {
    if s.source in a then a[s.source] else 0
  }

  function Selected(s: Section, a: map<Source, int>): string {
    Clip(s.content, Max(0, AllocationOf(a, s) - LabelCost(s)))
  }

  function RenderedAll(sections: seq<Section>, a: map<Source, int>): seq<string> {
    if sections == [] then []
    else
      var last := sections[|sections| - 1];
      RenderedAll(sections[..|sections| - 1], a) + if AllocationOf(a, last) > 0 then [Render(last, Selected(last, a))] else []
  }

  datatype Record = Record(source: Source, available: nat, included: nat, truncated: bool, required: bool)

  function Provenance(sections: seq<Section>, a: map<Source, int>): seq<Record> {
    if sections == [] then []
    else
      var s := sections[|sections| - 1];
      Provenance(sections[..|sections| - 1], a) +
      [Record(s.source, |s.content|, |Selected(s, a)|, |Selected(s, a)| < |s.content|, s.required)]
  }

  /** `"\n\n".join(...)`. */
  function Stacked(parts: seq<string>): string {
    if parts == [] then "" else if |parts| == 1 then parts[0] else parts[0] + "\n\n" + Stacked(parts[1..])
  }

  function OutputOf(p: Packet): seq<Section> {
    Sorted(ForOutput, Specs(p))
  }

  /** The text before the final cut. */
  function Uncut(p: Packet, maxChars: nat): string {
    Stacked(RenderedAll(OutputOf(p), Allocated(p, maxChars).allocations))
  }

  function Cut(s: string, n: nat): string {
    if |s| <= n then s else s[..n]
  }
}
