/** What the prompt says, and what each of its sections is granted. */
module PromptContents {
  // What stands where in the assembled prompt, field by field of the packet, and what each
  // section is granted (`section_specs` and `assemble_with_provenance` in
  // src/evomesh/cognitive_services.py).

  import opened Text
  import opened ContextBudget
  import opened PromptBudget

  // ---- the sections, field by field ----

  /** The optional sections from the most to the least important. */
  const OPTIONAL: seq<Source> := [Intention, Working, Beliefs, Artifacts, RecentFailure, Notes, World, Memory, Inbox]

  /** The sections in the order they are printed: the required ones, then the optional ones. */
  const OUTPUT: seq<Source> := [Goal, Task, OutputContract] + OPTIONAL

  predicate IsRequired(source: Source) {
    source.Goal? || source.Task? || source.OutputContract?
  }

  function HeadingOf(source: Source): string {
    match source
    case Goal => "GOAL"
    case Task => "TASK"
    case OutputContract => "OUTPUT CONTRACT"
    case Intention => "YOUR COMMITTED PLAN"
    case Working => "CURRENT WORK"
    case Beliefs => "BELIEFS"
    case Artifacts => "RELEVANT ARTIFACTS"
    case RecentFailure => "RECENT FAILURE"
    case Notes => "RELEVANT WORKING NOTES (projection; BELIEFS win where they differ)"
    case World => "WORLD"
    case Memory => "RELEVANT MEMORY (older notes; BELIEFS win where they differ)"
    case Inbox => "RELEVANT INBOX"
  }

  /** The heading with what sets it off: the goal stands on its line, all else below. */
  function Opening(source: Source): string {
    HeadingOf(source) + if source.Goal? then ": " else ":\n"
  }

  function FieldOf(p: Packet, source: Source): string {
    match source
    case Goal => p.goal
    case Task => p.task
    case OutputContract => p.outputContract
    case Intention => p.intention
    case Working => p.working
    case Beliefs => p.beliefs
    case Artifacts => Joined(p.artifacts)
    case RecentFailure => p.recentFailure
    case Notes => p.notes
    case World => p.world
    case Memory => p.memory
    case Inbox => p.inbox
  }

  /** The task always has a section, any other field when it is not empty. */
  predicate Given(p: Packet, source: Source) {
    source.Task? || if source.Artifacts? then p.artifacts != [] else FieldOf(p, source) != ""
  }

  /** The percentage of the budget a section may ask for. */
  function PercentOf(source: Source): nat {
    match source
    case Goal => 16
    case Task => 30
    case OutputContract => 20
    case Intention => 12
    case Working => 10
    case Beliefs => 12
    case Artifacts => 8
    case RecentFailure => 8
    case Notes => 8
    case World => 6
    case Memory => 10
    case Inbox => 5
  }

  function Spec(p: Packet, source: Source): (s: Section)
    ensures s.source == source
  {
    SpecIs(p, source);
    Slots(p)[Rank(source)].section
  }

  /** Every section is of the field it is named after. */
  lemma SpecIs(p: Packet, source: Source)
    ensures Rank(source) < 12 && Slots(p)[Rank(source)].present == Given(p, source)
    ensures var s := Slots(p)[Rank(source)].section;
      && s.source == source && s.heading == HeadingOf(source) && s.content == FieldOf(p, source)
      && s.required == IsRequired(source) && s.percent == PercentOf(source)
  {
    hide Joined;
  }

  lemma SpecRenders(p: Packet, source: Source, selected: string)
    ensures Render(Spec(p, source), selected) == Opening(source) + selected
    ensures LabelCost(Spec(p, source)) == |Opening(source)|
  {
    hide Joined, HeadingOf, Slots;
    SpecIs(p, source);
  }

  // ---- in order ----

  /** The sections of the given fields among these, in this order. */
  function SpecsIn(p: Packet, order: seq<Source>): seq<Section> {
    if order == [] then []
    else (if Given(p, order[0]) then [Spec(p, order[0])] else []) + SpecsIn(p, order[1..])
  }

  ghost predicate StrictBy(order: Order, sections: seq<Section>) {
    forall i, j :: 0 <= i < j < |sections| ==> Key(order, sections[i]) < Key(order, sections[j])
  }

  /** Strictly increasing lists of the same sections are the same list. */
  lemma {:induction false} OneOrder(order: Order, a: seq<Section>, b: seq<Section>)
    requires StrictBy(order, a) && StrictBy(order, b) && forall s :: s in a <==> s in b
    ensures a == b
  {
    hide Key;
    if a == [] {
      assert forall i :: 0 <= i < |b| ==> b[i] in b;
    } else {
      assert a[0] in a && a[0] in b;
      var i :| 0 <= i < |b| && b[i] == a[0];
      assert b[0] in b && b[0] in a;
      var j :| 0 <= j < |a| && a[j] == b[0];
      assert i == 0 && j == 0;
      RestSame(order, a, b);
      OneOrder(order, a[1..], b[1..]);
      assert a == [a[0]] + a[1..] && b == [b[0]] + b[1..];
    }
  }

  lemma RestSame(order: Order, a: seq<Section>, b: seq<Section>)
    requires a != [] && b != [] && a[0] == b[0] && StrictBy(order, a) && StrictBy(order, b) && forall s :: s in a <==> s in b
    ensures forall s :: s in a[1..] <==> s in b[1..]
  {
    hide Key;
    forall s ensures s in a[1..] <==> s in b[1..] {
      if s in a[1..] {
        var i :| 0 <= i < |a[1..]| && a[1..][i] == s;
        assert s == a[i + 1] && Key(order, a[0]) < Key(order, s);
        assert s in b;
        var j :| 0 <= j < |b| && b[j] == s;
        assert j > 0 && b[1..][j - 1] == s;
      }
      if s in b[1..] {
        var i :| 0 <= i < |b[1..]| && b[1..][i] == s;
        assert s == b[i + 1] && Key(order, b[0]) < Key(order, s);
        assert s in a;
        var j :| 0 <= j < |a| && a[j] == s;
        assert j > 0 && a[1..][j - 1] == s;
      }
    }
  }

  lemma {:induction false} SpecsInHold(p: Packet, sources: seq<Source>)
    ensures forall s :: s in SpecsIn(p, sources) <==> s.source in sources && Given(p, s.source) && s == Spec(p, s.source)
  {
    hide Given, Slots;
    if sources != [] {
      SpecsInHold(p, sources[1..]);
      assert sources == [sources[0]] + sources[1..];
    }
  }

  ghost predicate Rising(p: Packet, order: Order, sources: seq<Source>) {
    forall i, j :: 0 <= i < j < |sources| ==> Key(order, Spec(p, sources[i])) < Key(order, Spec(p, sources[j]))
  }

  lemma {:induction false} SpecsInStrict(p: Packet, order: Order, sources: seq<Source>)
    requires Rising(p, order, sources)
    ensures StrictBy(order, SpecsIn(p, sources))
  {
    hide Key, Spec, Given;
    if sources != [] {
      var rest := sources[1..];
      assert forall i :: 0 <= i < |rest| ==> rest[i] == sources[i + 1];
      SpecsInStrict(p, order, rest);
      SpecsInHold(p, rest);
      var tail := SpecsIn(p, rest);
      forall i | 0 <= i < |tail| ensures Key(order, Spec(p, sources[0])) < Key(order, tail[i]) {
        assert tail[i] in tail;
        var j :| 0 <= j < |rest| && rest[j] == tail[i].source;
        assert rest[j] == sources[j + 1];
      }
    }
  }

  lemma {:induction false} PresentHolds(slots: seq<Slot>)
    ensures forall s :: s in Present(slots) <==> exists i :: 0 <= i < |slots| && slots[i].present && slots[i].section == s
  {
    if slots != [] {
      PresentHolds(slots[1..]);
      assert forall i :: 0 < i < |slots| ==> slots[i] == slots[1..][i - 1];
      forall s ensures s in Present(slots) <==> exists i :: 0 <= i < |slots| && slots[i].present && slots[i].section == s {
        if s in Present(slots[1..]) {
          var i :| 0 <= i < |slots[1..]| && slots[1..][i].present && slots[1..][i].section == s;
          assert slots[i + 1] == slots[1..][i];
        }
      }
    }
  }

  lemma SpecsHold(p: Packet)
    ensures forall s :: s in Specs(p) <==> Given(p, s.source) && s == Spec(p, s.source)
  {
    hide Slots, Given, Present, Rank;
    PresentHolds(Slots(p));
    SlotsRanked(p);
    forall s ensures s in Specs(p) <==> Given(p, s.source) && s == Spec(p, s.source) {
      SpecIs(p, s.source);
      if s in Specs(p) {
        var i :| 0 <= i < |Slots(p)| && Slots(p)[i].present && Slots(p)[i].section == s;
        assert Rank(s.source) == i;
      }
    }
  }

  /** The keys the sections are sorted by rise along the printed order. */
  lemma KeysRise(p: Packet, i: nat)
    requires i < 9
    ensures Key(ForOutput, Spec(p, OPTIONAL[i])) == 1002 + i && Key(ByPriority, Spec(p, OPTIONAL[i])) == 2 + i
    ensures i < 3 ==> Key(ForOutput, Spec(p, OUTPUT[i])) == i
  {
    hide Joined;
  }

  lemma AllRising(p: Packet)
    ensures Rising(p, ForOutput, OUTPUT) && Rising(p, ByPriority, OPTIONAL)
  {
    hide Key, Spec;
    forall i: nat | i < 9
      ensures Key(ForOutput, Spec(p, OPTIONAL[i])) == 1002 + i && Key(ByPriority, Spec(p, OPTIONAL[i])) == 2 + i
      ensures i < 3 ==> Key(ForOutput, Spec(p, OUTPUT[i])) == i
    {
      KeysRise(p, i);
    }
    forall i, j | 0 <= i < j < 12 ensures Key(ForOutput, Spec(p, OUTPUT[i])) < Key(ForOutput, Spec(p, OUTPUT[j])) {
      assert i >= 3 ==> OUTPUT[i] == OPTIONAL[i - 3];
      assert j >= 3 ==> OUTPUT[j] == OPTIONAL[j - 3];
    }
  }

  lemma AllPrinted(source: Source)
    ensures source in OUTPUT && (source in OPTIONAL <==> !IsRequired(source))
  {
    var i := match source
      case Goal => 0 case Task => 1 case OutputContract => 2 case Intention => 3 case Working => 4 case Beliefs => 5
      case Artifacts => 6 case RecentFailure => 7 case Notes => 8 case World => 9 case Memory => 10 case Inbox => 11;
    assert OUTPUT[i] == source;
  }

  /** A sorted list of the sections of these fields has them in their order. */
  lemma InOrder(p: Packet, order: Order, sections: seq<Section>, sources: seq<Source>)
    requires Rising(p, order, sources) && Distinct(sections) && OrderedBy(order, sections)
    requires forall s :: s in sections <==> s.source in sources && Given(p, s.source) && s == Spec(p, s.source)
    ensures sections == SpecsIn(p, sources)
  {
    hide Key, Spec, Given;
    SpecsInStrict(p, order, sources);
    SpecsInHold(p, sources);
    forall i, j | 0 <= i < j < |sections| ensures Key(order, sections[i]) < Key(order, sections[j]) {
      assert sections[i] in sections && sections[j] in sections;
      var k :| 0 <= k < |sources| && sources[k] == sections[i].source;
      var l :| 0 <= l < |sources| && sources[l] == sections[j].source;
      assert k != l;
    }
    OneOrder(order, sections, SpecsIn(p, sources));
  }

  /** The sections are printed in this order: the given fields', the required ones first. */
  lemma OutputIs(p: Packet)
    ensures OutputOf(p) == SpecsIn(p, OUTPUT)
  {
    hide Key, Specs, Sorted, Spec, Given, OrderedBy, Distinct, Rising, OUTPUT;
    PartsOf(p);
    SpecsHold(p);
    SortedOrders(ForOutput, Specs(p));
    AllRising(p);
    forall s ensures s in OutputOf(p) <==> s.source in OUTPUT && Given(p, s.source) && s == Spec(p, s.source) {
      AllPrinted(s.source);
    }
    InOrder(p, ForOutput, OutputOf(p), OUTPUT);
  }

  /** And the optional ones are granted theirs in it. */
  lemma OptionalIs(p: Packet)
    ensures OptionalOf(p) == SpecsIn(p, OPTIONAL)
  {
    hide Key, Specs, Sorted, Spec, Given, OrderedBy, Distinct, Chosen, Rising, OPTIONAL;
    PartsOf(p);
    SpecsHold(p);
    SortedOrders(ByPriority, Chosen(Specs(p), false));
    AllRising(p);
    forall s ensures s in OptionalOf(p) <==> s.source in OPTIONAL && Given(p, s.source) && s == Spec(p, s.source) {
      AllPrinted(s.source);
      SpecRequired(p, s.source);
    }
    InOrder(p, ByPriority, OptionalOf(p), OPTIONAL);
  }

  lemma SpecRequired(p: Packet, source: Source)
    ensures Spec(p, source).required == IsRequired(source)
  {
    hide Slots;
    SpecIs(p, source);
  }

  // ---- the text, field by field ----

  /** What a field is granted. */
  function GrantOf(a: map<Source, int>, source: Source): int {
    if source in a then a[source] else 0
  }

  /** A given field that is granted something: its opening, and what the rest of the grant
      holds of it. */
  function PartOf(p: Packet, a: map<Source, int>, source: Source): seq<string> {
    if Given(p, source) && GrantOf(a, source) > 0 then
      [Opening(source) + Clip(FieldOf(p, source), GrantOf(a, source) - |Opening(source)|)]
    else []
  }

  function PartsIn(p: Packet, a: map<Source, int>, sources: seq<Source>): seq<string> {
    if sources == [] then [] else PartOf(p, a, sources[0]) + PartsIn(p, a, sources[1..])
  }

  lemma ClipFloors(text: string, budget: int)
    ensures Clip(text, Max(0, budget)) == Clip(text, budget)
  {
  }

  lemma RenderedCons(s: Section, sections: seq<Section>, a: map<Source, int>)
    ensures RenderedAll([s] + sections, a) ==
      (if AllocationOf(a, s) > 0 then [Render(s, Selected(s, a))] else []) + RenderedAll(sections, a)
  {
    hide Selected, Render, AllocationOf;
    var all := [s] + sections;
    if sections == [] {
      assert all == [s] && all[..0] == [];
      assert RenderedAll(all[..0], a) == [];
    } else {
      var n := |sections| - 1;
      assert all[..n + 1] == [s] + sections[..n] && all[n + 1] == sections[n];
      RenderedCons(s, sections[..n], a);
    }
  }

  /** What is printed of the sections is what the fields' parts are. */
  lemma {:induction false} RenderedIs(p: Packet, a: map<Source, int>, sources: seq<Source>)
    ensures RenderedAll(SpecsIn(p, sources), a) == PartsIn(p, a, sources)
  {
    hide Given, Slots, Clip, Render, RenderedAll, Opening, FieldOf, LabelCost;
    if sources == [] {
      NothingRendered(a);
    } else {
      var source := sources[0];
      var s := Spec(p, source);
      RenderedIs(p, a, sources[1..]);
      if Given(p, source) {
        RenderedCons(s, SpecsIn(p, sources[1..]), a);
        SpecRenders(p, source, Selected(s, a));
        SpecIs(p, source);
        ClipFloors(s.content, AllocationOf(a, s) - LabelCost(s));
      } else {
        assert [] + SpecsIn(p, sources[1..]) == SpecsIn(p, sources[1..]);
        assert [] + PartsIn(p, a, sources[1..]) == PartsIn(p, a, sources[1..]);
      }
    }
  }

  lemma NothingRendered(a: map<Source, int>)
    ensures RenderedAll([], a) == []
  {
  }

  /** The text before the cut: the given fields in the printed order, each behind its opening. */
  lemma TextIs(p: Packet, maxChars: nat)
    ensures Uncut(p, maxChars) == Stacked(PartsIn(p, Allocated(p, maxChars).allocations, OUTPUT))
  {
    hide Allocated, OutputOf, PartsIn, RenderedAll, Stacked, OUTPUT;
    OutputIs(p);
    RenderedIs(p, Allocated(p, maxChars).allocations, OUTPUT);
  }

  /** Every part behind an empty line. */
  function Behind(parts: seq<string>): string {
    if parts == [] then "" else "\n\n" + parts[0] + Behind(parts[1..])
  }

  /** An empty line stands between two parts, and nowhere else. */
  lemma {:induction false} StackedBehind(parts: seq<string>)
    requires parts != []
    ensures "\n\n" + Stacked(parts) == Behind(parts)
  {
    if |parts| == 1 {
      assert Behind(parts[1..]) == "";
    } else {
      StackedBehind(parts[1..]);
      assert "\n\n" + (parts[0] + "\n\n" + Stacked(parts[1..])) == "\n\n" + parts[0] + ("\n\n" + Stacked(parts[1..]));
    }
  }

  // ---- what each field is granted ----

  lemma {:induction false} SpecsInAppend(p: Packet, a: seq<Source>, b: seq<Source>)
    ensures SpecsIn(p, a + b) == SpecsIn(p, a) + SpecsIn(p, b)
  {
    hide Given, Slots;
    if a == [] {
      assert a + b == b;
    } else {
      assert (a + b)[1..] == a[1..] + b;
      SpecsInAppend(p, a[1..], b);
    }
  }

  /** What these fields are granted together. */
  function Taken(a: map<Source, int>, sources: seq<Source>): int {
    if sources == [] then 0 else GrantOf(a, sources[0]) + Taken(a, sources[1..])
  }

  lemma {:induction false} TakenIsSum(p: Packet, a: map<Source, int>, sources: seq<Source>)
    requires forall source :: source in a ==> Given(p, source)
    ensures Sum(SpecsIn(p, sources), Allot(a)) == Taken(a, sources)
  {
    hide Given, Slots;
    if sources == [] {
      NoSum(Allot(a));
    } else {
      TakenIsSum(p, a, sources[1..]);
      if Given(p, sources[0]) {
        SumCons(Spec(p, sources[0]), SpecsIn(p, sources[1..]), Allot(a));
      } else {
        assert [] + SpecsIn(p, sources[1..]) == SpecsIn(p, sources[1..]);
      }
    }
  }

  lemma NoSum(f: Section -> int)
    ensures Sum([], f) == 0
  {
  }

  /** A section's grant changes no other's. */
  lemma FrontSame(front: seq<Section>, s: Section, a: map<Source, int>, grant: int)
    requires Distinct(front + [s])
    ensures forall x :: x in front ==> AllocationOf(a[s.source := grant], x) == AllocationOf(a, x)
  {
    forall x | x in front ensures AllocationOf(a[s.source := grant], x) == AllocationOf(a, x) {
      var i :| 0 <= i < |front| && front[i] == x;
      assert (front + [s])[i] == x && (front + [s])[|front|] == s;
    }
  }

  lemma FrontDistinct(front: seq<Section>, s: Section)
    requires Distinct(front + [s])
    ensures Distinct(front)
  {
    assert forall i :: 0 <= i < |front| ==> (front + [s])[i] == front[i];
  }

  lemma FrontNew(front: seq<Section>, s: Section, a: map<Source, int>)
    requires NewTo(front + [s], a)
    ensures NewTo(front, a)
  {
    assert forall i :: 0 <= i < |front| ==> (front + [s])[i] == front[i];
  }

  /** One section's grant comes out of what the ones before it left. */
  lemma {:induction false} HandAt(rule: Rule, maxChars: nat, sections: seq<Section>, start: Granted, k: nat)
    requires Distinct(sections) && NewTo(sections, start.allocations) && k < |sections|
    ensures var r := Hand(rule, maxChars, sections, start);
      && sections[k].source in r.allocations
      && r.allocations[sections[k].source] ==
           Grant(rule, maxChars, sections[k], start.remaining - Sum(sections[..k], Allot(r.allocations)))
  {
    hide Grant, Distinct, Sum, NewTo;
    var front, s := sections[..|sections| - 1], sections[|sections| - 1];
    assert sections == front + [s];
    FrontNew(front, s, start.allocations);
    var before := Hand(rule, maxChars, front, start);
    FrontDistinct(front, s);
    FrontSame(front, s, before.allocations, Grant(rule, maxChars, s, before.remaining));
    var r := Hand(rule, maxChars, sections, start);
    if k == |front| {
      HandAddsUp(rule, maxChars, front, start);
      assert sections[..k] == front;
      SumSame(front, Allot(before.allocations), Allot(r.allocations));
    } else {
      HandAt(rule, maxChars, front, start, k);
      assert sections[..k] == front[..k] && sections[k] == front[k] && front[k] in front;
      forall x | x in front[..k] ensures AllocationOf(before.allocations, x) == AllocationOf(r.allocations, x) {
        assert x in front;
      }
      SumSame(front[..k], Allot(before.allocations), Allot(r.allocations));
      assert AllocationOf(r.allocations, front[k]) == AllocationOf(before.allocations, front[k]);
    }
  }

  // ---- the required sections come first ----

  /** The required fields in the order they are granted theirs. */
  const REQUIRED: seq<Source> := [Task, OutputContract, Goal]

  lemma {:induction false} SkipOptional(slots: seq<Slot>, n: nat)
    requires n <= |slots| && forall i :: 0 <= i < n ==> !slots[i].section.required
    ensures Chosen(Present(slots), true) == Chosen(Present(slots[n..]), true)
  {
    if n == 0 {
      assert slots[n..] == slots;
    } else {
      assert forall i :: 0 <= i < n - 1 ==> slots[1..][i] == slots[i + 1];
      SkipOptional(slots[1..], n - 1);
      assert slots[1..][n - 1..] == slots[n..];
      if slots[0].present {
        assert Present(slots)[1..] == Present(slots[1..]);
      }
    }
  }

  lemma ChosenHead(slots: seq<Slot>)
    requires slots != [] && slots[0].section.required
    ensures Chosen(Present(slots), true) ==
      (if slots[0].present then [slots[0].section] else []) + Chosen(Present(slots[1..]), true)
  {
    if slots[0].present {
      assert Present(slots)[1..] == Present(slots[1..]);
    } else {
      assert [] + Chosen(Present(slots[1..]), true) == Chosen(Present(slots[1..]), true);
    }
  }

  function If(given: bool, s: Section): seq<Section> {
    if given then [s] else []
  }

  lemma ChosenIs(p: Packet)
    ensures Chosen(Specs(p), true) ==
      If(Given(p, Goal), Spec(p, Goal)) + (If(true, Spec(p, Task)) + If(Given(p, OutputContract), Spec(p, OutputContract)))
  {
    hide Slots, Present, Chosen, HeadingOf, FieldOf;
    var slots := Slots(p);
    SpecIs(p, Goal);
    SpecIs(p, Task);
    SpecIs(p, OutputContract);
    var later := slots[1..];
    forall i | 0 <= i < 9 ensures !later[i].section.required {
      SlotOptional(p, i + 1);
    }
    ChosenHead(slots);
    SkipOptional(later, 9);
    assert later[9..] == slots[10..];
    ChosenHead(slots[10..]);
    assert slots[10..][1..] == slots[11..] && slots[11..][1..] == [];
    ChosenHead(slots[11..]);
    NoneChosen();
    assert If(Given(p, OutputContract), Spec(p, OutputContract)) + [] == If(Given(p, OutputContract), Spec(p, OutputContract));
  }

  lemma NoneChosen()
    ensures Chosen(Present([]), true) == []
  {
  }

  lemma SlotOptional(p: Packet, i: nat)
    requires 1 <= i < 10
    ensures !Slots(p)[i].section.required
  {
    hide Joined;
  }

  lemma SortSnoc(front: seq<Section>, s: Section)
    ensures Sorted(ByPriority, front + [s]) == Insert(ByPriority, Sorted(ByPriority, front), s)
  {
    assert (front + [s])[..|front|] == front;
  }

  lemma InsertLast(sorted: seq<Section>, s: Section)
    requires sorted != [] ==> sorted[|sorted| - 1].priority <= s.priority
    ensures Insert(ByPriority, sorted, s) == sorted + [s]
  {
  }

  lemma InsertBefore(front: seq<Section>, last: Section, s: Section)
    requires last.priority > s.priority
    ensures Insert(ByPriority, front + [last], s) == Insert(ByPriority, front, s) + [last]
  {
    assert (front + [last])[..|front|] == front;
  }

  /** The goal, of lower priority, goes behind the task and the output contract. */
  lemma SortThree(goal: seq<Section>, task: Section, contract: seq<Section>)
    requires |goal| <= 1 && |contract| <= 1 && task.priority == 0
    requires (goal != [] ==> goal[0].priority == 1) && (contract != [] ==> contract[0].priority == 0)
    ensures Sorted(ByPriority, goal + ([task] + contract)) == [task] + contract + goal
  {
    hide Sorted, Insert;
    NoneSorted();
    SortTask(goal, task);
    if contract == [] {
      assert goal + ([task] + contract) == goal + [task];
    } else {
      assert goal + ([task] + contract) == goal + [task] + [contract[0]] && contract == [contract[0]];
      SortSnoc(goal + [task], contract[0]);
      InsertLast([task], contract[0]);
      if goal == [] {
        assert [task] + goal == [task] && [task] + contract + goal == [task] + contract;
      } else {
        assert goal == [goal[0]];
        InsertBefore([task], goal[0], contract[0]);
      }
    }
  }

  lemma NoneSorted()
    ensures Sorted(ByPriority, []) == []
  {
  }

  lemma SortTask(goal: seq<Section>, task: Section)
    requires |goal| <= 1 && (goal != [] ==> goal[0].priority > task.priority)
    ensures Sorted(ByPriority, goal + [task]) == [task] + goal
  {
    hide Sorted, Insert;
    NoneSorted();
    SortSnoc(goal, task);
    InsertLast([], task);
    if goal != [] {
      assert goal == [] + [goal[0]];
      SortSnoc([], goal[0]);
      InsertLast([], goal[0]);
      InsertBefore([], goal[0], task);
      assert [] + [task] + [goal[0]] == [task] + goal;
    }
  }

  lemma PrioritiesOf(p: Packet)
    ensures Spec(p, Goal).priority == 1 && Spec(p, Task).priority == 0 && Spec(p, OutputContract).priority == 0
  {
    hide Joined;
  }

  lemma RequiredIs(p: Packet)
    ensures RequiredOf(p) == SpecsIn(p, REQUIRED)
  {
    hide Specs, Chosen, Sorted, Spec, Given;
    ChosenIs(p);
    PrioritiesOf(p);
    var goal, task, contract := If(Given(p, Goal), Spec(p, Goal)), Spec(p, Task), If(Given(p, OutputContract), Spec(p, OutputContract));
    SortThree(goal, task, contract);
    TaskGiven(p);
    assert REQUIRED[1..] == [OutputContract, Goal] && [OutputContract, Goal][1..] == [Goal] && [Goal][1..] == [];
    assert SpecsIn(p, [Goal]) == goal;
    assert SpecsIn(p, [OutputContract, Goal]) == contract + goal;
  }

  lemma TaskGiven(p: Packet)
    ensures Given(p, Task)
  {
  }

  // ---- every grant ----

  /** The fields in the order they are granted theirs. */
  const GRANTED: seq<Source> := REQUIRED + OPTIONAL

  /** The percentage of the budget, to the nearest character, a tie to the even one. */
  ghost predicate IsShare(n: nat, maxChars: nat, percent: nat) {
    && 100 * n <= maxChars * percent + 50 && maxChars * percent <= 100 * n + 50
    && (100 * n == maxChars * percent + 50 || maxChars * percent == 100 * n + 50 ==> n % 2 == 0)
  }

  lemma ShareIs(maxChars: nat, percent: nat)
    ensures IsShare(Share(maxChars, percent), maxChars, percent)
  {
    var asked := maxChars * percent;
    assert asked == 100 * (asked / 100) + asked % 100;
  }

  /** What the given ones of these fields cost in full. */
  function CostOf(p: Packet, sources: seq<Source>): nat {
    if sources == [] then 0
    else (if Given(p, sources[0]) then |Opening(sources[0])| + |FieldOf(p, sources[0])| else 0) + CostOf(p, sources[1..])
  }

  /** How many of these fields are given. */
  function GivenOf(p: Packet, sources: seq<Source>): nat {
    if sources == [] then 0 else (if Given(p, sources[0]) then 1 else 0) + GivenOf(p, sources[1..])
  }

  lemma {:induction false} SpecsInCount(p: Packet, sources: seq<Source>)
    ensures |SpecsIn(p, sources)| == GivenOf(p, sources) && FullCost(SpecsIn(p, sources)) == CostOf(p, sources)
  {
    hide Given, Slots, LabelCost, Opening;
    if sources != [] {
      var s := Spec(p, sources[0]);
      SpecsInCount(p, sources[1..]);
      SpecIs(p, sources[0]);
      SpecRenders(p, sources[0], "");
      if Given(p, sources[0]) {
        assert ([s] + SpecsIn(p, sources[1..]))[1..] == SpecsIn(p, sources[1..]);
      } else {
        assert [] + SpecsIn(p, sources[1..]) == SpecsIn(p, sources[1..]);
      }
    }
  }

  /** The budget without the empty lines between the sections. */
  function Room(p: Packet, maxChars: nat): nat {
    Max(0, maxChars - 2 * (GivenOf(p, OUTPUT) - 1))
  }

  lemma RoomIs(p: Packet, maxChars: nat)
    ensures Reserve(p, maxChars) == Room(p, maxChars) && (RequiredFit(p, maxChars) <==> CostOf(p, REQUIRED) <= Room(p, maxChars))
  {
    hide Specs, Sorted, OUTPUT, REQUIRED, CostOf, GivenOf, FullCost, SpecsIn;
    OutputIs(p);
    RequiredIs(p);
    SpecsInCount(p, OUTPUT);
    SpecsInCount(p, REQUIRED);
    SumSorted(ForOutput, Specs(p), s => 0);
    TaskCounts(p);
  }

  lemma TaskCounts(p: Packet)
    ensures GivenOf(p, OUTPUT) >= 1
  {
    hide Given, GivenOf;
    TaskGiven(p);
    GivenHas(p, OUTPUT, 1);
  }

  lemma {:induction false} GivenHas(p: Packet, sources: seq<Source>, i: nat)
    requires i < |sources| && Given(p, sources[i])
    ensures GivenOf(p, sources) >= 1
  {
    hide Given;
    if i > 0 {
      GivenHas(p, sources[1..], i - 1);
    }
  }

  lemma {:induction false} TakenAppend(a: map<Source, int>, x: seq<Source>, y: seq<Source>)
    ensures Taken(a, x + y) == Taken(a, x) + Taken(a, y)
  {
    hide GrantOf;
    if x == [] {
      assert x + y == y;
    } else {
      assert (x + y)[1..] == x[1..] + y;
      TakenAppend(a, x[1..], y);
    }
  }

  /** Only given fields are granted anything. */
  lemma GrantsGiven(p: Packet, maxChars: nat)
    ensures forall source :: source in Allocated(p, maxChars).allocations ==> Given(p, source)
  {
    hide Hand, Given, Specs, RequiredOf, OptionalOf, Reserve, RequiredFit, Sum, Distinct, NewTo;
    PartsOf(p);
    OptionalNew(p, maxChars);
    SpecsHold(p);
    HandAddsUp(if RequiredFit(p, maxChars) then Whole else Shared, maxChars, RequiredOf(p), Granted(map[], Reserve(p, maxChars)));
    HandAddsUp(Spare, maxChars, OptionalOf(p), AfterRequired(p, maxChars));
  }

  /** Where a given field comes among the sections of a list. */
  lemma SpecsInAt(p: Packet, sources: seq<Source>, i: nat)
    requires i < |sources| && Given(p, sources[i])
    ensures var before := SpecsIn(p, sources[..i]); var all := SpecsIn(p, sources);
      |before| < |all| && all[..|before|] == before && all[|before|] == Spec(p, sources[i])
  {
    hide Given, Slots;
    var rest := sources[i..];
    assert sources == sources[..i] + rest;
    SpecsInAppend(p, sources[..i], rest);
    assert SpecsIn(p, rest) == [Spec(p, sources[i])] + SpecsIn(p, rest[1..]);
  }

  lemma SumKept(p: Packet, maxChars: nat, n: nat)
    requires n <= |RequiredOf(p)|
    ensures Sum(RequiredOf(p)[..n], Allot(AfterRequired(p, maxChars).allocations)) ==
      Sum(RequiredOf(p)[..n], Allot(Allocated(p, maxChars).allocations))
  {
    hide Hand, RequiredOf, OptionalOf, Reserve, RequiredFit, Sum;
    var a, middle := Allocated(p, maxChars).allocations, AfterRequired(p, maxChars).allocations;
    RequiredKept(p, maxChars);
    forall x | x in RequiredOf(p)[..n] ensures AllocationOf(middle, x) == AllocationOf(a, x) {
      assert x in RequiredOf(p);
    }
    SumSame(RequiredOf(p)[..n], Allot(middle), Allot(a));
  }

  /** What one of the required fields is granted. */
  lemma RequiredGranted(p: Packet, maxChars: nat, i: nat)
    requires i < 3 && Given(p, REQUIRED[i])
    ensures var a := Allocated(p, maxChars).allocations; var s := Spec(p, REQUIRED[i]);
      GrantOf(a, REQUIRED[i]) ==
        Grant(if RequiredFit(p, maxChars) then Whole else Shared, maxChars, s, Reserve(p, maxChars) - Taken(a, REQUIRED[..i]))
  {
    hide Hand, Given, Specs, Spec, RequiredOf, OptionalOf, Reserve, RequiredFit, Sum, Distinct, NewTo, Grant, Taken;
    var a := Allocated(p, maxChars).allocations;
    var before := SpecsIn(p, REQUIRED[..i]);
    PartsOf(p);
    OptionalNew(p, maxChars);
    RequiredIs(p);
    SpecsInAt(p, REQUIRED, i);
    HandAt(if RequiredFit(p, maxChars) then Whole else Shared, maxChars, RequiredOf(p), Granted(map[], Reserve(p, maxChars)), |before|);
    RequiredKept(p, maxChars);
    assert RequiredOf(p)[|before|] in RequiredOf(p);
    SumKept(p, maxChars, |before|);
    GrantsGiven(p, maxChars);
    TakenIsSum(p, a, REQUIRED[..i]);
  }

  lemma AfterRequiredIs(p: Packet, maxChars: nat)
    ensures AfterRequired(p, maxChars).remaining == Reserve(p, maxChars) - Taken(Allocated(p, maxChars).allocations, REQUIRED)
  {
    hide Hand, Given, Specs, RequiredOf, OptionalOf, Reserve, RequiredFit, Sum, Distinct, NewTo, Taken, REQUIRED;
    var a, middle := Allocated(p, maxChars).allocations, AfterRequired(p, maxChars).allocations;
    PartsOf(p);
    OptionalNew(p, maxChars);
    RequiredIs(p);
    RequiredKept(p, maxChars);
    HandAddsUp(if RequiredFit(p, maxChars) then Whole else Shared, maxChars, RequiredOf(p), Granted(map[], Reserve(p, maxChars)));
    SumSame(RequiredOf(p), Allot(middle), Allot(a));
    GrantsGiven(p, maxChars);
    TakenIsSum(p, a, REQUIRED);
  }

  /** What one of the optional fields is granted. */
  lemma OptionalGranted(p: Packet, maxChars: nat, i: nat)
    requires i < 9 && Given(p, OPTIONAL[i])
    ensures var a := Allocated(p, maxChars).allocations; var s := Spec(p, OPTIONAL[i]);
      GrantOf(a, OPTIONAL[i]) ==
        Grant(Spare, maxChars, s, Reserve(p, maxChars) - Taken(a, REQUIRED) - Taken(a, OPTIONAL[..i]))
  {
    hide Hand, Given, Specs, Spec, RequiredOf, OptionalOf, Reserve, RequiredFit, Sum, Distinct, NewTo, Grant, Taken;
    var a := Allocated(p, maxChars).allocations;
    var before := SpecsIn(p, OPTIONAL[..i]);
    PartsOf(p);
    OptionalNew(p, maxChars);
    OptionalIs(p);
    SpecsInAt(p, OPTIONAL, i);
    HandAt(Spare, maxChars, OptionalOf(p), AfterRequired(p, maxChars), |before|);
    AfterRequiredIs(p, maxChars);
    GrantsGiven(p, maxChars);
    TakenIsSum(p, a, OPTIONAL[..i]);
  }

  /** What every given field is granted, of what those before it left: a required one all it
      needs if all three fit, or else its opening and share, of 24 characters at least; an
      optional one nothing where not more than its opening is left, or else its opening and
      share, of 16 characters at least. */
  lemma GrantedIs(p: Packet, maxChars: nat, i: nat)
    requires i < 12 && Given(p, GRANTED[i])
    ensures var a := Allocated(p, maxChars).allocations; var source := GRANTED[i];
      var left := Room(p, maxChars) - Taken(a, GRANTED[..i]);
      var opening, field := |Opening(source)|, |FieldOf(p, source)|;
      exists share: nat :: IsShare(share, maxChars, PercentOf(source)) && GrantOf(a, source) ==
        if i < 3 then
          if CostOf(p, REQUIRED) <= Room(p, maxChars) then opening + field else Min(left, opening + Min(field, Max(24, share)))
        else if left <= opening then 0
        else Min(left, opening + Min(field, Max(16, share)))
  {
    hide Given, Spec, Allocated, Reserve, RequiredFit, CostOf, Room, Opening, FieldOf, PercentOf, LabelCost, Share, Taken, GrantOf,
      IsShare, GRANTED;
    GrantedParts(i);
    var a, source := Allocated(p, maxChars).allocations, GRANTED[i];
    RoomIs(p, maxChars);
    SpecFacts(p, source);
    ShareIs(maxChars, PercentOf(source));
    if i < 3 {
      RequiredGranted(p, maxChars, i);
    } else {
      OptionalGranted(p, maxChars, i - 3);
      TakenAppend(a, REQUIRED, OPTIONAL[..i - 3]);
    }
  }

  lemma SpecFacts(p: Packet, source: Source)
    ensures var s := Spec(p, source);
      s.content == FieldOf(p, source) && s.percent == PercentOf(source) && LabelCost(s) == |Opening(source)|
  {
    hide Slots, FieldOf, Opening, LabelCost;
    SpecIs(p, source);
    SpecRenders(p, source, "");
  }

  lemma GrantedParts(i: nat)
    requires i < 12
    ensures |GRANTED| == 12
    ensures i < 3 ==> GRANTED[i] == REQUIRED[i] && GRANTED[..i] == REQUIRED[..i]
    ensures i >= 3 ==> GRANTED[i] == OPTIONAL[i - 3] && GRANTED[..i] == REQUIRED + OPTIONAL[..i - 3]
  {
  }

  // ---- what goes first when room is short ----

  lemma GrantsOptional(p: Packet, maxChars: nat, i: nat)
    requires 3 <= i < 12
    ensures GrantOf(Allocated(p, maxChars).allocations, GRANTED[i]) >= 0
  {
    hide Allocated, Given, Opening, FieldOf, PercentOf, Room, CostOf, Taken, IsShare;
    if Given(p, GRANTED[i]) {
      GrantedIs(p, maxChars, i);
    } else {
      GrantsGiven(p, maxChars);
    }
  }

  lemma {:induction false} TakenGrows(p: Packet, maxChars: nat, i: nat, j: nat)
    requires 3 <= i <= j < 12
    ensures Taken(Allocated(p, maxChars).allocations, GRANTED[..i]) <= Taken(Allocated(p, maxChars).allocations, GRANTED[..j])
    ensures var a := Allocated(p, maxChars).allocations;
      i < j ==> Taken(a, GRANTED[..i]) + GrantOf(a, GRANTED[i]) <= Taken(a, GRANTED[..j])
  {
    hide Allocated, GrantOf;
    var a := Allocated(p, maxChars).allocations;
    if i < j {
      TakenGrows(p, maxChars, i, j - 1);
      GrantsOptional(p, maxChars, j - 1);
      assert GRANTED[..j] == GRANTED[..j - 1] + [GRANTED[j - 1]];
      TakenAppend(a, GRANTED[..j - 1], [GRANTED[j - 1]]);
      assert Taken(a, [GRANTED[j - 1]]) == GrantOf(a, GRANTED[j - 1]) + Taken(a, []);
    }
  }

  /** Room runs out from the least important end: behind an optional section that is dropped
      only one with a shorter opening still finds room, and behind one that had to make do
      with what was left none does. */
  lemma LeastImportantGoFirst(p: Packet, maxChars: nat, i: nat, j: nat)
    requires 3 <= i < j < 12 && Given(p, GRANTED[i]) && Given(p, GRANTED[j])
    ensures var a := Allocated(p, maxChars).allocations;
      && (GrantOf(a, GRANTED[i]) == 0 && GrantOf(a, GRANTED[j]) > 0 ==> |Opening(GRANTED[j])| < |Opening(GRANTED[i])|)
      && (0 < GrantOf(a, GRANTED[i]) < |Opening(GRANTED[i])| + Min(|FieldOf(p, GRANTED[i])|, 16) ==> GrantOf(a, GRANTED[j]) == 0)
  {
    hide Allocated, Given, Opening, FieldOf, PercentOf, Room, CostOf, Taken, IsShare;
    GrantedIs(p, maxChars, i);
    GrantedIs(p, maxChars, j);
    TakenGrows(p, maxChars, i, j);
    GrantsOptional(p, maxChars, j);
    OpeningIsSome(GRANTED[i]);
  }

  lemma OpeningIsSome(source: Source)
    ensures |Opening(source)| >= 2
  {
  }

  // ---- the whole prompt ----

  lemma OneShare(m: nat, n: nat, maxChars: nat, percent: nat)
    requires IsShare(m, maxChars, percent) && IsShare(n, maxChars, percent)
    ensures m == n
  {
  }

  /** The field is within the share its section may ask for. */
  ghost predicate WithinShare(p: Packet, maxChars: nat, source: Source) {
    exists share: nat :: IsShare(share, maxChars, PercentOf(source)) && |FieldOf(p, source)| <= Max(16, share)
  }

  /** Every given field behind its opening. */
  function WholeParts(p: Packet, sources: seq<Source>): seq<string> {
    if sources == [] then []
    else (if Given(p, sources[0]) then [Opening(sources[0]) + FieldOf(p, sources[0])] else []) + WholeParts(p, sources[1..])
  }

  function WholeText(p: Packet): string {
    Stacked(WholeParts(p, OUTPUT))
  }

  lemma {:induction false} WholeLength(p: Packet, sources: seq<Source>)
    ensures |WholeParts(p, sources)| == GivenOf(p, sources) && Lengths(WholeParts(p, sources)) == CostOf(p, sources)
  {
    hide Given, Opening, FieldOf, Lengths;
    if sources == [] {
      NoLengths();
    } else {
      var rest := WholeParts(p, sources[1..]);
      WholeLength(p, sources[1..]);
      if Given(p, sources[0]) {
        LengthsCons(Opening(sources[0]) + FieldOf(p, sources[0]), rest);
      } else {
        assert [] + rest == rest;
      }
    }
  }

  lemma NoLengths()
    ensures Lengths([]) == 0
  {
  }

  lemma {:induction false} CostAppend(p: Packet, x: seq<Source>, y: seq<Source>)
    ensures CostOf(p, x + y) == CostOf(p, x) + CostOf(p, y)
  {
    hide Given, Opening, FieldOf;
    if x == [] {
      assert x + y == y;
    } else {
      assert (x + y)[1..] == x[1..] + y;
      CostAppend(p, x[1..], y);
    }
  }

  lemma CostOfOne(p: Packet, source: Source)
    ensures CostOf(p, [source]) == if Given(p, source) then |Opening(source)| + |FieldOf(p, source)| else 0
  {
    hide Given, Opening, FieldOf;
    assert [source][1..] == [];
  }

  /** Granted or printed, the fields cost the same. */
  lemma CostsAgree(p: Packet)
    ensures CostOf(p, OUTPUT) == CostOf(p, GRANTED) == CostOf(p, REQUIRED) + CostOf(p, OPTIONAL)
  {
    hide CostOf;
    CostAppend(p, [Goal, Task, OutputContract], OPTIONAL);
    CostAppend(p, REQUIRED, OPTIONAL);
    CostAppend(p, [Goal], [Task, OutputContract]);
    CostAppend(p, [Task, OutputContract], [Goal]);
    assert [Goal] + [Task, OutputContract] == [Goal, Task, OutputContract];
    assert [Task, OutputContract] + [Goal] == REQUIRED;
  }

  /** Everything fits: the whole text is within the budget, and every optional field within
      its share; a list of nothing but empty artifacts needs a character to spare. */
  ghost predicate Fits(p: Packet, maxChars: nat) {
    && |WholeText(p)| <= maxChars && (p.artifacts != [] && Joined(p.artifacts) == "" ==> |WholeText(p)| < maxChars)
    && forall source :: source in OPTIONAL && Given(p, source) ==> WithinShare(p, maxChars, source)
  }

  lemma FitsRoom(p: Packet, maxChars: nat)
    requires Fits(p, maxChars)
    ensures CostOf(p, GRANTED) <= Room(p, maxChars)
    ensures p.artifacts != [] && Joined(p.artifacts) == "" ==> CostOf(p, GRANTED) < Room(p, maxChars)
  {
    hide Given, Stacked, Lengths, CostOf, GivenOf, WithinShare, OUTPUT, GRANTED, WholeParts;
    WholeLength(p, OUTPUT);
    StackedLength(WholeParts(p, OUTPUT));
    TaskCounts(p);
    CostsAgree(p);
  }

  /** Where everything fits, every given field is granted all it needs. */
  lemma {:induction false} FitsGrants(p: Packet, maxChars: nat, i: nat)
    requires Fits(p, maxChars) && i <= 12
    ensures Taken(Allocated(p, maxChars).allocations, GRANTED[..i]) == CostOf(p, GRANTED[..i])
    ensures forall j :: 0 <= j < i && Given(p, GRANTED[j]) ==>
      GrantOf(Allocated(p, maxChars).allocations, GRANTED[j]) == |Opening(GRANTED[j])| + |FieldOf(p, GRANTED[j])|
  {
    hide Given, Opening, FieldOf, Allocated, Taken, CostOf, Room, GrantOf, Fits;
    var a := Allocated(p, maxChars).allocations;
    if i == 0 {
      NothingTaken(p, a);
    } else {
      FitsGrants(p, maxChars, i - 1);
      var source := GRANTED[i - 1];
      assert GRANTED[..i] == GRANTED[..i - 1] + [source];
      TakenAppend(a, GRANTED[..i - 1], [source]);
      CostAppend(p, GRANTED[..i - 1], [source]);
      CostOfOne(p, source);
      TakenOfOne(a, source);
      if Given(p, source) {
        FitsOne(p, maxChars, i - 1);
      } else {
        GrantsGiven(p, maxChars);
        NothingGranted(a, source);
      }
    }
  }

  lemma NothingTaken(p: Packet, a: map<Source, int>)
    ensures Taken(a, GRANTED[..0]) == 0 && CostOf(p, GRANTED[..0]) == 0
  {
  }

  lemma TakenOfOne(a: map<Source, int>, source: Source)
    ensures Taken(a, [source]) == GrantOf(a, source)
  {
    assert [source][1..] == [];
  }

  lemma NothingGranted(a: map<Source, int>, source: Source)
    requires source !in a
    ensures GrantOf(a, source) == 0
  {
  }

  lemma FitsOne(p: Packet, maxChars: nat, i: nat)
    requires Fits(p, maxChars) && i < 12 && Given(p, GRANTED[i])
    requires Taken(Allocated(p, maxChars).allocations, GRANTED[..i]) == CostOf(p, GRANTED[..i])
    ensures GrantOf(Allocated(p, maxChars).allocations, GRANTED[i]) == |Opening(GRANTED[i])| + |FieldOf(p, GRANTED[i])|
  {
    hide Opening, FieldOf, Allocated, Taken, CostOf, Room, GrantOf, WholeText, Given, IsShare, PercentOf;
    var source := GRANTED[i];
    GrantedIs(p, maxChars, i);
    FitsRoom(p, maxChars);
    CostsAgree(p);
    assert GRANTED == GRANTED[..i] + ([source] + GRANTED[i + 1..]);
    CostAppend(p, GRANTED[..i], [source] + GRANTED[i + 1..]);
    CostAppend(p, [source], GRANTED[i + 1..]);
    CostOfOne(p, source);
    if i >= 3 {
      assert source == OPTIONAL[i - 3];
      GivenIsSome(p, source);
      var m: nat :| IsShare(m, maxChars, PercentOf(source)) && |FieldOf(p, source)| <= Max(16, m);
      forall n: nat | IsShare(n, maxChars, PercentOf(source)) ensures m == n {
        OneShare(m, n, maxChars, PercentOf(source));
      }
    }
  }

  lemma GivenIsSome(p: Packet, source: Source)
    requires Given(p, source) && !source.Task?
    ensures FieldOf(p, source) != "" || (source.Artifacts? && p.artifacts != [] && Joined(p.artifacts) == "")
  {
    hide Joined;
  }

  lemma {:induction false} PartsWhole(p: Packet, a: map<Source, int>, sources: seq<Source>)
    requires forall source :: source in sources && Given(p, source) ==> GrantOf(a, source) == |Opening(source)| + |FieldOf(p, source)|
    ensures PartsIn(p, a, sources) == WholeParts(p, sources)
  {
    hide Given, Opening, FieldOf, GrantOf;
    if sources != [] {
      var source := sources[0];
      PartsWhole(p, a, sources[1..]);
      if Given(p, source) {
        ClipAll(FieldOf(p, source));
        OpeningIsSome(source);
      }
    }
  }

  lemma ClipAll(text: string)
    ensures Clip(text, |text|) == text
  {
  }

  lemma AllGranted(source: Source)
    ensures exists i :: 0 <= i < 12 && GRANTED[i] == source
  {
    AllPrinted(source);
    if source in OPTIONAL {
      var i :| 0 <= i < 9 && OPTIONAL[i] == source;
      assert GRANTED[i + 3] == source;
    } else {
      assert GRANTED[0] == Task && GRANTED[1] == OutputContract && GRANTED[2] == Goal;
    }
  }

  /** Where everything fits the prompt is the whole text: every given field in the printed
      order, behind its opening, word for word. */
  lemma WholePrompt(p: Packet, maxChars: nat)
    requires Fits(p, maxChars)
    ensures Cut(Uncut(p, maxChars), maxChars) == WholeText(p)
  {
    hide Given, Opening, FieldOf, Allocated, Taken, CostOf, GrantOf, Stacked, PartsIn, WholeParts, Uncut, OUTPUT;
    var a := Allocated(p, maxChars).allocations;
    FitsGrants(p, maxChars, 12);
    assert GRANTED[..12] == GRANTED;
    forall source | Given(p, source) ensures GrantOf(a, source) == |Opening(source)| + |FieldOf(p, source)| {
      AllGranted(source);
    }
    PartsWhole(p, a, OUTPUT);
    TextIs(p, maxChars);
  }

  // ---- what a clip keeps ----

  /** So many leading lines fit, and one more does not. */
  predicate IsLongestRun(lines: seq<string>, k: nat, budget: int) {
    0 < k <= |lines| && Size(lines[..k]) <= budget && (k < |lines| ==> Size(lines[..k + 1]) > budget)
  }

  /** A clip is the text if that fits; or as many leading lines as fit, and the mark; or, where
      not even the first line does, the text's beginning. */
  lemma ClipKeeps(text: string, budget: int)
    ensures budget > 0 && |text| <= budget ==> Clip(text, budget) == text
    ensures budget <= 0 ==> Clip(text, budget) == ""
    ensures 0 < budget < |text| && (Lines(text) == [] || |Lines(text)[0]| >= budget) ==> Clip(text, budget) == text[..budget]
    ensures 0 < budget < |text| && Lines(text) != [] && |Lines(text)[0]| < budget ==>
      exists k: nat :: IsLongestRun(Lines(text), k, budget) && Clip(text, budget) == Joined(Lines(text)[..k] + [TRUNCATION_MARK])
  {
    hide Lines, Joined, Size;
    if 0 < budget < |text| {
      var lines := Lines(text);
      var k := KeptLines(lines, budget, 0);
      KeptIsLongest(lines, budget, 0);
      assert k > 0 <==> lines != [] && |lines[0]| < budget;
      if k < |lines| {
        SizeAppend(lines[..k], lines[k]);
        assert lines[..k + 1] == lines[..k] + [lines[k]];
      }
      assert k > 0 ==> IsLongestRun(lines, k, budget);
    }
  }
}
