/** The prompt budget. */
module PromptBudget {
  // What the prompt budget promises and what it does not: allocations never exceed it,
  // required sections keep their share, and the text can still be longer than it
  // (`assemble_with_provenance` in src/evomesh/cognitive_services.py).

  import opened Text
  import opened ContextBudget

  // ---- sums over sections ----

  function Sum(sections: seq<Section>, f: Section -> int): int {
    if sections == [] then 0 else Sum(sections[..|sections| - 1], f) + f(sections[|sections| - 1])
  }

  lemma SumSnoc(sections: seq<Section>, s: Section, f: Section -> int)
    ensures Sum(sections + [s], f) == Sum(sections, f) + f(s)
  {
    assert (sections + [s])[..|sections|] == sections;
  }

  lemma {:induction false} SumCons(s: Section, sections: seq<Section>, f: Section -> int)
    ensures Sum([s] + sections, f) == f(s) + Sum(sections, f)
  {
    var all := [s] + sections;
    if sections == [] {
      assert all == [s] && all[..0] == [];
    } else {
      var n := |sections| - 1;
      assert all[..n + 1] == [s] + sections[..n];
      SumCons(s, sections[..n], f);
    }
  }

  lemma {:induction false} SumInsert(order: Order, sorted: seq<Section>, s: Section, f: Section -> int)
    ensures Sum(Insert(order, sorted, s), f) == Sum(sorted, f) + f(s)
    ensures multiset(Insert(order, sorted, s)) == multiset(sorted) + multiset{s}
  {
    if sorted == [] || Key(order, sorted[|sorted| - 1]) <= Key(order, s) {
      SumSnoc(sorted, s, f);
    } else {
      var front, last := sorted[..|sorted| - 1], sorted[|sorted| - 1];
      SumInsert(order, front, s, f);
      SumSnoc(Insert(order, front, s), last, f);
      assert sorted == front + [last];
    }
  }

  /** Sorting changes neither what is there nor what it adds up to. */
  lemma {:induction false} SumSorted(order: Order, sections: seq<Section>, f: Section -> int)
    ensures Sum(Sorted(order, sections), f) == Sum(sections, f)
    ensures multiset(Sorted(order, sections)) == multiset(sections)
    ensures |Sorted(order, sections)| == |sections|
  {
    hide Insert;
    if sections != [] {
      var front, last := sections[..|sections| - 1], sections[|sections| - 1];
      SumSorted(order, front, f);
      SumInsert(order, Sorted(order, front), last, f);
      assert sections == front + [last];
      SameSize(Sorted(order, sections), sections);
    }
  }

  lemma SameSize(a: seq<Section>, b: seq<Section>)
    requires multiset(a) == multiset(b)
    ensures |a| == |b|
  {
    assert |multiset(a)| == |a| && |multiset(b)| == |b|;
  }

  ghost predicate OrderedBy(order: Order, sections: seq<Section>) {
    forall i, j :: 0 <= i < j < |sections| ==> Key(order, sections[i]) <= Key(order, sections[j])
  }

  lemma {:induction false} InsertOrders(order: Order, sorted: seq<Section>, s: Section)
    requires OrderedBy(order, sorted)
    ensures OrderedBy(order, Insert(order, sorted, s))
    ensures forall x :: x in Insert(order, sorted, s) ==> x in sorted || x == s
  {
    hide Key;
    if sorted != [] && Key(order, sorted[|sorted| - 1]) > Key(order, s) {
      var front := sorted[..|sorted| - 1];
      InsertOrders(order, front, s);
      var r := Insert(order, front, s);
      assert forall i :: 0 <= i < |r| ==> r[i] in r;
    }
  }

  /** Sections are handed out, and printed, in the order of their keys. */
  lemma {:induction false} SortedOrders(order: Order, sections: seq<Section>)
    ensures OrderedBy(order, Sorted(order, sections))
  {
    hide Insert, Key;
    if sections != [] {
      SortedOrders(order, sections[..|sections| - 1]);
      InsertOrders(order, Sorted(order, sections[..|sections| - 1]), sections[|sections| - 1]);
    }
  }

  lemma {:induction false} SumChosen(sections: seq<Section>, f: Section -> int)
    ensures Sum(Chosen(sections, true), f) + Sum(Chosen(sections, false), f) == Sum(sections, f)
  {
    if sections != [] {
      var s, rest := sections[0], sections[1..];
      SumChosen(rest, f);
      SumCons(s, rest, f);
      SumCons(s, Chosen(rest, s.required), f);
      assert sections == [s] + rest;
    }
  }

  lemma {:induction false} ChosenFacts(sections: seq<Section>, required: bool)
    ensures forall s :: s in Chosen(sections, required) <==> s in sections && s.required == required
    ensures Distinct(sections) ==> Distinct(Chosen(sections, required))
  {
    if sections != [] {
      ChosenFacts(sections[1..], required);
      assert sections == [sections[0]] + sections[1..];
      var rest := Chosen(sections[1..], required);
      if Distinct(sections) {
        forall i | 0 <= i < |rest| ensures rest[i].source != sections[0].source {
          assert rest[i] in sections[1..];
        }
      }
    }
  }

  lemma SortedDistinct(order: Order, sections: seq<Section>)
    requires Distinct(sections)
    ensures Distinct(Sorted(order, sections))
    ensures forall s :: s in Sorted(order, sections) <==> s in sections
  {
    var sorted := Sorted(order, sections);
    SumSorted(order, sections, s => 0);
    forall s ensures s in sorted <==> s in sections {
      assert s in multiset(sorted) <==> s in multiset(sections);
    }
    forall i, j | 0 <= i < j < |sorted| ensures sorted[i].source != sorted[j].source {
      if sorted[i].source == sorted[j].source {
        SameSourceSame(sections, sorted[i], sorted[j]);
        TwiceCounts(sorted, i, j);
        OnceCounts(sections, sorted[i]);
      }
    }
  }

  lemma SameSourceSame(sections: seq<Section>, a: Section, b: Section)
    requires Distinct(sections) && a in sections && b in sections && a.source == b.source
    ensures a == b
  {
  }

  lemma TwiceCounts(sections: seq<Section>, i: nat, j: nat)
    requires i < j < |sections| && sections[i] == sections[j]
    ensures multiset(sections)[sections[i]] >= 2
  {
    var a, b := sections[..j], sections[j..];
    assert sections == a + b;
    assert a[i] in multiset(a) && b[0] in multiset(b);
    assert multiset(sections) == multiset(a) + multiset(b);
  }

  lemma {:induction false} OnceCounts(sections: seq<Section>, s: Section)
    requires Distinct(sections)
    ensures multiset(sections)[s] <= 1
  {
    if sections != [] {
      var front, last := sections[..|sections| - 1], sections[|sections| - 1];
      assert sections == front + [last];
      OnceCounts(front, s);
      if s == last {
        assert s !in front;
      }
    }
  }

  // ---- what is handed out adds up ----

  function Allot(a: map<Source, int>): Section -> int {
    s => AllocationOf(a, s)
  }

  lemma {:induction false} SumSame(sections: seq<Section>, f: Section -> int, g: Section -> int)
    requires forall s :: s in sections ==> f(s) == g(s)
    ensures Sum(sections, f) == Sum(sections, g)
  {
    if sections != [] {
      SumSame(sections[..|sections| - 1], f, g);
    }
  }

  ghost predicate NewTo(sections: seq<Section>, a: map<Source, int>) {
    forall i :: 0 <= i < |sections| ==> sections[i].source !in a
  }

  /** The loop hands out exactly what it takes from the remainder, changes no earlier
      allocation, and gives every section its own. */
  lemma {:induction false} HandAddsUp(rule: Rule, maxChars: nat, sections: seq<Section>, start: Granted)
    requires Distinct(sections) && NewTo(sections, start.allocations)
    ensures var r := Hand(rule, maxChars, sections, start);
      && Sum(sections, Allot(r.allocations)) + r.remaining == start.remaining
      && (forall src :: src in start.allocations ==> src in r.allocations && r.allocations[src] == start.allocations[src])
      && (forall src :: src in r.allocations ==> src in start.allocations || exists s :: s in sections && s.source == src)
      && (forall s :: s in sections ==> s.source in r.allocations)
  {
    hide Grant;
    if sections != [] {
      var front, s := sections[..|sections| - 1], sections[|sections| - 1];
      HandAddsUp(rule, maxChars, front, start);
      var before, r := Hand(rule, maxChars, front, start), Hand(rule, maxChars, sections, start);
      assert sections == front + [s];
      SumSame(front, Allot(before.allocations), Allot(r.allocations));
    }
  }

  /** A shared or spare loop never hands out more than is there. */
  lemma {:induction false} HandLeaves(rule: Rule, maxChars: nat, sections: seq<Section>, start: Granted)
    requires (rule.Shared? || rule.Spare?) && start.remaining >= 0
    ensures Hand(rule, maxChars, sections, start).remaining >= 0
  {
    hide Share, LabelCost;
    if sections != [] {
      HandLeaves(rule, maxChars, sections[..|sections| - 1], start);
    }
  }

  function Verbatim(): Section -> int {
    s => LabelCost(s) + |s.content|
  }

  function Asked(maxChars: nat): Section -> int {
    s => Desired(s, maxChars)
  }

  lemma {:induction false} FullCostIsSum(sections: seq<Section>)
    ensures FullCost(sections) == Sum(sections, Verbatim())
  {
    if sections != [] {
      FullCostIsSum(sections[1..]);
      SumCons(sections[0], sections[1..], Verbatim());
      assert sections == [sections[0]] + sections[1..];
    }
  }

  lemma {:induction false} HandWhole(maxChars: nat, sections: seq<Section>, start: Granted)
    requires Distinct(sections)
    ensures var r := Hand(Whole, maxChars, sections, start);
      && (forall s :: s in sections ==> s.source in r.allocations && r.allocations[s.source] == LabelCost(s) + |s.content|)
      && r.remaining == start.remaining - Sum(sections, Verbatim())
  {
    hide LabelCost;
    if sections != [] {
      var front, s := sections[..|sections| - 1], sections[|sections| - 1];
      HandWhole(maxChars, front, start);
      assert sections == front + [s];
    }
  }

  ghost predicate AllDesired(maxChars: nat, sections: seq<Section>, a: map<Source, int>) {
    forall s :: s in sections ==> s.source in a && a[s.source] == Desired(s, maxChars)
  }

  lemma {:induction false} SumNonNegative(sections: seq<Section>, f: Section -> int)
    requires forall s :: s in sections ==> f(s) >= 0
    ensures Sum(sections, f) >= 0
  {
    if sections != [] {
      SumNonNegative(sections[..|sections| - 1], f);
    }
  }

  lemma {:induction false} HandShared(maxChars: nat, sections: seq<Section>, start: Granted)
    requires Distinct(sections) && Sum(sections, Asked(maxChars)) <= start.remaining
    ensures var r := Hand(Shared, maxChars, sections, start);
      AllDesired(maxChars, sections, r.allocations) && r.remaining == start.remaining - Sum(sections, Asked(maxChars))
  {
    hide Desired;
    if sections != [] {
      var front, s := sections[..|sections| - 1], sections[|sections| - 1];
      HandShared(maxChars, front, start);
      assert sections == front + [s];
    }
  }

  /** Every required section gets its label and its share exactly when those fit together. */
  lemma SharesExactly(maxChars: nat, sections: seq<Section>, total: nat)
    requires Distinct(sections)
    ensures AllDesired(maxChars, sections, Hand(Shared, maxChars, sections, Granted(map[], total)).allocations)
      <==> Sum(sections, Asked(maxChars)) <= total
  {
    hide Desired, Hand;
    var start := Granted(map[], total);
    var r := Hand(Shared, maxChars, sections, start);
    if Sum(sections, Asked(maxChars)) <= total {
      HandShared(maxChars, sections, start);
    } else if AllDesired(maxChars, sections, r.allocations) {
      HandAddsUp(Shared, maxChars, sections, start);
      HandLeaves(Shared, maxChars, sections, start);
      SumSame(sections, Allot(r.allocations), Asked(maxChars));
    }
  }

  // ---- the allocations of a packet ----

  function AfterRequired(p: Packet, maxChars: nat): Granted {
    Hand(if RequiredFit(p, maxChars) then Whole else Shared, maxChars, RequiredOf(p), Granted(map[], Reserve(p, maxChars)))
  }

  lemma PartsOf(p: Packet)
    ensures Distinct(Specs(p)) && Distinct(RequiredOf(p)) && Distinct(OptionalOf(p)) && Distinct(OutputOf(p))
    ensures forall s :: s in RequiredOf(p) <==> s in Specs(p) && s.required
    ensures forall s :: s in OptionalOf(p) <==> s in Specs(p) && !s.required
    ensures forall s :: s in OutputOf(p) <==> s in Specs(p)
  {
    hide Specs, Sorted, Chosen, Distinct;
    SpecsDistinct(p);
    ChosenFacts(Specs(p), true);
    ChosenFacts(Specs(p), false);
    SortedDistinct(ByPriority, Chosen(Specs(p), true));
    SortedDistinct(ByPriority, Chosen(Specs(p), false));
    SortedDistinct(ForOutput, Specs(p));
  }

  lemma OptionalNew(p: Packet, maxChars: nat)
    ensures NewTo(RequiredOf(p), map[]) && NewTo(OptionalOf(p), AfterRequired(p, maxChars).allocations)
  {
    hide Specs, Sorted, Chosen, Hand, RequiredFit, Reserve;
    PartsOf(p);
    HandAddsUp(if RequiredFit(p, maxChars) then Whole else Shared, maxChars, RequiredOf(p), Granted(map[], Reserve(p, maxChars)));
    forall i | 0 <= i < |OptionalOf(p)| ensures OptionalOf(p)[i].source !in AfterRequired(p, maxChars).allocations {
      var o := OptionalOf(p)[i];
      assert o in OptionalOf(p);
      if o.source in AfterRequired(p, maxChars).allocations {
        var s :| s in RequiredOf(p) && s.source == o.source;
        SameSourceSame(Specs(p), s, o);
      }
    }
  }

  /** What is left after the required sections is never negative. */
  lemma RequiredLeaves(p: Packet, maxChars: nat)
    ensures AfterRequired(p, maxChars).remaining >= 0
  {
    hide Specs, Sorted, Chosen, Hand, Reserve, FullCost;
    PartsOf(p);
    if RequiredFit(p, maxChars) {
      FullCostIsSum(RequiredOf(p));
      HandWhole(maxChars, RequiredOf(p), Granted(map[], Reserve(p, maxChars)));
    } else {
      HandLeaves(Shared, maxChars, RequiredOf(p), Granted(map[], Reserve(p, maxChars)));
    }
  }

  /** The allocations of all sections, printed in any order, add up to at most the budget
      less the separators. */
  lemma AllocationsFit(p: Packet, maxChars: nat)
    ensures var a := Allocated(p, maxChars);
      a.remaining >= 0 && Sum(OutputOf(p), Allot(a.allocations)) + a.remaining == Reserve(p, maxChars)
  {
    hide Specs, Sorted, Chosen, Hand, Reserve, FullCost, Sum, AllocationOf, Grant;
    var a := Allocated(p, maxChars);
    var middle := AfterRequired(p, maxChars);
    var rule := if RequiredFit(p, maxChars) then Whole else Shared;
    PartsOf(p);
    OptionalNew(p, maxChars);
    RequiredLeaves(p, maxChars);
    HandAddsUp(rule, maxChars, RequiredOf(p), Granted(map[], Reserve(p, maxChars)));
    HandAddsUp(Spare, maxChars, OptionalOf(p), middle);
    HandLeaves(Spare, maxChars, OptionalOf(p), middle);
    RequiredKept(p, maxChars);
    SumSame(RequiredOf(p), Allot(middle.allocations), Allot(a.allocations));
    SumSorted(ByPriority, Chosen(Specs(p), true), Allot(a.allocations));
    SumSorted(ByPriority, Chosen(Specs(p), false), Allot(a.allocations));
    SumChosen(Specs(p), Allot(a.allocations));
    SumSorted(ForOutput, Specs(p), Allot(a.allocations));
  }

  /** Later allocations never touch a required section's. */
  lemma RequiredKept(p: Packet, maxChars: nat)
    ensures forall s :: s in RequiredOf(p) ==>
      AllocationOf(Allocated(p, maxChars).allocations, s) == AllocationOf(AfterRequired(p, maxChars).allocations, s)
    ensures forall s :: s in RequiredOf(p) ==>
      s.source in Allocated(p, maxChars).allocations && s.source in AfterRequired(p, maxChars).allocations
  {
    hide Specs, Sorted, Chosen, Hand, Reserve, FullCost;
    PartsOf(p);
    OptionalNew(p, maxChars);
    HandAddsUp(if RequiredFit(p, maxChars) then Whole else Shared, maxChars, RequiredOf(p), Granted(map[], Reserve(p, maxChars)));
    HandAddsUp(Spare, maxChars, OptionalOf(p), AfterRequired(p, maxChars));
  }

  /** Required sections are verbatim when they fit together. */
  lemma RequiredVerbatim(p: Packet, maxChars: nat, s: Section)
    requires RequiredFit(p, maxChars) && s in Specs(p) && s.required
    ensures AllocationOf(Allocated(p, maxChars).allocations, s) == LabelCost(s) + |s.content|
    ensures Selected(s, Allocated(p, maxChars).allocations) == s.content
  {
    hide Specs, Sorted, Chosen, Hand, Reserve, FullCost, Lines, KeptLines, Joined;
    PartsOf(p);
    RequiredKept(p, maxChars);
    HandWhole(maxChars, RequiredOf(p), Granted(map[], Reserve(p, maxChars)));
  }

  // ---- how much the shares ask for ----

  function Ceiling(s: Section, maxChars: nat): nat {
    LabelCost(s) + Max(24, Share(maxChars, s.percent))
  }

  function Ceilings(slots: seq<Slot>, maxChars: nat): nat {
    if slots == [] then 0
    else (if slots[0].section.required then Ceiling(slots[0].section, maxChars) else 0) + Ceilings(slots[1..], maxChars)
  }

  lemma {:induction false} AskedWithinCeilings(slots: seq<Slot>, maxChars: nat)
    ensures Sum(Chosen(Present(slots), true), Asked(maxChars)) <= Ceilings(slots, maxChars)
  {
    hide LabelCost, Share;
    if slots != [] {
      AskedWithinCeilings(slots[1..], maxChars);
      var s, rest := slots[0].section, Present(slots[1..]);
      if slots[0].present {
        assert ([s] + rest)[1..] == rest;
        if s.required {
          SumCons(s, Chosen(rest, true), Asked(maxChars));
        }
      }
    }
  }

  lemma {:induction false} CeilingsOfOptional(slots: seq<Slot>, rest: seq<Slot>, maxChars: nat)
    requires forall i :: 0 <= i < |slots| ==> !slots[i].section.required
    ensures Ceilings(slots + rest, maxChars) == Ceilings(rest, maxChars)
  {
    hide Ceiling;
    if slots == [] {
      assert slots + rest == rest;
    } else {
      assert (slots + rest)[1..] == slots[1..] + rest;
      CeilingsOfOptional(slots[1..], rest, maxChars);
    }
  }

  /** Labels and shares of all three required sections. */
  function Ceiling3(maxChars: nat): nat {
    29 + Max(24, Share(maxChars, 16)) + Max(24, Share(maxChars, 30)) + Max(24, Share(maxChars, 20))
  }

  lemma CeilingsOfPacket(p: Packet, maxChars: nat)
    ensures Ceilings(Slots(p), maxChars) == Ceiling3(maxChars)
  {
    hide Joined, Share, Ceilings;
    var slots := Slots(p);
    var goal, optional, task, contract := slots[0], slots[1..10], slots[10], slots[11];
    assert slots == [goal] + (optional + [task, contract]);
    CeilingsCons(goal, optional + [task, contract], maxChars);
    CeilingsOfOptional(optional, [task, contract], maxChars);
    assert [task, contract] == [task] + [contract];
    CeilingsCons(task, [contract], maxChars);
    CeilingsCons(contract, [], maxChars);
    assert [contract] + [] == [contract];
    NoCeilings(maxChars);
  }

  lemma NoCeilings(maxChars: nat)
    ensures Ceilings([], maxChars) == 0
  {
  }

  lemma CeilingsCons(slot: Slot, rest: seq<Slot>, maxChars: nat)
    ensures Ceilings([slot] + rest, maxChars) ==
      (if slot.section.required then Ceiling(slot.section, maxChars) else 0) + Ceilings(rest, maxChars)
  {
    hide Ceiling;
    assert ([slot] + rest)[1..] == rest;
  }

  lemma ShareBounds(maxChars: nat, percent: nat)
    ensures 100 * Share(maxChars, percent) <= maxChars * percent + 50
    ensures 100 * Share(maxChars, percent) >= maxChars * percent - 50
  {
  }

  /** From 150 characters on, labels and shares of the required sections fit beside the
      separators of any packet. */
  lemma SharesFitFrom150(maxChars: nat)
    requires maxChars >= 150
    ensures Ceiling3(maxChars) + 22 <= maxChars
  {
    hide Share;
    ShareBounds(maxChars, 16);
    ShareBounds(maxChars, 30);
    ShareBounds(maxChars, 20);
    if maxChars == 150 {
      SharesAt150();
    } else if maxChars == 151 {
      SharesAt151();
    }
  }

  lemma SharesAt150()
    ensures Share(150, 16) == 24 && Share(150, 30) == 45 && Share(150, 20) == 30
  {
  }

  lemma SharesAt151()
    ensures Share(151, 16) == 24 && Share(151, 30) == 45 && Share(151, 20) == 30
  {
  }

  /** From 150 characters on the required sections of any packet, cut down to their shares,
      fit beside the separators together. */
  lemma RequiredFitAsShares(p: Packet, maxChars: nat)
    requires maxChars >= 150
    ensures Sum(RequiredOf(p), Asked(maxChars)) <= Reserve(p, maxChars)
  {
    hide Sorted, Chosen, Present, Share, Slots, Sum, LabelCost;
    SpecsDistinct(p);
    AskedWithinCeilings(Slots(p), maxChars);
    CeilingsOfPacket(p, maxChars);
    SharesFitFrom150(maxChars);
    SumSorted(ByPriority, Chosen(Specs(p), true), Asked(maxChars));
  }

  /** When the required sections do not fit together, each is allocated its label and the
      smaller of its length and its share -- at least 24 -- from 150 characters on. */
  lemma RequiredShares(p: Packet, maxChars: nat, s: Section)
    requires maxChars >= 150 && !RequiredFit(p, maxChars) && s in Specs(p) && s.required
    ensures AllocationOf(Allocated(p, maxChars).allocations, s) ==
      LabelCost(s) + Min(|s.content|, Max(24, Share(maxChars, s.percent)))
  {
    hide Sorted, Chosen, Present, Hand, FullCost, Share, Specs, Sum, LabelCost, Reserve;
    PartsOf(p);
    RequiredFitAsShares(p, maxChars);
    SharesExactly(maxChars, RequiredOf(p), Reserve(p, maxChars));
    RequiredKept(p, maxChars);
  }

  // ---- stacked parts ----

  function Lengths(parts: seq<string>): nat {
    if parts == [] then 0 else Lengths(parts[..|parts| - 1]) + |parts[|parts| - 1]|
  }

  lemma {:induction false} LengthsCons(s: string, parts: seq<string>)
    ensures Lengths([s] + parts) == |s| + Lengths(parts)
  {
    var all := [s] + parts;
    if parts == [] {
      assert all == [s] && all[..0] == [];
    } else {
      assert all[..|parts|] == [s] + parts[..|parts| - 1];
      LengthsCons(s, parts[..|parts| - 1]);
    }
  }

  lemma {:induction false} StackedLength(parts: seq<string>)
    ensures |Stacked(parts)| == Lengths(parts) + if parts == [] then 0 else 2 * (|parts| - 1)
  {
    if parts != [] {
      LengthsCons(parts[0], parts[1..]);
      assert parts == [parts[0]] + parts[1..];
      StackedLength(parts[1..]);
    }
  }
}
