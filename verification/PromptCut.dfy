/** The final cut. */
module PromptCut {
  // Exactly when the final cut of the prompt takes nothing away, and exactly when the
  // provenance records tell what the text still holds after it
  // (`assemble_with_provenance` in src/evomesh/cognitive_services.py).

  import opened Text
  import opened ContextBudget
  import opened PromptBudget
  import opened PromptText

  // ---- what clips overrun, and what others leave ----

  /** How long a clip comes out: whole, the lines kept and the mark, or the bare budget. */
  function ClippedSize(text: string, budget: nat): nat {
    if |text| <= budget then |text|
    else if budget > 0 && KeptSize(text, budget) > 0 then KeptSize(text, budget) + MARK_LENGTH
    else budget
  }

  lemma ClippedSizeIs(text: string, budget: nat)
    ensures |Clip(text, budget)| == ClippedSize(text, budget)
  {
    hide KeptSize, Clip;
    if 0 < budget < |text| {
      ClipLength(text, budget);
    } else {
      ClipShort(text, budget);
    }
  }

  /** What is left of a section's allocation for its content. */
  function Room(s: Section, a: map<Source, int>): nat {
    Max(0, AllocationOf(a, s) - LabelCost(s))
  }

  /** By how much label and content of a printed section exceed its allocation. */
  function Overrun(a: map<Source, int>): Section -> int {
    s => if AllocationOf(a, s) > 0 then Max(0, LabelCost(s) + ClippedSize(s.content, Room(s, a)) - AllocationOf(a, s)) else 0
  }

  /** What a printed section leaves of its allocation. */
  function Unused(a: map<Source, int>): Section -> int {
    s => if AllocationOf(a, s) > 0 then Max(0, AllocationOf(a, s) - LabelCost(s) - ClippedSize(s.content, Room(s, a))) else 0
  }

  /** One for every printed section. */
  function IsPrinted(a: map<Source, int>): Section -> int {
    s => if AllocationOf(a, s) > 0 then 1 else 0
  }

  lemma ShownOne(s: Section, a: map<Source, int>)
    requires AllocationOf(a, s) >= 0
    ensures Shown(a)(s) + Unused(a)(s) == Allot(a)(s) + Overrun(a)(s)
  {
    hide AllocationOf, ClippedSize, LabelCost, Clip;
    ClippedSizeIs(s.content, Room(s, a));
  }

  lemma {:induction false} ShownBalances(sections: seq<Section>, a: map<Source, int>)
    requires forall s :: s in sections ==> AllocationOf(a, s) >= 0
    ensures Sum(sections, Shown(a)) + Sum(sections, Unused(a)) == Sum(sections, Allot(a)) + Sum(sections, Overrun(a))
  {
    hide AllocationOf, Shown, Unused, Allot, Overrun;
    if sections != [] {
      ShownBalances(sections[..|sections| - 1], a);
      ShownOne(sections[|sections| - 1], a);
    }
  }

  lemma {:induction false} PrintedCount(sections: seq<Section>, a: map<Source, int>)
    ensures |RenderedAll(sections, a)| == Sum(sections, IsPrinted(a))
  {
    hide AllocationOf, Selected;
    if sections != [] {
      PrintedCount(sections[..|sections| - 1], a);
    }
  }

  predicate NonNegative(a: map<Source, int>) {
    forall src :: src in a ==> a[src] >= 0
  }

  lemma {:induction false} GrantsNonNegative(rule: Rule, maxChars: nat, sections: seq<Section>, start: Granted)
    requires rule.Whole? || start.remaining >= 0
    requires NonNegative(start.allocations)
    ensures NonNegative(Hand(rule, maxChars, sections, start).allocations)
  {
    hide Share, LabelCost;
    if sections != [] {
      GrantsNonNegative(rule, maxChars, sections[..|sections| - 1], start);
      if !rule.Whole? {
        HandLeaves(rule, maxChars, sections[..|sections| - 1], start);
      }
    }
  }

  lemma AllocationsNonNegative(p: Packet, maxChars: nat, s: Section)
    ensures AllocationOf(Allocated(p, maxChars).allocations, s) >= 0
  {
    hide Specs, Sorted, Chosen, Hand, RequiredFit, RequiredOf, OptionalOf;
    var rule := if RequiredFit(p, maxChars) then Whole else Shared;
    RequiredLeaves(p, maxChars);
    GrantsNonNegative(rule, maxChars, RequiredOf(p), Granted(map[], Reserve(p, maxChars)));
    GrantsNonNegative(Spare, maxChars, OptionalOf(p), AfterRequired(p, maxChars));
  }

  lemma {:induction false} NothingPrinted(sections: seq<Section>, a: map<Source, int>)
    requires Sum(sections, IsPrinted(a)) == 0
    ensures Sum(sections, Overrun(a)) == 0 == Sum(sections, Unused(a))
  {
    hide AllocationOf, ClippedSize, LabelCost;
    if sections != [] {
      var front := sections[..|sections| - 1];
      SumNonNegative(front, IsPrinted(a));
      NothingPrinted(front, a);
    }
  }

  /** For every packet and every budget: the final cut takes nothing away if and only if what
      printed sections overrun their allocations by is covered by what others leave of
      theirs, by what was never handed out, and by the separators reserved for sections that
      are not printed. */
  lemma CutTakesNothingExactly(p: Packet, maxChars: nat)
    ensures Cut(Uncut(p, maxChars), maxChars) == Uncut(p, maxChars) <==> |Uncut(p, maxChars)| <= maxChars
    ensures var a := Allocated(p, maxChars).allocations; var sections := OutputOf(p);
      |Uncut(p, maxChars)| <= maxChars <==>
        Sum(sections, Overrun(a)) <=
          Sum(sections, Unused(a)) + Allocated(p, maxChars).remaining + 2 * (|Specs(p)| - Sum(sections, IsPrinted(a)))
  {
    hide Specs, OutputOf, Allocated, Uncut, RenderedAll, Shown, Unused, Allot, Overrun, IsPrinted, Sum, AllocationOf;
    var a, sections := Allocated(p, maxChars).allocations, OutputOf(p);
    AllocationsFit(p, maxChars);
    UncutLength(p, maxChars);
    SpecsCount(p);
    PrintedCount(sections, a);
    RenderedLength(sections, a);
    forall s | s in sections ensures AllocationOf(a, s) >= 0 {
      AllocationsNonNegative(p, maxChars, s);
    }
    ShownBalances(sections, a);
    if RenderedAll(sections, a) == [] {
      NothingShown(sections, a);
      NothingPrinted(sections, a);
    } else {
      SomethingShown(sections, a);
    }
  }

  // ---- what the text holds after the cut ----

  function TextOf(sections: seq<Section>, a: map<Source, int>): string {
    Stacked(RenderedAll(sections, a))
  }

  /** Where the text of the first `k + 1` sections ends. */
  function EndOf(sections: seq<Section>, a: map<Source, int>, k: nat): nat
    requires k < |sections|
  {
    |TextOf(sections[..k + 1], a)|
  }

  /** What the cut text holds where the content of section `k` was printed. */
  function Held(sections: seq<Section>, a: map<Source, int>, n: nat, k: nat): string
    requires k < |sections|
  {
    var text := Cut(TextOf(sections, a), n);
    var end := EndOf(sections, a, k);
    var start := Max(0, end - |Selected(sections[k], a)|);
    if AllocationOf(a, sections[k]) <= 0 then ""
    else text[Min(start, |text|)..Min(end, |text|)]
  }

  /** Every record counts what the text holds of its section, and says truncated exactly when
      that is not the whole content. */
  ghost predicate RecordsTell(sections: seq<Section>, a: map<Source, int>, n: nat) {
    forall k :: 0 <= k < |sections| ==> RecordTells(sections, a, n, k)
  }

  ghost predicate RecordTells(sections: seq<Section>, a: map<Source, int>, n: nat, k: nat)
    requires k < |sections|
  {
    && |Provenance(sections, a)| == |sections|
    && Provenance(sections, a)[k].included == |Held(sections, a, n, k)|
    && (Provenance(sections, a)[k].truncated <==> Held(sections, a, n, k) != sections[k].content)
  }

  /** Where the last printed content ends; only empty sections' labels can come after it. */
  function ContentEnd(sections: seq<Section>, a: map<Source, int>): nat {
    if sections == [] then 0
    else
      var last := sections[|sections| - 1];
      if AllocationOf(a, last) > 0 && Selected(last, a) != "" then |TextOf(sections, a)|
      else ContentEnd(sections[..|sections| - 1], a)
  }

  /** Lines were dropped, but with the mark the clip is at least as long as the content. */
  predicate MarkHides(s: Section, a: map<Source, int>) {
    && 0 < Room(s, a) < |s.content| && KeptSize(s.content, Room(s, a)) > 0
    && KeptSize(s.content, Room(s, a)) + MARK_LENGTH >= |s.content| && Selected(s, a) != s.content
  }

  lemma {:induction false} StackedSnoc(parts: seq<string>, last: string)
    ensures Stacked(parts + [last]) == Stacked(parts) + (if parts == [] then "" else "\n\n") + last
  {
    var all := parts + [last];
    if parts == [] {
      assert all == [last];
    } else {
      assert all[1..] == parts[1..] + [last] && all[0] == parts[0];
      StackedSnoc(parts[1..], last);
    }
  }

  /** The text of one section more: the text so far, and the section if it is printed. */
  lemma TextGrows(sections: seq<Section>, a: map<Source, int>)
    requires sections != []
    ensures var last := sections[|sections| - 1]; var before := TextOf(sections[..|sections| - 1], a);
      && before <= TextOf(sections, a)
      && (AllocationOf(a, last) <= 0 ==> TextOf(sections, a) == before)
      && (AllocationOf(a, last) > 0 ==>
            && |TextOf(sections, a)| >= |before| + LabelCost(last) + |Selected(last, a)|
            && TextOf(sections, a)[|TextOf(sections, a)| - |Selected(last, a)|..] == Selected(last, a))
  {
    hide AllocationOf, Selected, Stacked;
    var front, last := sections[..|sections| - 1], sections[|sections| - 1];
    var parts := RenderedAll(front, a);
    if AllocationOf(a, last) > 0 {
      StackedSnoc(parts, Render(last, Selected(last, a)));
      EndsWithContent(Stacked(parts) + (if parts == [] then "" else "\n\n"), last, Selected(last, a));
    } else {
      assert parts + [] == parts;
    }
  }

  lemma EndsWithContent(before: string, s: Section, selected: string)
    ensures var text := before + Render(s, selected);
      before <= text && |text| == |before| + LabelCost(s) + |selected| && text[|text| - |selected|..] == selected
  {
    var caption := s.heading + (if s.source.Goal? then ": " else ":\n");
    assert before + Render(s, selected) == (before + caption) + selected;
  }

  lemma {:induction false} TextPrefix(sections: seq<Section>, a: map<Source, int>, k: nat)
    requires k <= |sections|
    ensures TextOf(sections[..k], a) <= TextOf(sections, a)
  {
    hide TextOf;
    if k < |sections| {
      TextGrows(sections, a);
      TextPrefix(sections[..|sections| - 1], a, k);
      assert sections[..|sections| - 1][..k] == sections[..k];
    } else {
      assert sections[..k] == sections;
    }
  }

  /** What is held of a section is the part of its content that stands before the cut. */
  lemma HeldIs(sections: seq<Section>, a: map<Source, int>, n: nat, k: nat)
    requires k < |sections|
    ensures var selected := Selected(sections[k], a); var end := EndOf(sections, a, k);
      && (AllocationOf(a, sections[k]) <= 0 ==> Held(sections, a, n, k) == "" == selected)
      && (AllocationOf(a, sections[k]) > 0 ==>
            && |selected| <= end
            && (end <= n ==> Held(sections, a, n, k) == selected)
            && (end > n && selected != "" ==> |Held(sections, a, n, k)| < |selected|)
            && (selected == "" ==> Held(sections, a, n, k) == ""))
  {
    hide TextOf, Clip, LabelCost;
    var upTo := sections[..k + 1];
    assert upTo[..k] == sections[..k] && upTo[k] == sections[k];
    TextGrows(upTo, a);
    TextPrefix(sections, a, k + 1);
    if AllocationOf(a, sections[k]) > 0 {
      var text, part := TextOf(sections, a), TextOf(upTo, a);
      SliceHeld(text, part, Selected(sections[k], a), n);
    } else {
      ClipShort(sections[k].content, 0);
    }
  }

  lemma SliceHeld(text: string, part: string, selected: string, n: nat)
    requires part <= text && |selected| <= |part| && part[|part| - |selected|..] == selected
    ensures var cut := Cut(text, n); var held := cut[Min(|part| - |selected|, |cut|)..Min(|part|, |cut|)];
      && (|part| <= n ==> held == selected)
      && (|part| > n && selected != "" ==> |held| < |selected|)
      && (selected == "" ==> held == "")
  {
    var cut := Cut(text, n);
    if |part| <= n {
      assert cut[..|part|] == part;
      assert cut[|part| - |selected|..|part|] == part[|part| - |selected|..];
    }
  }

  lemma {:induction false} ContentEndExactly(sections: seq<Section>, a: map<Source, int>, n: nat)
    ensures ContentEnd(sections, a) <= |TextOf(sections, a)|
    ensures ContentEnd(sections, a) <= n <==>
      forall k :: 0 <= k < |sections| && AllocationOf(a, sections[k]) > 0 && Selected(sections[k], a) != "" ==> EndOf(sections, a, k) <= n
  {
    hide AllocationOf, Selected, TextOf;
    if sections != [] {
      var front, last := sections[..|sections| - 1], sections[|sections| - 1];
      ContentEndExactly(front, a, n);
      TextGrows(sections, a);
      assert sections[..|sections|] == sections;
      forall k | 0 <= k < |front|
        ensures EndOf(front, a, k) == EndOf(sections, a, k) <= |TextOf(sections, a)|
      {
        assert front[..k + 1] == sections[..k + 1];
        TextPrefix(sections, a, k + 1);
      }
    }
  }

  /** A clip is as long as the content or longer, and still not the content, exactly when the
      mark hides what was dropped. */
  lemma MarkHidesExactly(s: Section, a: map<Source, int>)
    ensures MarkHides(s, a) <==> |Selected(s, a)| >= |s.content| && Selected(s, a) != s.content
  {
    hide KeptSize, Clip, LabelCost, AllocationOf;
    ClippedSizeIs(s.content, Room(s, a));
    if |s.content| <= Room(s, a) {
      ClipShort(s.content, Room(s, a));
    }
  }

  lemma {:induction false} RecordIs(sections: seq<Section>, a: map<Source, int>, k: nat)
    requires k < |sections|
    ensures |Provenance(sections, a)| == |sections|
    ensures Provenance(sections, a)[k] ==
      Record(sections[k].source, |sections[k].content|, |Selected(sections[k], a)|, |Selected(sections[k], a)| < |sections[k].content|, sections[k].required)
  {
    hide Selected;
    ProvenanceCounts(sections, a);
    if k < |sections| - 1 {
      RecordIs(sections[..|sections| - 1], a, k);
      ProvenanceCounts(sections[..|sections| - 1], a);
    }
  }

  lemma RecordTellsExactly(sections: seq<Section>, a: map<Source, int>, n: nat, k: nat)
    requires k < |sections|
    ensures RecordTells(sections, a, n, k) <==>
      && (AllocationOf(a, sections[k]) > 0 && Selected(sections[k], a) != "" ==> EndOf(sections, a, k) <= n)
      && !MarkHides(sections[k], a)
  {
    hide Held, Selected, AllocationOf, TextOf, MarkHides, Provenance;
    RecordIs(sections, a, k);
    HeldIs(sections, a, n, k);
    MarkHidesExactly(sections[k], a);
  }

  /** For every packet and every budget: each record counts what the text holds of its section
      and calls truncated exactly what is not there whole, if and only if the cut comes after
      the last content and no mark is as long as the lines it stands for. */
  lemma RecordsTellExactly(p: Packet, maxChars: nat)
    ensures var sections := OutputOf(p); var a := Allocated(p, maxChars).allocations;
      && ContentEnd(sections, a) <= |Uncut(p, maxChars)|
      && (RecordsTell(sections, a, maxChars) <==>
            ContentEnd(sections, a) <= maxChars && forall k :: 0 <= k < |sections| ==> !MarkHides(sections[k], a))
  {
    hide OutputOf, Allocated, RecordTells, Selected, AllocationOf, MarkHides, ContentEnd;
    var sections, a := OutputOf(p), Allocated(p, maxChars).allocations;
    ContentEndExactly(sections, a, maxChars);
    forall k | 0 <= k < |sections|
      ensures RecordTells(sections, a, maxChars, k) <==>
        && (AllocationOf(a, sections[k]) > 0 && Selected(sections[k], a) != "" ==> EndOf(sections, a, k) <= maxChars)
        && !MarkHides(sections[k], a)
    {
      RecordTellsExactly(sections, a, maxChars, k);
    }
  }
}
