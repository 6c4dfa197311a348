module Backlog {
  // The improvement backlog as a list of open items, and the line edits as
  // operations on that list (src/evomesh/codebase.py).

  import opened Options
  import opened Text
  import opened BacklogLines

  datatype Improvement = Improvement(title: string, detail: string, steps: seq<Step>) {
    predicate HasOpenStep(number: nat) {
      exists i :: 0 <= i < |steps| && steps[i].number == number && !steps[i].done
    }

    predicate AllDone() {
      forall i :: 0 <= i < |steps| ==> steps[i].done
    }
  }

  // ---- parsing ----

  function Details(block: seq<string>): seq<string> {
    if block == [] then []
    else if StepMatch(block[0]).Some? then Details(block[1..])
    else [Strip(block[0])] + Details(block[1..])
  }

  function Steps(block: seq<string>): seq<Step> {
    if block == [] then []
    else if StepMatch(block[0]).Some? then [StepMatch(block[0]).value] + Steps(block[1..])
    else Steps(block[1..])
  }

  /** `_parse_item`. */
  function ParseItem(title: string, block: seq<string>): Improvement {
    Improvement(title, Strip(Joined(Details(block))), Steps(block))
  }

  /** How many of the lines belong to the item above them. */
  function BlockLength(lines: seq<string>): (n: nat)
    ensures n <= |lines| && (n < |lines| ==> !Continues(lines[n]))
    ensures forall i :: 0 <= i < n ==> Continues(lines[i])
  {
    if lines == [] || !Continues(lines[0]) then 0 else 1 + BlockLength(lines[1..])
  }

  /** Every open item of the file, in order. */
  function Items(lines: seq<string>): seq<Improvement>
    decreases |lines|
  {
    if lines == [] then []
    else if OpenTitle(lines[0]).Some? then
      var n := BlockLength(lines[1..]);
      [ParseItem(OpenTitle(lines[0]).value, lines[1..][..n])] + Items(lines[1..][n..])
    else Items(lines[1..])
  }

  /** No block runs on from before: the first line does not continue anything. */
  predicate Fresh(lines: seq<string>) {
    lines == [] || !Continues(lines[0])
  }

  lemma {:induction false} BlockLengthIs(block: seq<string>, rest: seq<string>)
    requires Fresh(rest) && forall i :: 0 <= i < |block| ==> Continues(block[i])
    ensures BlockLength(block + rest) == |block|
  {
    hide Continues;
    if block == [] {
      assert block + rest == rest;
    } else {
      assert (block + rest)[1..] == block[1..] + rest;
      BlockLengthIs(block[1..], rest);
    }
  }

  /** One item and its block, then the rest. */
  lemma ItemsOfChunk(head: string, block: seq<string>, rest: seq<string>)
    requires OpenTitle(head).Some? && Fresh(rest) && forall i :: 0 <= i < |block| ==> Continues(block[i])
    ensures Items([head] + block + rest) == [ParseItem(OpenTitle(head).value, block)] + Items(rest)
  {
    hide OpenTitle, Continues, ParseItem;
    var lines := [head] + block + rest;
    assert lines[1..] == block + rest;
    BlockLengthIs(block, rest);
    assert (block + rest)[..|block|] == block && (block + rest)[|block|..] == rest;
  }

  /** Lines that open no item contribute none. */
  lemma {:induction false} ItemsSkip(lines: seq<string>, rest: seq<string>)
    requires forall i :: 0 <= i < |lines| ==> OpenTitle(lines[i]).None?
    ensures Items(lines + rest) == Items(rest)
  {
    hide OpenTitle;
    if lines == [] {
      assert lines + rest == rest;
    } else {
      assert (lines + rest)[1..] == lines[1..] + rest;
      ItemsSkip(lines[1..], rest);
    }
  }

  /** Parsing splits at every line that continues nothing. */
  lemma {:induction false} ItemsAppend(a: seq<string>, b: seq<string>)
    requires Fresh(b)
    ensures Items(a + b) == Items(a) + Items(b)
    decreases |a|
  {
    hide OpenTitle, Continues, ParseItem;
    if a == [] {
      assert a + b == b;
    } else if OpenTitle(a[0]).Some? {
      var n := BlockLength(a[1..]);
      var block, rest := a[1..][..n], a[1..][n..];
      assert Fresh(rest);
      ItemsAppend(rest, b);
      assert a == [a[0]] + block + rest && a + b == [a[0]] + block + (rest + b);
      ItemsOfChunk(a[0], block, rest);
      assert Fresh(rest + b) by {
        if rest == [] {
          assert rest + b == b;
        }
      }
      ItemsOfChunk(a[0], block, rest + b);
    } else {
      assert (a + b)[1..] == a[1..] + b;
      ItemsAppend(a[1..], b);
    }
  }

  lemma OpenIsFresh(line: string)
    requires OpenTitle(line).Some? || IsDone(line)
    ensures !Continues(line)
  {
  }

  // ---- closing an item ----

  /** Where the first open item with this title stands, or the number of lines. */
  function ItemAt(lines: seq<string>, title: string): (i: nat)
    ensures i <= |lines|
  {
    if lines == [] || OpenTitle(lines[0]) == Some(title) then 0 else 1 + ItemAt(lines[1..], title)
  }

  lemma {:induction false} ItemAtIsFirst(lines: seq<string>, title: string)
    ensures var i := ItemAt(lines, title); i < |lines| ==> OpenTitle(lines[i]) == Some(title)
    ensures forall j :: 0 <= j < ItemAt(lines, title) ==> OpenTitle(lines[j]) != Some(title)
  {
    hide OpenTitle;
    if lines != [] && OpenTitle(lines[0]) != Some(title) {
      ItemAtIsFirst(lines[1..], title);
    }
  }

  predicate Lists(items: seq<Improvement>, title: string) {
    exists i :: 0 <= i < |items| && items[i].title == title
  }

  /** The list without the first item of this title. */
  function Closed(items: seq<Improvement>, title: string): seq<Improvement> {
    if items == [] then []
    else if items[0].title == title then items[1..]
    else [items[0]] + Closed(items[1..], title)
  }

  lemma {:induction false} ClosedSkips(a: seq<Improvement>, b: seq<Improvement>, title: string)
    requires !Lists(a, title)
    ensures Closed(a + b, title) == a + Closed(b, title)
  {
    if a == [] {
      assert a + b == b;
    } else {
      assert (a + b)[1..] == a[1..] + b;
      forall i | 0 <= i < |a[1..]| ensures a[1..][i].title != title {
        assert a[1..][i] == a[i + 1];
      }
      ClosedSkips(a[1..], b, title);
    }
  }

  /** An item is listed exactly when a line opens it. */
  lemma {:induction false} ListedIffOpened(lines: seq<string>, title: string)
    ensures Lists(Items(lines), title) <==> ItemAt(lines, title) < |lines|
    decreases |lines|
  {
    hide OpenTitle, Continues, ParseItem;
    if lines != [] {
      if OpenTitle(lines[0]).Some? {
        var n := BlockLength(lines[1..]);
        ListedIffOpened(lines[1..][n..], title);
        ListedChunk(lines, title);
      } else {
        ListedIffOpened(lines[1..], title);
      }
    }
  }

  lemma ListedChunk(lines: seq<string>, title: string)
    requires lines != [] && OpenTitle(lines[0]).Some?
    requires var rest := lines[1..][BlockLength(lines[1..])..];
      Lists(Items(rest), title) <==> ItemAt(rest, title) < |rest|
    ensures Lists(Items(lines), title) <==> ItemAt(lines, title) < |lines|
  {
    hide OpenTitle, ParseItem, Items, BlockLength, Continues;
    var n := BlockLength(lines[1..]);
    var block, rest := lines[1..][..n], lines[1..][n..];
    var own := OpenTitle(lines[0]).value;
    assert lines == [lines[0]] + block + rest && lines[1..] == block + rest;
    ItemsOfChunk(lines[0], block, rest);
    ListsCons(ParseItem(own, block), Items(rest), title);
    TitleOf(own, block);
    if own != title {
      BlockOpensNothing(block);
      ItemAtSkips(block, rest, title);
    }
  }

  lemma BlockOpensNothing(block: seq<string>)
    requires forall i :: 0 <= i < |block| ==> Continues(block[i])
    ensures forall i :: 0 <= i < |block| ==> OpenTitle(block[i]).None?
  {
  }

  lemma ListsCons(head: Improvement, items: seq<Improvement>, title: string)
    ensures Lists([head] + items, title) <==> head.title == title || Lists(items, title)
  {
    var all := [head] + items;
    if Lists(items, title) {
      var i :| 0 <= i < |items| && items[i].title == title;
      assert all[i + 1].title == title;
    }
    if head.title == title {
      assert all[0].title == title;
    }
    if Lists(all, title) && head.title != title {
      var i :| 0 <= i < |all| && all[i].title == title;
      assert items[i - 1].title == title;
    }
  }

  lemma {:induction false} ItemAtSkips(block: seq<string>, rest: seq<string>, title: string)
    requires forall i :: 0 <= i < |block| ==> OpenTitle(block[i]) != Some(title)
    ensures ItemAt(block + rest, title) == |block| + ItemAt(rest, title)
  {
    hide OpenTitle;
    if block == [] {
      assert block + rest == rest;
    } else {
      assert (block + rest)[1..] == block[1..] + rest;
      ItemAtSkips(block[1..], rest, title);
    }
  }

  /** `lines` is what is before the item at its head, the item with its block, and the rest. */
  ghost predicate Chunked(lines: seq<string>, before: seq<string>, head: string, block: seq<string>, rest: seq<string>) {
    && lines == before + ([head] + block + rest)
    && Fresh(rest) && (forall i :: 0 <= i < |block| ==> Continues(block[i]))
  }

  lemma Recut(lines: seq<string>, i: nat, after: seq<string>, block: seq<string>, rest: seq<string>)
    requires i < |lines| && after == lines[i + 1..] && after == block + rest
    ensures lines == lines[..i] + ([lines[i]] + block + rest)
  {
    assert [lines[i]] + block + rest == [lines[i]] + after;
    assert lines == lines[..i] + ([lines[i]] + after);
  }

  lemma ChunkAt(lines: seq<string>, i: nat) returns (block: seq<string>, rest: seq<string>)
    requires i < |lines| && OpenTitle(lines[i]).Some?
    ensures Chunked(lines, lines[..i], lines[i], block, rest)
  {
    hide OpenTitle, Continues;
    var after := lines[i + 1..];
    var n := BlockLength(after);
    block, rest := after[..n], after[n..];
    assert after == block + rest;
    Recut(lines, i, after, block, rest);
  }

  /** What a chunked file lists. */
  lemma {:induction false} ItemsOfChunked(lines: seq<string>, before: seq<string>, head: string, block: seq<string>, rest: seq<string>)
    requires Chunked(lines, before, head, block, rest) && OpenTitle(head).Some?
    ensures Items(lines) == Items(before) + [ParseItem(OpenTitle(head).value, block)] + Items(rest)
  {
    hide OpenTitle, ParseItem, Items;
    OpenIsFresh(head);
    ItemsAppend(before, [head] + block + rest);
    ItemsOfChunk(head, block, rest);
  }

  lemma HeadReplaced(lines: seq<string>, before: seq<string>, head: string, block: seq<string>, rest: seq<string>, head': string)
    requires Chunked(lines, before, head, block, rest)
    ensures lines[|before| := head'] == before + ([head'] + block + rest)
  {
    hide Continues;
  }

  /** A chunk that opens nothing vanishes from the list. */
  lemma {:induction false} VanishedChunk(before: seq<string>, head: string, block: seq<string>, rest: seq<string>)
    requires OpenTitle(head).None? && !Continues(head)
    requires forall j :: 0 <= j < |block| ==> OpenTitle(block[j]).None?
    ensures Items(before + ([head] + block + rest)) == Items(before) + Items(rest)
  {
    hide OpenTitle, Continues, Items;
    var chunk := [head] + block;
    ItemsAppend(before, chunk + rest);
    ItemsSkip(chunk, rest);
  }

  /** Ticking the line that opens an item removes exactly that item. */
  lemma TickItemCloses(lines: seq<string>, title: string)
    requires ItemAt(lines, title) < |lines|
    ensures var i := ItemAt(lines, title);
      Items(lines[i := TickedItemLine(lines[i])]) == Closed(Items(lines), title)
  {
    hide OpenTitle, ParseItem, TickedItemLine, Items, Continues, IsDone;
    var i := ItemAt(lines, title);
    ItemAtIsFirst(lines, title);
    var block, rest := ChunkAt(lines, i);
    TickedChunk(lines, lines[..i], lines[i], block, rest);
    ItemsOfChunked(lines, lines[..i], lines[i], block, rest);
    NotListedBefore(lines, title, i);
    TitleOf(title, block);
    ClosedMiddle(Items(lines[..i]), ParseItem(title, block), Items(rest), title);
  }

  lemma TickedChunk(lines: seq<string>, before: seq<string>, head: string, block: seq<string>, rest: seq<string>)
    requires Chunked(lines, before, head, block, rest) && OpenTitle(head).Some?
    ensures Items(lines[|before| := TickedItemLine(head)]) == Items(before) + Items(rest)
  {
    hide OpenTitle, TickedItemLine, Items, IsDone;
    var ticked := TickedItemLine(head);
    TickedItemIsDone(head);
    OpenIsFresh(ticked);
    BlockOpensNothing(block);
    HeadReplaced(lines, before, head, block, rest, ticked);
    VanishedChunk(before, ticked, block, rest);
  }

  lemma ClosedMiddle(a: seq<Improvement>, item: Improvement, c: seq<Improvement>, title: string)
    requires !Lists(a, title) && item.title == title
    ensures Closed(a + [item] + c, title) == a + c
  {
    var tail := [item] + c;
    assert tail[1..] == c;
    assert a + [item] + c == a + tail;
    ClosedSkips(a, tail, title);
  }

  lemma TitleOf(title: string, block: seq<string>)
    ensures ParseItem(title, block).title == title
  {
  }

  lemma NotListedBefore(lines: seq<string>, title: string, i: nat)
    requires i <= ItemAt(lines, title)
    ensures !Lists(Items(lines[..i]), title)
  {
    hide OpenTitle, Items;
    ListedIffOpened(lines[..i], title);
    ItemAtIsFirst(lines, title);
    ItemAtIsFirst(lines[..i], title);
  }
}
