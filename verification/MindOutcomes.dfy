/** What one look at the world leaves in the mind. */
module MindOutcomes {
  // What a revision makes of every belief, what a commitment keeps of the earlier ones, and
  // when the intention is kept (src/evomesh/contracts.py, src/evomesh/bdi.py).

  import opened Goals
  import opened Options
  import opened Mind

  // ---- every belief, by its percepts ----

  /** The percept says something of the key. */
  predicate Speaks(percept: Belief, key: Key) {
    percept.key == key && !IsBlank(percept.statement)
  }

  /** Percept `i` is the last to say something of the key. */
  ghost predicate LastWord(percepts: seq<Belief>, key: Key, i: nat) {
    i < |percepts| && Speaks(percepts[i], key) && forall j :: i < j < |percepts| ==> !Speaks(percepts[j], key)
  }

  /** The belief of a key after all percepts: the one held, if none says anything of it; what
      the last one says, confirmed just then, or, if that is all that was ever said of it,
      that percept itself. */
  ghost predicate Tells(beliefs: seq<Belief>, percepts: seq<Belief>, clock: seq<nat>, b: Belief)
    requires |clock| == |percepts|
  {
    if !Perceived(percepts, b.key) then b in beliefs else exists i: nat :: TellsAt(beliefs, percepts, clock, b, i)
  }

  ghost predicate TellsAt(beliefs: seq<Belief>, percepts: seq<Belief>, clock: seq<nat>, b: Belief, i: nat)
    requires |clock| == |percepts|
  {
    && LastWord(percepts, b.key, i) && b.statement == percepts[i].statement
    && if Holding(beliefs, b.key) || Perceived(percepts[..i], b.key) then b.updated == clock[i] else b == percepts[i]
  }

  lemma LastWordMoves(percepts: seq<Belief>, last: Belief, key: Key, i: nat)
    requires LastWord(percepts, key, i) && !Speaks(last, key)
    ensures LastWord(percepts + [last], key, i)
  {
    hide IsBlank;
  }

  lemma LastWordIs(percepts: seq<Belief>, last: Belief)
    requires !IsBlank(last.statement)
    ensures LastWord(percepts + [last], last.key, |percepts|)
  {
    hide IsBlank;
  }

  lemma TellsMoves(beliefs: seq<Belief>, percepts: seq<Belief>, clock: seq<nat>, last: Belief, now: nat, b: Belief)
    requires |clock| == |percepts| && Tells(beliefs, percepts, clock, b) && !Speaks(last, b.key)
    ensures Tells(beliefs, percepts + [last], clock + [now], b)
  {
    hide IsBlank, Holding, LastWord, Perceived;
    PerceivedSnoc(percepts, last, b.key);
    if Perceived(percepts, b.key) {
      var i: nat :| TellsAt(beliefs, percepts, clock, b, i);
      LastWordMoves(percepts, last, b.key, i);
      InRange(percepts, b.key, i);
      assert (percepts + [last])[..i] == percepts[..i] && (percepts + [last])[i] == percepts[i] && (clock + [now])[i] == clock[i];
      assert TellsAt(beliefs, percepts + [last], clock + [now], b, i);
    }
  }

  lemma InRange(percepts: seq<Belief>, key: Key, i: nat)
    requires LastWord(percepts, key, i)
    ensures i < |percepts|
  {
  }

  lemma PerceivedSnoc(percepts: seq<Belief>, last: Belief, key: Key)
    ensures Perceived(percepts + [last], key) <==> Perceived(percepts, key) || Speaks(last, key)
  {
    hide IsBlank;
    var all := percepts + [last];
    PerceivedLast(all);
    assert all[..|percepts|] == percepts;
  }

  lemma TellsNow(beliefs: seq<Belief>, percepts: seq<Belief>, clock: seq<nat>, last: Belief, now: nat, b: Belief)
    requires |clock| == |percepts| && Speaks(last, b.key) && b.statement == last.statement
    requires if Holding(beliefs, b.key) || Perceived(percepts, b.key) then b.updated == now else b == last
    ensures Tells(beliefs, percepts + [last], clock + [now], b)
  {
    hide IsBlank, Holding, LastWord, Perceived;
    PerceivedSnoc(percepts, last, b.key);
    LastWordIs(percepts, last);
    var n := |percepts|;
    assert (percepts + [last])[..n] == percepts && (percepts + [last])[n] == last && (clock + [now])[n] == now;
    assert TellsAt(beliefs, percepts + [last], clock + [now], b, n);
  }

  lemma {:induction false} FoldedTells(beliefs: seq<Belief>, percepts: seq<Belief>, clock: seq<nat>)
    requires |clock| == |percepts| && UniqueKeys(beliefs)
    ensures forall b :: b in Folded(beliefs, percepts, clock).beliefs ==> Tells(beliefs, percepts, clock, b)
  {
    hide IsBlank, Tells, Holding, Perceived;
    if percepts == [] {
      forall b | b in beliefs ensures Tells(beliefs, percepts, clock, b) {
        TellsOld(beliefs, clock, b);
      }
    } else {
      var n := |percepts| - 1;
      var front, times, last, now := percepts[..n], clock[..n], percepts[n], clock[n];
      var r := Folded(beliefs, front, times);
      FoldedTells(beliefs, front, times);
      FoldedFacts(beliefs, front, times);
      assert percepts == front + [last] && clock == times + [now];
      var s := FoldOne(r, last, now);
      forall b | b in s.beliefs ensures Tells(beliefs, percepts, clock, b) {
        OneTells(r, last, now, b);
        if b in r.beliefs && !Speaks(last, b.key) {
          TellsMoves(beliefs, front, times, last, now, b);
        } else {
          TellsNow(beliefs, front, times, last, now, b);
        }
      }
    }
  }

  lemma TellsOld(beliefs: seq<Belief>, clock: seq<nat>, b: Belief)
    requires b in beliefs && clock == []
    ensures Tells(beliefs, [], clock, b)
  {
  }

  /** One percept: of its key only it tells, of any other key what was held. */
  lemma OneTells(r: Revision, percept: Belief, now: nat, b: Belief)
    requires UniqueKeys(r.beliefs) && b in FoldOne(r, percept, now).beliefs
    ensures !Speaks(percept, b.key) ==> b in r.beliefs
    ensures Speaks(percept, b.key) ==> b.statement == percept.statement
    ensures Speaks(percept, b.key) ==> if Holding(r.beliefs, b.key) then b.updated == now else b == percept
  {
    hide IsBlank;
    var s := FoldOne(r, percept, now);
    var i := Find(r.beliefs, percept.key);
    var j :| 0 <= j < |s.beliefs| && s.beliefs[j] == b;
    if i < |r.beliefs| {
      assert r.beliefs[i] in r.beliefs;
      if j != i {
        assert r.beliefs[j] == b;
        assert i < j ==> r.beliefs[i].key != r.beliefs[j].key;
      }
    } else if j < |r.beliefs| {
      assert r.beliefs[j].key != percept.key;
    } else {
      assert forall x :: x in r.beliefs ==> x.key != percept.key;
    }
  }

  /** After a revision every belief kept is the one held, or what its percepts tell. */
  lemma RevisedTells(beliefs: seq<Belief>, percepts: seq<Belief>, clock: seq<nat>, keep: nat)
    requires |clock| == |percepts| && UniqueKeys(beliefs)
    ensures forall b :: b in Revised(beliefs, percepts, clock, keep).beliefs ==> Tells(beliefs, percepts, clock, b)
  {
    hide Tells, IsBlank, Trimmed;
    FoldedTells(beliefs, percepts, clock);
    FoldedFacts(beliefs, percepts, clock);
    TrimmedFacts(Folded(beliefs, percepts, clock).beliefs, keep);
  }

  // ---- what is reported as restated ----

  /** What is held of a key when percept `i` comes: what the last percept before it said, or
      what was held at first. */
  ghost predicate HeldAt(beliefs: seq<Belief>, percepts: seq<Belief>, i: nat, key: Key, statement: string)
    requires i <= |percepts|
  {
    if !Perceived(percepts[..i], key) then HoldsThat(beliefs, key, statement)
    else exists j: nat :: LastWord(percepts[..i], key, j) && percepts[..i][j].statement == statement
  }

  lemma HeldBefore(beliefs: seq<Belief>, percepts: seq<Belief>, clock: seq<nat>, key: Key, statement: string)
    requires |clock| == |percepts| && UniqueKeys(beliefs)
    ensures HoldsThat(Folded(beliefs, percepts, clock).beliefs, key, statement) ==> HeldAt(beliefs, percepts, |percepts|, key, statement)
  {
    hide IsBlank, LastWord, Perceived, Holding, Folded;
    FoldedTells(beliefs, percepts, clock);
    assert percepts[..|percepts|] == percepts;
    var r := Folded(beliefs, percepts, clock);
    if HoldsThat(r.beliefs, key, statement) {
      var b :| b in r.beliefs && b.key == key && b.statement == statement;
      assert Tells(beliefs, percepts, clock, b);
      if Perceived(percepts, key) {
        var i: nat :| TellsAt(beliefs, percepts, clock, b, i);
        InRange(percepts, key, i);
      }
    }
  }

  /** The percept says of a key held by then something other than is held. */
  ghost predicate Restates(beliefs: seq<Belief>, percepts: seq<Belief>, i: nat, key: Key) {
    && i < |percepts| && Speaks(percepts[i], key) && (Holding(beliefs, key) || Perceived(percepts[..i], key))
    && !HeldAt(beliefs, percepts, i, key, percepts[i].statement)
  }

  /** A key is reported as restated exactly when some percept says something other of it
      than is held by then: confirming a belief reports nothing. */
  lemma {:induction false} ReportedRestated(beliefs: seq<Belief>, percepts: seq<Belief>, clock: seq<nat>, key: Key)
    requires |clock| == |percepts| && UniqueKeys(beliefs)
    ensures key in Folded(beliefs, percepts, clock).change.updated <==> exists i: nat :: Restates(beliefs, percepts, i, key)
  {
    hide IsBlank, HeldAt, Perceived, Holding;
    if percepts != [] {
      var n := |percepts| - 1;
      var front, times := percepts[..n], clock[..n];
      var r := Folded(beliefs, front, times);
      ReportedRestated(beliefs, front, times, key);
      FoldedFacts(beliefs, front, times);
      OneRestates(r, percepts[n], clock[n], key);
      SameHeld(beliefs, percepts, clock, key);
      assert Restates(beliefs, percepts, n, key) <==>
        Speaks(percepts[n], key) && Holding(r.beliefs, key) && !HoldsThat(r.beliefs, key, percepts[n].statement);
      assert Folded(beliefs, percepts, clock) == FoldOne(r, percepts[n], clock[n]);
      LastRestates(beliefs, percepts, key);
    } else {
      forall i: nat ensures !Restates(beliefs, percepts, i, key) {
      }
    }
  }

  lemma RestatesMoves(beliefs: seq<Belief>, percepts: seq<Belief>, i: nat, key: Key)
    requires percepts != [] && i < |percepts| - 1
    ensures Restates(beliefs, percepts, i, key) <==> Restates(beliefs, percepts[..|percepts| - 1], i, key)
  {
    hide IsBlank, Perceived, Holding, LastWord;
    var front := percepts[..|percepts| - 1];
    assert front[..i] == percepts[..i] && front[i] == percepts[i];
  }

  lemma LastRestates(beliefs: seq<Belief>, percepts: seq<Belief>, key: Key)
    requires percepts != []
    ensures var n := |percepts| - 1;
      (exists i: nat :: Restates(beliefs, percepts, i, key)) <==>
        (exists i: nat :: Restates(beliefs, percepts[..n], i, key)) || Restates(beliefs, percepts, n, key)
  {
    hide IsBlank, Perceived, Holding, HeldAt, Speaks;
    var n := |percepts| - 1;
    if i: nat :| Restates(beliefs, percepts, i, key) && i < n {
      RestatesMoves(beliefs, percepts, i, key);
    }
    if i: nat :| Restates(beliefs, percepts[..n], i, key) {
      RestatesMoves(beliefs, percepts, i, key);
    }
  }

  lemma OneRestates(r: Revision, percept: Belief, now: nat, key: Key)
    requires UniqueKeys(r.beliefs)
    ensures key in FoldOne(r, percept, now).change.updated <==>
      key in r.change.updated || (Speaks(percept, key) && Holding(r.beliefs, key) && !HoldsThat(r.beliefs, key, percept.statement))
  {
    hide IsBlank;
    var i := Find(r.beliefs, percept.key);
    if i < |r.beliefs| {
      assert r.beliefs[i] in r.beliefs;
    }
    if HoldsThat(r.beliefs, percept.key, percept.statement) {
      var b :| b in r.beliefs && b.key == percept.key && b.statement == percept.statement;
      var j :| 0 <= j < |r.beliefs| && r.beliefs[j] == b;
      assert i == j;
    }
  }

  /** What the folded beliefs hold of a key when the last percept comes. */
  lemma SameHeld(beliefs: seq<Belief>, percepts: seq<Belief>, clock: seq<nat>, key: Key)
    requires percepts != [] && |clock| == |percepts| && UniqueKeys(beliefs)
    ensures var n := |percepts| - 1; var r := Folded(beliefs, percepts[..n], clock[..n]);
      && (Holding(r.beliefs, key) <==> Holding(beliefs, key) || Perceived(percepts[..n], key))
      && (Holding(r.beliefs, key) ==>
           (HoldsThat(r.beliefs, key, percepts[n].statement) <==> HeldAt(beliefs, percepts, n, key, percepts[n].statement)))
  {
    hide IsBlank, LastWord, Folded;
    var n := |percepts| - 1;
    var front, times := percepts[..n], clock[..n];
    var r := Folded(beliefs, front, times);
    FoldedFacts(beliefs, front, times);
    HeldBefore(beliefs, front, times, key, percepts[n].statement);
    assert front[..n] == front;
    if Holding(r.beliefs, key) && HeldAt(beliefs, percepts, n, key, percepts[n].statement) {
      var b :| b in r.beliefs && b.key == key;
      HeldBefore(beliefs, front, times, key, b.statement);
      assert HoldsThat(r.beliefs, key, b.statement);
      OneHeld(beliefs, front, key, b.statement, percepts[n].statement);
    }
  }

  lemma OneHeld(beliefs: seq<Belief>, percepts: seq<Belief>, key: Key, a: string, b: string)
    requires UniqueKeys(beliefs)
    requires HeldAt(beliefs, percepts, |percepts|, key, a) && HeldAt(beliefs, percepts, |percepts|, key, b)
    ensures a == b
  {
    hide IsBlank, Perceived;
    assert percepts[..|percepts|] == percepts;
    if !Perceived(percepts, key) {
      var x :| x in beliefs && x.key == key && x.statement == a;
      var y :| y in beliefs && y.key == key && y.statement == b;
      var i :| 0 <= i < |beliefs| && beliefs[i] == x;
      var j :| 0 <= j < |beliefs| && beliefs[j] == y;
      assert i == j;
    } else {
      var i: nat :| LastWord(percepts, key, i) && percepts[i].statement == a;
      var j: nat :| LastWord(percepts, key, j) && percepts[j].statement == b;
      assert i == j;
    }
  }

  /** At most one key behind the ones before it. */
  predicate GrowsBy(a: seq<Key>, b: seq<Key>, key: Key) {
    b == a || b == a + [key]
  }

  /** Keys are reported in the order of the percepts: each percept adds at most its own, last. */
  lemma ReportedInOrder(beliefs: seq<Belief>, percepts: seq<Belief>, clock: seq<nat>)
    requires |clock| == |percepts| && percepts != []
    ensures var n := |percepts| - 1; var key := percepts[n].key;
      var before, after := Folded(beliefs, percepts[..n], clock[..n]).change, Folded(beliefs, percepts, clock).change;
      && GrowsBy(before.added, after.added, key) && GrowsBy(before.updated, after.updated, key)
      && (after.added == before.added || after.updated == before.updated)
  {
    hide IsBlank;
  }

  // ---- what is kept ----

  /** Past the bound exactly `keep` beliefs stay, the longest unconfirmed first -- or all of
      them, for a bound of zero. */
  lemma TrimmedIs(beliefs: seq<Belief>, keep: nat)
    requires |beliefs| > keep
    ensures var kept := Trimmed(beliefs, keep);
      |kept| == (if keep == 0 then |beliefs| else keep) && OrderedByTime(kept)
  {
    SortOrders(beliefs);
  }

  /** What a commitment makes of an earlier intention. */
  function Ended(i: Intention): Intention {
    if i.status == Running then i.(status := Dropped) else i
  }

  /** A commitment stands last; of the earlier ones the latest stay, in order, and the one
      that was running is dropped. */
  lemma CommitIs(intentions: seq<Intention>, next: Intention, keep: nat)
    requires keep > 0
    ensures var r := Committed(intentions, next, keep);
      && |r| == (if |intentions| < keep then |intentions| + 1 else keep) && r[|r| - 1] == next
      && forall i :: 0 <= i < |r| - 1 ==> r[i] == Ended(intentions[|intentions| + 1 - |r| + i])
  {
    var all := DropActive(intentions) + [next];
    var r := Committed(intentions, next, keep);
    var skipped := |all| - |r|;
    assert r == all[skipped..];
    forall i | 0 <= i < |r| - 1 ensures r[i] == Ended(intentions[skipped + i]) {
      assert r[i] == all[skipped + i] == DropActive(intentions)[skipped + i];
    }
  }

  // ---- when the intention is kept ----

  /** The agent deliberates anew for the first of these reasons that there is, and keeps its
      intention exactly when there is none. */
  lemma ReconsidersFor(i: Option<Intention>, goals: seq<Goal>, isOpen: set<GoalId>, preempts: bool, change: Change)
    ensures var running := i.Some? && i.value.status == Running;
      var stepLeft := running && i.value.cursor < i.value.steps;
      var goalOpen := stepLeft && Has(goals, i.value.goal) && i.value.goal in isOpen;
      var touched := goalOpen && exists k :: k in i.value.contextKeys && (k in change.added || k in change.updated);
      var r := Reconsider(i, goals, isOpen, preempts, change);
      && (r == Some(NoIntention) <==> !running) && (r == Some(PlanDone) <==> running && !stepLeft)
      && (r == Some(GoalClosed) <==> stepLeft && !goalOpen) && (r == Some(BetterGoal) <==> goalOpen && preempts)
      && (r == Some(BeliefsChanged) <==> touched && !preempts) && (r == None <==> goalOpen && !preempts && !touched)
  {
  }
}
