/** The mind. */
module Mind {
  // Beliefs, intentions and the decision to reconsider
  // (src/evomesh/contracts.py, src/evomesh/bdi.py).

  import opened Goals
  import opened Options
  import Text

  type Key = string

  /** `updated` is the moment the belief was last confirmed. */
  datatype Belief = Belief(key: Key, statement: string, updated: nat)

  datatype IntentionStatus = Running | Achieved | Impossible | Dropped

  /** `steps` is how many steps the plan has. */
  datatype Intention = Intention(goal: GoalId, steps: nat, cursor: nat, contextKeys: seq<Key>, status: IntentionStatus) {
    predicate Exhausted() {
      cursor >= steps
    }
  }

  /** What one revision reports. */
  datatype Change = Change(added: seq<Key>, updated: seq<Key>) {
    predicate Reports(key: Key) {
      key in added || key in updated
    }
  }

  // ---- belief revision ----

  predicate Holding(beliefs: seq<Belief>, key: Key) {
    exists b :: b in beliefs && b.key == key
  }

  predicate HoldsThat(beliefs: seq<Belief>, key: Key, statement: string) {
    exists b :: b in beliefs && b.key == key && b.statement == statement
  }

  /** Where the belief with this key is, or the length of the list. */
  function Find(beliefs: seq<Belief>, key: Key): (i: nat)
    ensures i <= |beliefs|
    ensures i < |beliefs| ==> beliefs[i].key == key
    ensures forall j :: 0 <= j < i ==> beliefs[j].key != key
  {
    if beliefs == [] then 0
    else if beliefs[0].key == key then 0
    else 1 + Find(beliefs[1..], key)
  }

  ghost predicate UniqueKeys(beliefs: seq<Belief>) {
    forall i, j :: 0 <= i < j < |beliefs| ==> beliefs[i].key != beliefs[j].key
  }

  /** Nothing is left of the statement once stripped. */
  predicate IsBlank(statement: string) {
    Text.Strip(statement) == []
  }

  datatype Revision = Revision(beliefs: seq<Belief>, change: Change)

  /** One percept: appended, restating what is held, or only confirming it. */
  function FoldOne(r: Revision, percept: Belief, now: nat): Revision {
    if IsBlank(percept.statement) then r
    else
      var i := Find(r.beliefs, percept.key);
      if i == |r.beliefs| then
        Revision(r.beliefs + [percept], r.change.(added := r.change.added + [percept.key]))
      else
        var held := r.beliefs[i].(statement := percept.statement, updated := now);
        Revision(r.beliefs[i := held],
                 if r.beliefs[i].statement == percept.statement then r.change
                 else r.change.(updated := r.change.updated + [percept.key]))
  }

  /** All percepts in order; `clock[i]` is the moment percept `i` is folded in. */
  function Folded(beliefs: seq<Belief>, percepts: seq<Belief>, clock: seq<nat>): Revision
    requires |clock| == |percepts|
  {
    if percepts == [] then Revision(beliefs, Change([], []))
    else
      var n := |percepts| - 1;
      FoldOne(Folded(beliefs, percepts[..n], clock[..n]), percepts[n], clock[n])
  }

  /** Stable insertion by confirmation time. */
  function InsertByTime(sorted: seq<Belief>, b: Belief): (r: seq<Belief>)
    ensures |r| == |sorted| + 1
    ensures multiset(r) == multiset(sorted) + multiset{b}
  {
    if sorted == [] || sorted[|sorted| - 1].updated <= b.updated then sorted + [b]
    else
      var n := |sorted| - 1;
      assert sorted == sorted[..n] + [sorted[n]];
      InsertByTime(sorted[..n], b) + [sorted[n]]
  }

  function SortedByTime(beliefs: seq<Belief>): (r: seq<Belief>)
    ensures |r| == |beliefs|
    ensures multiset(r) == multiset(beliefs)
  {
    if beliefs == [] then []
    else
      var n := |beliefs| - 1;
      assert beliefs == beliefs[..n] + [beliefs[n]];
      InsertByTime(SortedByTime(beliefs[..n]), beliefs[n])
  }

  /** `xs[-n:]`, which for zero is the whole list. */
  function Tail<T>(xs: seq<T>, n: nat): seq<T> {
    if n == 0 || |xs| <= n then xs else xs[|xs| - n..]
  }

  /** Beyond `keep`, the least recently confirmed beliefs go. */
  function Trimmed(beliefs: seq<Belief>, keep: nat): seq<Belief> {
    if |beliefs| > keep then Tail(SortedByTime(beliefs), keep) else beliefs
  }

  function Revised(beliefs: seq<Belief>, percepts: seq<Belief>, clock: seq<nat>, keep: nat): Revision
    requires |clock| == |percepts|
  {
    var r := Folded(beliefs, percepts, clock);
    Revision(Trimmed(r.beliefs, keep), r.change)
  }

  // ---- what a revision guarantees ----

  lemma FoldOneFacts(r: Revision, percept: Belief, now: nat)
    requires UniqueKeys(r.beliefs)
    ensures var s := FoldOne(r, percept, now);
      && UniqueKeys(s.beliefs)
      && (forall b :: b in s.beliefs ==> HoldsThat(r.beliefs, b.key, b.statement) || b.key == percept.key)
      && (forall b :: b in s.beliefs && !HoldsThat(r.beliefs, b.key, b.statement) ==> s.change.Reports(b.key))
      && (forall k :: Holding(s.beliefs, k) <==> Holding(r.beliefs, k) || (k == percept.key && !IsBlank(percept.statement)))
      && (forall k :: r.change.Reports(k) ==> s.change.Reports(k))
      && (forall k :: k in s.change.added <==>
            (k in r.change.added || (k == percept.key && !IsBlank(percept.statement) && !Holding(r.beliefs, k))))
  {
    hide FoldOne;
    FoldOneHolds(r, percept, now);
    FoldOneReports(r, percept, now);
    FoldOneSays(r, percept, now);
  }

  lemma FoldOneHolds(r: Revision, percept: Belief, now: nat)
    requires UniqueKeys(r.beliefs)
    ensures var s := FoldOne(r, percept, now);
      && UniqueKeys(s.beliefs)
      && (forall k :: Holding(s.beliefs, k) <==> Holding(r.beliefs, k) || (k == percept.key && !IsBlank(percept.statement)))
  {
    hide IsBlank;
    var s := FoldOne(r, percept, now);
    var i := Find(r.beliefs, percept.key);
    forall k ensures Holding(s.beliefs, k) <==> Holding(r.beliefs, k) || (k == percept.key && !IsBlank(percept.statement)) {
      if Holding(r.beliefs, k) {
        var b :| b in r.beliefs && b.key == k;
        var j :| 0 <= j < |r.beliefs| && r.beliefs[j] == b;
        assert s.beliefs[j].key == k && s.beliefs[j] in s.beliefs;
      }
      if !IsBlank(percept.statement) {
        assert s.beliefs[i].key == percept.key && s.beliefs[i] in s.beliefs;
      }
      if Holding(s.beliefs, k) {
        var b :| b in s.beliefs && b.key == k;
        var j :| 0 <= j < |s.beliefs| && s.beliefs[j] == b;
        assert j < |r.beliefs| ==> r.beliefs[j].key == k && r.beliefs[j] in r.beliefs;
      }
    }
  }

  lemma FoldOneSays(r: Revision, percept: Belief, now: nat)
    ensures var s := FoldOne(r, percept, now);
      forall b :: b in s.beliefs ==> HoldsThat(r.beliefs, b.key, b.statement) || (b.key == percept.key && s.change.Reports(b.key))
  {
    hide IsBlank;
    var s := FoldOne(r, percept, now);
    forall b | b in s.beliefs
      ensures HoldsThat(r.beliefs, b.key, b.statement) || (b.key == percept.key && s.change.Reports(b.key))
    {
      var j :| 0 <= j < |s.beliefs| && s.beliefs[j] == b;
      if j < |r.beliefs| {
        assert r.beliefs[j] in r.beliefs;
      }
    }
  }

  lemma FoldOneReports(r: Revision, percept: Belief, now: nat)
    ensures var s := FoldOne(r, percept, now);
      && (forall k :: r.change.Reports(k) ==> s.change.Reports(k))
      && (forall k :: k in s.change.added <==>
            (k in r.change.added || (k == percept.key && !IsBlank(percept.statement) && !Holding(r.beliefs, k))))
  {
    hide IsBlank;
    var i := Find(r.beliefs, percept.key);
    if i < |r.beliefs| {
      assert r.beliefs[i] in r.beliefs;
    }
    if Holding(r.beliefs, percept.key) {
      var b :| b in r.beliefs && b.key == percept.key;
      var j :| 0 <= j < |r.beliefs| && r.beliefs[j] == b;
    }
  }

  /** After folding: keys are unique, and every key newly held or restated is reported. */
  lemma {:induction false} FoldedFacts(beliefs: seq<Belief>, percepts: seq<Belief>, clock: seq<nat>)
    requires |clock| == |percepts| && UniqueKeys(beliefs)
    ensures var r := Folded(beliefs, percepts, clock);
      && UniqueKeys(r.beliefs)
      && (forall b :: b in r.beliefs && !HoldsThat(beliefs, b.key, b.statement) ==> r.change.Reports(b.key))
      && (forall k :: Holding(r.beliefs, k) <==> Holding(beliefs, k) || Perceived(percepts, k))
      && (forall k :: k in r.change.added <==> !Holding(beliefs, k) && Perceived(percepts, k))
  {
    hide IsBlank, FoldOne;
    if percepts == [] {
      forall b | b in beliefs ensures HoldsThat(beliefs, b.key, b.statement) {
      }
    } else {
      var n := |percepts| - 1;
      var earlier := Folded(beliefs, percepts[..n], clock[..n]);
      FoldedFacts(beliefs, percepts[..n], clock[..n]);
      FoldOneFacts(earlier, percepts[n], clock[n]);
      PerceivedLast(percepts);
      var r := Folded(beliefs, percepts, clock);
      forall b | b in r.beliefs && !HoldsThat(beliefs, b.key, b.statement)
        ensures r.change.Reports(b.key)
      {
        if HoldsThat(earlier.beliefs, b.key, b.statement) {
          var e :| e in earlier.beliefs && e.key == b.key && e.statement == b.statement;
          assert earlier.change.Reports(e.key);
        }
      }
    }
  }

  /** A percept whose key is not reported says what was held already. */
  lemma FoldOneSilent(r: Revision, percept: Belief, now: nat)
    requires !IsBlank(percept.statement) && !FoldOne(r, percept, now).change.Reports(percept.key)
    ensures HoldsThat(r.beliefs, percept.key, percept.statement) && !r.change.Reports(percept.key)
  {
    hide IsBlank;
    var i := Find(r.beliefs, percept.key);
    if i < |r.beliefs| {
      assert r.beliefs[i] in r.beliefs;
    }
    FoldOneReports(r, percept, now);
  }

  /** Not only at the end: whatever was perceived of a key that is not reported was held
      before the first percept, so nothing was said of it and then taken back. */
  lemma {:induction false} UnreportedHeld(beliefs: seq<Belief>, percepts: seq<Belief>, clock: seq<nat>, i: nat)
    requires |clock| == |percepts| && UniqueKeys(beliefs) && i < |percepts| && !IsBlank(percepts[i].statement)
    requires !Folded(beliefs, percepts, clock).change.Reports(percepts[i].key)
    ensures HoldsThat(beliefs, percepts[i].key, percepts[i].statement)
  {
    hide IsBlank, FoldOne;
    var n := |percepts| - 1;
    var earlier := Folded(beliefs, percepts[..n], clock[..n]);
    FoldOneReports(earlier, percepts[n], clock[n]);
    if i < n {
      UnreportedHeld(beliefs, percepts[..n], clock[..n], i);
    } else {
      FoldOneSilent(earlier, percepts[n], clock[n]);
      FoldedFacts(beliefs, percepts[..n], clock[..n]);
      var b :| b in earlier.beliefs && b.key == percepts[n].key && b.statement == percepts[n].statement;
    }
  }

  predicate Perceived(percepts: seq<Belief>, key: Key) {
    exists p :: p in percepts && p.key == key && !IsBlank(p.statement)
  }

  lemma PerceivedLast(percepts: seq<Belief>)
    requires percepts != []
    ensures var n := |percepts| - 1;
      forall k :: Perceived(percepts, k) <==>
        Perceived(percepts[..n], k) || (k == percepts[n].key && !IsBlank(percepts[n].statement))
  {
    hide IsBlank;
    var n := |percepts| - 1;
    assert percepts == percepts[..n] + [percepts[n]];
    assert forall p :: p in percepts <==> p in percepts[..n] || p == percepts[n];
  }

  ghost predicate OrderedByTime(beliefs: seq<Belief>) {
    forall i, j :: 0 <= i < j < |beliefs| ==> beliefs[i].updated <= beliefs[j].updated
  }

  lemma {:induction false} InsertOrders(sorted: seq<Belief>, b: Belief)
    requires OrderedByTime(sorted)
    ensures OrderedByTime(InsertByTime(sorted, b))
  {
    if sorted != [] && sorted[|sorted| - 1].updated > b.updated {
      var n := |sorted| - 1;
      assert sorted == sorted[..n] + [sorted[n]];
      InsertOrders(sorted[..n], b);
      var shorter := InsertByTime(sorted[..n], b);
      forall i | 0 <= i < |shorter| ensures shorter[i].updated <= sorted[n].updated {
        assert shorter[i] in multiset(shorter);
        assert shorter[i] in multiset(sorted[..n]) || shorter[i] == b;
      }
    }
  }

  lemma {:induction false} SortOrders(beliefs: seq<Belief>)
    ensures OrderedByTime(SortedByTime(beliefs))
  {
    if beliefs != [] {
      var n := |beliefs| - 1;
      SortOrders(beliefs[..n]);
      InsertOrders(SortedByTime(beliefs[..n]), beliefs[n]);
    }
  }

  /** Keys stay unique under reordering, because each belief still occurs once per key. */
  lemma {:induction false} KeysByMultiset(a: seq<Belief>, b: seq<Belief>)
    requires UniqueKeys(a) && multiset(a) == multiset(b)
    ensures UniqueKeys(b)
  {
    forall i, j | 0 <= i < j < |b| ensures b[i].key != b[j].key {
      assert b[i] in multiset(a) && b[j] in multiset(a);
      var x :| 0 <= x < |a| && a[x] == b[i];
      var y :| 0 <= y < |a| && a[y] == b[j];
      CountsTwice(b, i, j);
      OccursOnce(a, x);
    }
  }

  lemma CountsTwice(b: seq<Belief>, i: nat, j: nat)
    requires i < j < |b|
    ensures b[i] == b[j] ==> multiset(b)[b[i]] >= 2
  {
    assert b == b[..j] + b[j..];
    assert b[..j][i] == b[i] && b[j..][0] == b[j];
    assert b[i] in multiset(b[..j]) && b[j] in multiset(b[j..]);
  }

  lemma OccursOnce(a: seq<Belief>, x: nat)
    requires UniqueKeys(a) && x < |a|
    ensures multiset(a)[a[x]] == 1
  {
    var before, after := a[..x], a[x + 1..];
    assert a == before + [a[x]] + after;
    assert a[x] !in before && a[x] !in after;
  }

  /** Trimming keeps unique keys, fits the bound, and drops nothing more recently
      confirmed than what it keeps. */
  lemma TrimmedFacts(beliefs: seq<Belief>, keep: nat)
    requires UniqueKeys(beliefs)
    ensures var kept := Trimmed(beliefs, keep);
      && UniqueKeys(kept)
      && (keep > 0 ==> |kept| <= keep)
      && (forall b :: b in kept ==> b in beliefs)
      && (forall b, k :: b in beliefs && b !in kept && k in kept ==> b.updated <= k.updated)
      && (|beliefs| <= keep ==> kept == beliefs)
  {
    if |beliefs| > keep {
      var sorted := SortedByTime(beliefs);
      SortOrders(beliefs);
      KeysByMultiset(beliefs, sorted);
      forall b ensures b in sorted <==> b in beliefs {
        assert b in multiset(sorted) <==> b in multiset(beliefs);
      }
    }
  }

  /** `revise`: unique keys, the bound, every newly held or restated key reported, and
      `added` is exactly the perceived keys not held before. */
  lemma RevisedFacts(beliefs: seq<Belief>, percepts: seq<Belief>, clock: seq<nat>, keep: nat)
    requires |clock| == |percepts| && UniqueKeys(beliefs) && keep > 0
    ensures var r := Revised(beliefs, percepts, clock, keep);
      && UniqueKeys(r.beliefs) && |r.beliefs| <= keep
      && (forall b :: b in r.beliefs && !HoldsThat(beliefs, b.key, b.statement) ==> r.change.Reports(b.key))
      && (forall k :: k in r.change.added <==> !Holding(beliefs, k) && Perceived(percepts, k))
  {
    FoldedFacts(beliefs, percepts, clock);
    TrimmedFacts(Folded(beliefs, percepts, clock).beliefs, keep);
  }

  // ---- commitment ----

  /** Every active intention stops being active. */
  function DropActive(intentions: seq<Intention>): (r: seq<Intention>)
    ensures |r| == |intentions|
    ensures forall i :: 0 <= i < |r| ==> r[i] == (if intentions[i].status.Running? then intentions[i].(status := Dropped) else intentions[i])
  {
    seq(|intentions|, i requires 0 <= i < |intentions| =>
      if intentions[i].status.Running? then intentions[i].(status := Dropped) else intentions[i])
  }

  function Committed(intentions: seq<Intention>, next: Intention, keep: nat): seq<Intention> {
    Tail(DropActive(intentions) + [next], keep)
  }

  /** At most one intention is active, and only the last committed can be. */
  ghost predicate OneCommitment(intentions: seq<Intention>) {
    forall i :: 0 <= i < |intentions| - 1 ==> !intentions[i].status.Running?
  }

  lemma CommitKeepsOne(intentions: seq<Intention>, next: Intention, keep: nat)
    requires next.status.Running?
    ensures OneCommitment(Committed(intentions, next, keep))
    ensures var r := Committed(intentions, next, keep); r != [] && r[|r| - 1] == next
  {
  }

  // ---- reconsidering ----

  datatype Reason = NoIntention | PlanDone | GoalClosed | BetterGoal | BeliefsChanged

  /** `reconsider`: `open(goal)` is whether the goal may still be worked on and
      `preempts` whether the best runnable goal displaces it. */
  function Reconsider(intention: Option<Intention>, goals: seq<Goal>, isOpen: set<GoalId>, preempts: bool, change: Change): Option<Reason> {
    if intention.None? then Some(NoIntention)
    else if !intention.value.status.Running? then Some(NoIntention)
    else if intention.value.Exhausted() then Some(PlanDone)
    else if !Has(goals, intention.value.goal) then Some(GoalClosed)
    else if intention.value.goal !in isOpen then Some(GoalClosed)
    else if preempts then Some(BetterGoal)
    else if exists k :: k in intention.value.contextKeys && change.Reports(k) then Some(BeliefsChanged)
    else None
  }

  /** A cycle that keeps its intention is one in which the plan has a step left, the goal is
      open, and of the plan's context keys no percept said anything not held before, so that
      no belief in them is newly held or says something new. */
  lemma KeptMeansUntouched(beliefs: seq<Belief>, percepts: seq<Belief>, clock: seq<nat>, keep: nat,
                           intention: Intention, goals: seq<Goal>, isOpen: set<GoalId>, preempts: bool, extra: seq<Key>)
    requires |clock| == |percepts| && UniqueKeys(beliefs) && keep > 0
    requires var r := Revised(beliefs, percepts, clock, keep);
      Reconsider(Some(intention), goals, isOpen, preempts, r.change.(added := r.change.added + extra)).None?
    ensures var after := Revised(beliefs, percepts, clock, keep).beliefs;
      && intention.status.Running? && intention.cursor < intention.steps && intention.goal in isOpen
      && (forall k :: k in intention.contextKeys ==> k !in extra)
      && (forall k, b :: k in intention.contextKeys && b in after && b.key == k ==> HoldsThat(beliefs, k, b.statement))
      && (forall k :: k in intention.contextKeys && Perceived(percepts, k) ==> Holding(beliefs, k))
      && (forall p :: p in percepts && p.key in intention.contextKeys && !IsBlank(p.statement) ==> HoldsThat(beliefs, p.key, p.statement))
  {
    hide IsBlank, Folded, Trimmed;
    RevisedFacts(beliefs, percepts, clock, keep);
    var r := Revised(beliefs, percepts, clock, keep);
    forall k | k in intention.contextKeys
      ensures !r.change.Reports(k) && k !in extra
    {
      var wider := r.change.(added := r.change.added + extra);
      assert !wider.Reports(k);
    }
    forall p | p in percepts && p.key in intention.contextKeys && !IsBlank(p.statement)
      ensures HoldsThat(beliefs, p.key, p.statement)
    {
      var i :| 0 <= i < |percepts| && percepts[i] == p;
      UnreportedHeld(beliefs, percepts, clock, i);
    }
  }
}
