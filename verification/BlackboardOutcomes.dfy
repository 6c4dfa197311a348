/** What publishing leaves on the board. */
module BlackboardOutcomes {
  // Which entries publishing adds, keeps and gives up, and in what order they stand
  // (src/evomesh/blackboard.py).

  import opened Dictionaries
  import opened Blackboards

  /** The last `n` entries, or all of them. */
  function Latest<V>(d: seq<V>, n: nat): (r: seq<V>)
    ensures |r| == if |d| <= n then |d| else n
  {
    d[if |d| <= n then 0 else |d| - n..]
  }

  /** Taking a key out closes the gap and moves nothing else. */
  lemma {:induction false} WithoutSplit<V>(before: seq<Item<V>>, x: Item<V>, rest: seq<Item<V>>)
    requires DistinctKeys(before + [x] + rest)
    ensures Without(before + [x] + rest, x.key) == before + rest
  {
    hide Keys, DistinctKeys;
    var all := before + [x] + rest;
    if before == [] {
      assert all[1..] == rest && [] + rest == rest;
      Cons(x, rest);
      assert all == [x] + rest;
      WithoutFacts(rest, x.key);
    } else {
      assert all[1..] == before[1..] + [x] + rest && all == [before[0]] + all[1..];
      Cons(before[0], all[1..]);
      AppendFacts(before[1..] + [x], rest);
      AppendFacts(before[1..], [x]);
      Cons(x, []);
      assert [x] + [] == [x];
      assert before[0].key != x.key;
      WithoutSplit(before[1..], x, rest);
      assert [before[0]] + (before[1..] + rest) == before + rest;
    }
  }

  /** Setting a key that is there changes its value in its place. */
  lemma {:induction false} WithSplit<V>(before: seq<Item<V>>, x: Item<V>, rest: seq<Item<V>>, v: V)
    requires DistinctKeys(before + [x] + rest)
    ensures With(before + [x] + rest, x.key, v) == before + [Item(x.key, v)] + rest
  {
    hide Keys, DistinctKeys;
    var all := before + [x] + rest;
    if before == [] {
      assert all[1..] == rest && all[0] == x;
    } else {
      assert all[1..] == before[1..] + [x] + rest && all == [before[0]] + all[1..];
      Cons(before[0], all[1..]);
      AppendFacts(before[1..] + [x], rest);
      AppendFacts(before[1..], [x]);
      Cons(x, []);
      assert [x] + [] == [x];
      WithSplit(before[1..], x, rest, v);
      assert [before[0]] + (before[1..] + [Item(x.key, v)] + rest) == before + [Item(x.key, v)] + rest;
    }
  }

  // ---- facts and artifacts ----

  lemma {:induction false} OldestIs<V>(d: seq<Item<V>>, limit: nat)
    ensures Oldest(d, limit) == Latest(d, limit)
    decreases |d|
  {
    if |d| > limit {
      OldestIs(d[1..], limit);
      assert Latest(d[1..], limit) == Latest(d, limit);
    } else {
      assert d[0..] == d;
    }
  }

  /** A published artifact stands last; the ones published longest ago go. */
  lemma ArtifactStandsLast(b: Board, bounds: Bounds, a: Artifact)
    ensures var r := ArtifactPublished(b, bounds, a);
      && r.artifacts == Latest(Without(b.artifacts, a.key) + [Item(a.key, a)], bounds.artifacts)
      && (bounds.artifacts > 0 ==> r.artifacts != [] && r.artifacts[|r.artifacts| - 1] == Item(a.key, a))
      && r.facts == b.facts && r.history == b.history && r.work == b.work
  {
    hide Without;
    OldestIs(Without(b.artifacts, a.key) + [Item(a.key, a)], bounds.artifacts);
  }

  lemma {:induction false} EvictedIs(b: Board, limit: nat)
    requires DistinctKeys(b.facts) && DistinctKeys(b.history)
    ensures var r := Evicted(b, limit);
      && r.facts == Latest(b.facts, limit)
      && AsMap(r.history) == AsMap(b.history) - Keys(b.facts[..|b.facts| - |Latest(b.facts, limit)|])
    decreases |b.facts|
  {
    hide AsMap, DistinctKeys, Without, Keys;
    if |b.facts| > limit {
      var k := b.facts[0].key;
      var less := b.(facts := b.facts[1..], history := Without(b.history, k));
      DropFirst(b.facts);
      WithoutFacts(b.history, k);
      EvictedIs(less, limit);
      assert Latest(b.facts[1..], limit) == Latest(b.facts, limit);
      var gone := |b.facts| - |Latest(b.facts, limit)|;
      assert b.facts[..gone] == [b.facts[0]] + b.facts[1..][..gone - 1];
      Cons(b.facts[0], b.facts[1..][..gone - 1]);
    } else {
      assert b.facts[0..] == b.facts && b.facts[..0] == [];
      NoEntries<Fact>();
    }
  }

  /** The versions of a key before a fact is published. */
  function VersionsOf(b: Board, key: Key): seq<Fact> {
    if key in AsMap(b.history) then AsMap(b.history)[key] else []
  }

  /** The versions of a key after it. */
  function NewVersions(b: Board, bounds: Bounds, fact: Fact, key: Key): seq<Fact> {
    var versions := VersionsOf(b, key);
    if key != fact.key || (versions != [] && versions[|versions| - 1] == fact) then versions
    else Latest(versions + [fact], bounds.versions)
  }

  /** A published fact stands last; the facts published longest ago go. */
  lemma FactStandsLast(b: Board, bounds: Bounds, fact: Fact)
    requires Inv(b, bounds) && bounds.versions > 0
    ensures var r := FactPublished(b, bounds, fact);
      && r.facts == Latest(Without(b.facts, fact.key) + [Item(fact.key, fact)], bounds.facts)
      && (bounds.facts > 0 ==> r.facts != [] && r.facts[|r.facts| - 1] == Item(fact.key, fact))
      && r.artifacts == b.artifacts && r.work == b.work
  {
    hide AsMap, DistinctKeys, Without, With, Get, Keys, Evicted, LineOk, ArtifactsOk, WorkOk, Agrees, Versions;
    var noted := Noted(b, fact, bounds.versions);
    NotedKeeps(b, fact, bounds.versions);
    EvictedIs(noted, bounds.facts);
    EvictedKeeps(noted, bounds.facts, bounds.versions);
  }

  lemma NotedVersions(b: Board, fact: Fact, limit: nat)
    requires DistinctKeys(b.history) && limit > 0
    ensures AsMap(Noted(b, fact, limit).history) == AsMap(b.history)[fact.key := Versions(VersionsOf(b, fact.key), fact, limit)]
  {
    hide AsMap, DistinctKeys, Without, With, Get, Keys, Versions;
    GetIs(b.history, fact.key, []);
    WithFacts(b.history, fact.key, Versions(VersionsOf(b, fact.key), fact, limit));
  }

  lemma VersionsAre(versions: seq<Fact>, fact: Fact, limit: nat)
    requires limit > 0
    ensures Versions(versions, fact, limit) ==
      if versions != [] && versions[|versions| - 1] == fact then versions else Latest(versions + [fact], limit)
  {
  }

  /** It is the newest version of its key, unless the newest one says the same; no other
      key's versions change, but for those of the facts that go. */
  lemma FactAddsVersion(b: Board, bounds: Bounds, fact: Fact)
    requires Inv(b, bounds) && bounds.versions > 0
    ensures var r := FactPublished(b, bounds, fact);
      forall k :: k in AsMap(r.facts) ==> VersionsOf(r, k) == NewVersions(b, bounds, fact, k)
  {
    hide AsMap, DistinctKeys, Without, With, Get, Keys, Evicted, LineOk, ArtifactsOk, WorkOk, Noted, Versions;
    var noted := Noted(b, fact, bounds.versions);
    NotedKeeps(b, fact, bounds.versions);
    EvictedIs(noted, bounds.facts);
    EvictedKeeps(noted, bounds.facts, bounds.versions);
    NotedVersions(b, fact, bounds.versions);
    VersionsAre(VersionsOf(b, fact.key), fact, bounds.versions);
    var r := FactPublished(b, bounds, fact);
    assert AsMap(r.facts).Keys == AsMap(r.history).Keys;
  }

  // ---- work ----

  /** Work that is over, one way or the other. */
  const FINISHED: set<WorkStatus> := {WorkStatus.Completed, WorkStatus.Failed, WorkStatus.NeedsHuman, WorkStatus.Cancelled}

  predicate IsFinished(w: Work) {
    w.status in FINISHED
  }

  /** The first key stands before the second. */
  predicate Before(work: seq<Item<Work>>, a: Key, b: Key) {
    work != [] && if work[0].key == a then b in Keys(work[1..]) else Before(work[1..], a, b)
  }

  /** The entries of these keys, in their order. */
  function Only(work: seq<Item<Work>>, keys: set<Key>): seq<Item<Work>> {
    if work == [] then [] else (if work[0].key in keys then [work[0]] else []) + Only(work[1..], keys)
  }

  lemma {:induction false} OnlyAll(work: seq<Item<Work>>, keys: set<Key>)
    requires Keys(work) <= keys
    ensures Only(work, keys) == work
  {
    if work != [] {
      OnlyAll(work[1..], keys);
    }
  }

  lemma {:induction false} OnlyOfLess(work: seq<Item<Work>>, key: Key, keys: set<Key>)
    requires key !in keys
    ensures Only(Without(work, key), keys) == Only(work, keys)
  {
    if work != [] {
      OnlyOfLess(work[1..], key, keys);
      if work[0].key != key {
        var r := Without(work[1..], key);
        assert ([work[0]] + r)[1..] == r;
      }
    }
  }

  lemma {:induction false} BeforeOfLess(work: seq<Item<Work>>, key: Key, a: Key, b: Key)
    requires DistinctKeys(work) && a != key && b != key && Before(Without(work, key), a, b)
    ensures Before(work, a, b)
  {
    if work != [] {
      WithoutFacts(work[1..], key);
      if work[0].key != key {
        var r := Without(work[1..], key);
        assert ([work[0]] + r)[1..] == r;
        if work[0].key != a {
          BeforeOfLess(work[1..], key, a, b);
        }
      } else {
        BeforeOfLess(work[1..], key, a, b);
      }
    }
  }

  lemma {:induction false} FirstIsBefore(work: seq<Item<Work>>, b: Key)
    requires DistinctKeys(work) && b in AsMap(work)
    ensures AnyFinished(work) && IsFinished(AsMap(work)[b]) && b != FirstFinished(work).key ==> Before(work, FirstFinished(work).key, b)
    ensures !AnyFinished(work) ==> !IsFinished(AsMap(work)[b])
    ensures b != work[0].key ==> Before(work, work[0].key, b)
  {
    MapKeys(work);
    MapKeys(work[1..]);
    if AnyFinished(work) {
      FinishedAmong(work);
    }
    if b != work[0].key {
      FirstIsBefore(work[1..], b);
      if AnyFinished(work[1..]) {
        FinishedAmong(work[1..]);
      }
    }
  }

  /** What was given up went before what was kept: finished work before open work, and of
      either kind the work that stood further ahead. */
  ghost predicate GivenUpFirst(work: seq<Item<Work>>, kept: set<Key>) {
    forall k, j :: k in AsMap(work) && k !in kept && j in kept && j in AsMap(work) ==>
      if IsFinished(AsMap(work)[k]) <==> IsFinished(AsMap(work)[j]) then Before(work, k, j) else IsFinished(AsMap(work)[k])
  }

  /** Exactly as much work is kept as there is room for, in the order it stood. */
  lemma {:induction false} WorkKeptIs(work: seq<Item<Work>>, limit: nat)
    requires DistinctKeys(work)
    ensures var kept := WorkKept(work, limit);
      && |kept| == (if |work| <= limit then |work| else limit)
      && Keys(kept) <= Keys(work) && kept == Only(work, Keys(kept)) && GivenUpFirst(work, Keys(kept))
    decreases |work|
  {
    hide AsMap, Keys, DistinctKeys, AnyFinished, FirstFinished, Before, Only, Without, IsFinished;
    var kept := WorkKept(work, limit);
    MapKeys(work);
    if |work| <= limit {
      OnlyAll(work, Keys(work));
    } else {
      DropShrinks(work);
      var key := ToDrop(work).key;
      var less := Without(work, key);
      WithoutFacts(work, key);
      WithoutOne(work, key);
      MapKeys(less);
      WorkKeptIs(less, limit);
      OnlyOfLess(work, key, Keys(kept));
      forall k, j | k in AsMap(work) && k !in Keys(kept) && j in Keys(kept) && j in AsMap(work)
        ensures if IsFinished(AsMap(work)[k]) <==> IsFinished(AsMap(work)[j]) then Before(work, k, j) else IsFinished(AsMap(work)[k])
      {
        if k == key {
          DroppedFirst(work, j);
        } else {
          assert AsMap(less)[k] == AsMap(work)[k] && AsMap(less)[j] == AsMap(work)[j];
          if Before(less, k, j) {
            BeforeOfLess(work, key, k, j);
          }
        }
      }
    }
  }

  lemma DroppedFirst(work: seq<Item<Work>>, j: Key)
    requires DistinctKeys(work) && j in AsMap(work) && work != [] && j != ToDrop(work).key
    ensures ToDrop(work).key in AsMap(work)
    ensures var k := ToDrop(work).key;
      if IsFinished(AsMap(work)[k]) <==> IsFinished(AsMap(work)[j]) then Before(work, k, j) else IsFinished(AsMap(work)[k])
  {
    hide AsMap, Keys, DistinctKeys, Before;
    DropShrinks(work);
    MapKeys(work);
    FirstIsBefore(work, j);
    if AnyFinished(work) {
      FinishedIs(work);
    } else {
      FirstIsBefore(work, work[0].key);
    }
  }

  lemma WithoutOne<V>(d: seq<Item<V>>, key: Key)
    requires DistinctKeys(d) && key in Keys(d)
    ensures |Without(d, key)| == |d| - 1
  {
    WithoutFacts(d, key);
    SizeIs(d);
    SizeIs(Without(d, key));
  }

  /** Published work is there under its id, in its old place or last, unless it is given up
      itself; other work only changes by being given up, the finished and the older first. */
  lemma WorkIsThere(b: Board, bounds: Bounds, w: Work)
    requires Inv(b, bounds)
    ensures var r := WorkPublished(b, bounds, w); var all := With(b.work, w.id, w); var kept := Keys(r.work);
      && AsMap(all) == AsMap(b.work)[w.id := w]
      && (w.id !in AsMap(b.work) ==> all == b.work + [Item(w.id, w)])
      && |r.work| == (if |all| <= bounds.work then |all| else bounds.work)
      && kept <= Keys(all) && r.work == Only(all, kept) && GivenUpFirst(all, kept)
      && r.facts == b.facts && r.history == b.history && r.artifacts == b.artifacts
  {
    hide AsMap, Keys, DistinctKeys, WorkKept, With, Only, GivenUpFirst;
    MapKeys(b.work);
    WithFacts(b.work, w.id, w);
    WorkKeptIs(With(b.work, w.id, w), bounds.work);
  }
}
