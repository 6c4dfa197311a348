/** The blackboard. */
module Blackboards {
  // The shared world state: facts with their retained versions, artifacts and work, each
  // bounded, and what a dump brings back (src/evomesh/blackboard.py).

  import opened Dictionaries

  /** A published claim; `body` is all it says beside its key. */
  datatype Fact = Fact(key: Key, body: string)

  datatype Artifact = Artifact(key: Key, body: string)

  datatype WorkStatus = Pending | Blocked | Offered | Assigned | Active | Completed | Failed | NeedsHuman | Cancelled {
    predicate IsTerminal() {
      Completed? || Failed? || NeedsHuman? || Cancelled?
    }
  }

  datatype Work = Work(id: Key, status: WorkStatus, body: string)

  datatype Bounds = Bounds(facts: nat, artifacts: nat, work: nat, versions: nat)

  datatype Board = Board(facts: seq<Item<Fact>>, history: seq<Item<seq<Fact>>>, artifacts: seq<Item<Artifact>>, work: seq<Item<Work>>)

  const EMPTY := Board([], [], [], [])

  /** `xs[-n:]` of a list, for n at least 1. */
  function Newest<T>(xs: seq<T>, n: nat): (r: seq<T>)
    requires n > 0
    ensures |r| <= n && (xs != [] ==> r != [] && r[|r| - 1] == xs[|xs| - 1])
  {
    if |xs| <= n then xs else xs[|xs| - n..]
  }

  // ---- publishing ----

  /** The versions of a key once `fact` is published: a repetition of the last adds none. */
  function Versions(versions: seq<Fact>, fact: Fact, limit: nat): seq<Fact>
    requires limit > 0
  {
    if versions == [] || versions[|versions| - 1] != fact then Newest(versions + [fact], limit) else versions
  }

  /** The oldest facts go, with their versions, until the bound holds. */
  function Evicted(b: Board, limit: nat): Board
    decreases |b.facts|
  {
    if |b.facts| <= limit then b
    else Evicted(b.(facts := b.facts[1..], history := Without(b.history, b.facts[0].key)), limit)
  }

  /** `publish_fact` before anything is evicted. */
  function Noted(b: Board, fact: Fact, limit: nat): Board
    requires limit > 0
  {
    b.(facts := Without(b.facts, fact.key) + [Item(fact.key, fact)],
       history := With(b.history, fact.key, Versions(Get(b.history, fact.key, []), fact, limit)))
  }

  function FactPublished(b: Board, bounds: Bounds, fact: Fact): Board
    requires bounds.versions > 0
  {
    Evicted(Noted(b, fact, bounds.versions), bounds.facts)
  }

  function Oldest<V>(d: seq<Item<V>>, limit: nat): seq<Item<V>>
    decreases |d|
  {
    if |d| <= limit then d else Oldest(d[1..], limit)
  }

  function ArtifactPublished(b: Board, bounds: Bounds, a: Artifact): Board {
    b.(artifacts := Oldest(Without(b.artifacts, a.key) + [Item(a.key, a)], bounds.artifacts))
  }

  /** The first finished work, or the oldest if none is finished. */
  function ToDrop(work: seq<Item<Work>>): (x: Item<Work>)
    requires work != []
  {
    if AnyFinished(work) then FirstFinished(work) else work[0]
  }

  predicate AnyFinished(work: seq<Item<Work>>) {
    work != [] && (work[0].value.status.IsTerminal() || AnyFinished(work[1..]))
  }

  function FirstFinished(work: seq<Item<Work>>): (x: Item<Work>)
    requires AnyFinished(work)
    ensures x.value.status.IsTerminal()
  {
    if work[0].value.status.IsTerminal() then work[0] else FirstFinished(work[1..])
  }

  function WorkKept(work: seq<Item<Work>>, limit: nat): seq<Item<Work>>
    decreases |work|
  {
    if |work| <= limit then work
    else
      var key := ToDrop(work).key;
      DropShrinks(work);
      WorkKept(Without(work, key), limit)
  }

  lemma DropShrinks(work: seq<Item<Work>>)
    requires work != []
    ensures ToDrop(work).key in Keys(work) && |Without(work, ToDrop(work).key)| < |work|
  {
    if AnyFinished(work) {
      FinishedAmong(work);
    }
    WithoutFacts(work, ToDrop(work).key);
  }

  lemma {:induction false} FinishedAmong(work: seq<Item<Work>>)
    requires AnyFinished(work)
    ensures FirstFinished(work).key in Keys(work)
  {
    if !work[0].value.status.IsTerminal() {
      FinishedAmong(work[1..]);
    }
  }

  function WorkPublished(b: Board, bounds: Bounds, w: Work): Board {
    b.(work := WorkKept(With(b.work, w.id, w), bounds.work))
  }

  // ---- what every board keeps ----

  ghost predicate LineOk(key: Key, versions: seq<Fact>, limit: nat) {
    && 0 < |versions| <= limit
    && (forall v :: v in versions ==> v.key == key)
    && (forall i :: 0 <= i < |versions| - 1 ==> versions[i] != versions[i + 1])
  }

  /** Facts and history have the same keys, and the last retained version is the current fact. */
  ghost predicate Agrees(facts: map<Key, Fact>, history: map<Key, seq<Fact>>, limit: nat) {
    && facts.Keys == history.Keys
    && forall k :: k in history ==> LineOk(k, history[k], limit) && facts[k] == history[k][|history[k]| - 1]
  }

  ghost predicate FactsOk(facts: seq<Item<Fact>>, history: seq<Item<seq<Fact>>>, limit: nat) {
    DistinctKeys(facts) && DistinctKeys(history) && Agrees(AsMap(facts), AsMap(history), limit)
  }

  ghost predicate ArtifactsOk(d: seq<Item<Artifact>>, limit: nat) {
    && DistinctKeys(d) && |d| <= limit
    && forall k :: k in AsMap(d) ==> AsMap(d)[k].key == k
  }

  ghost predicate WorkOk(d: seq<Item<Work>>, limit: nat) {
    && DistinctKeys(d) && |d| <= limit
    && forall k :: k in AsMap(d) ==> AsMap(d)[k].id == k
  }

  ghost predicate Inv(b: Board, bounds: Bounds) {
    && FactsOk(b.facts, b.history, bounds.versions) && |b.facts| <= bounds.facts
    && ArtifactsOk(b.artifacts, bounds.artifacts) && WorkOk(b.work, bounds.work)
  }

  lemma VersionsOk(key: Key, versions: seq<Fact>, fact: Fact, limit: nat)
    requires limit > 0 && fact.key == key && (versions == [] || LineOk(key, versions, limit))
    ensures var r := Versions(versions, fact, limit); LineOk(key, r, limit) && r[|r| - 1] == fact
  {
    if versions == [] || versions[|versions| - 1] != fact {
      NewestOk(key, versions + [fact], limit);
    }
  }

  lemma NewestOk(key: Key, longer: seq<Fact>, limit: nat)
    requires limit > 0 && longer != [] && (forall v :: v in longer ==> v.key == key)
    requires forall i :: 0 <= i < |longer| - 1 ==> longer[i] != longer[i + 1]
    ensures LineOk(key, Newest(longer, limit), limit)
  {
    if |longer| > limit {
      var skipped := |longer| - limit;
      var r := longer[skipped..];
      forall v | v in r ensures v.key == key {
        assert v in longer;
      }
      forall i | 0 <= i < |r| - 1 ensures r[i] != r[i + 1] {
        assert r[i] == longer[skipped + i] && r[i + 1] == longer[skipped + i + 1];
      }
    }
  }

  lemma NotedKeeps(b: Board, fact: Fact, limit: nat)
    requires FactsOk(b.facts, b.history, limit) && limit > 0
    ensures FactsOk(Noted(b, fact, limit).facts, Noted(b, fact, limit).history, limit)
  {
    hide LineOk, Versions, Without, With, Get, AsMap, Keys, DistinctKeys;
    var k := fact.key;
    var versions := Get(b.history, k, []);
    GetIs(b.history, k, []);
    VersionsOk(k, versions, fact, limit);
    WithoutFacts(b.facts, k);
    SnocFacts(Without(b.facts, k), k, fact);
    WithFacts(b.history, k, Versions(versions, fact, limit));
    AgreesWith(AsMap(b.facts), AsMap(b.history), limit, k, fact, Versions(versions, fact, limit));
    assert (AsMap(b.facts) - {k})[k := fact] == AsMap(b.facts)[k := fact];
  }

  lemma AgreesWith(facts: map<Key, Fact>, history: map<Key, seq<Fact>>, limit: nat, k: Key, fact: Fact, versions: seq<Fact>)
    requires Agrees(facts, history, limit) && LineOk(k, versions, limit) && versions[|versions| - 1] == fact
    ensures Agrees(facts[k := fact], history[k := versions], limit)
  {
    hide LineOk;
    LineNotEmpty(k, versions, limit);
  }

  lemma LineNotEmpty(key: Key, versions: seq<Fact>, limit: nat)
    requires LineOk(key, versions, limit)
    ensures versions != []
  {
  }

  lemma {:induction false} EvictedKeeps(b: Board, limit: nat, versions: nat)
    requires FactsOk(b.facts, b.history, versions)
    ensures FactsOk(Evicted(b, limit).facts, Evicted(b, limit).history, versions) && |Evicted(b, limit).facts| <= limit
    ensures Evicted(b, limit).artifacts == b.artifacts && Evicted(b, limit).work == b.work
    decreases |b.facts|
  {
    hide LineOk, AsMap, Keys, DistinctKeys, Without;
    if |b.facts| > limit {
      var k := b.facts[0].key;
      DropFirst(b.facts);
      WithoutFacts(b.history, k);
      EvictedKeeps(b.(facts := b.facts[1..], history := Without(b.history, k)), limit, versions);
    }
  }

  /** Publishing a fact keeps facts and history in agreement and within bounds. */
  lemma FactKeeps(b: Board, bounds: Bounds, fact: Fact)
    requires Inv(b, bounds) && bounds.versions > 0
    ensures Inv(FactPublished(b, bounds, fact), bounds)
  {
    hide FactsOk, Noted, Evicted, ArtifactsOk, WorkOk;
    NotedKeeps(b, fact, bounds.versions);
    EvictedKeeps(Noted(b, fact, bounds.versions), bounds.facts, bounds.versions);
    NotedRest(b, fact, bounds.versions);
  }

  lemma NotedRest(b: Board, fact: Fact, limit: nat)
    requires limit > 0
    ensures Noted(b, fact, limit).artifacts == b.artifacts && Noted(b, fact, limit).work == b.work
  {
  }

  lemma {:induction false} OldestKeeps<V>(d: seq<Item<V>>, limit: nat)
    requires DistinctKeys(d)
    ensures DistinctKeys(Oldest(d, limit)) && |Oldest(d, limit)| <= limit
    ensures forall k :: k in AsMap(Oldest(d, limit)) ==> k in AsMap(d) && AsMap(Oldest(d, limit))[k] == AsMap(d)[k]
    decreases |d|
  {
    hide AsMap, Keys, DistinctKeys;
    if |d| > limit {
      DropFirst(d);
      OldestKeeps(d[1..], limit);
    }
  }

  lemma ArtifactKeeps(b: Board, bounds: Bounds, a: Artifact)
    requires Inv(b, bounds)
    ensures Inv(ArtifactPublished(b, bounds, a), bounds)
  {
    hide FactsOk, WorkOk, AsMap, Keys, DistinctKeys, Without, Oldest;
    var d := Without(b.artifacts, a.key);
    WithoutFacts(b.artifacts, a.key);
    SnocFacts(d, a.key, a);
    OldestKeeps(d + [Item(a.key, a)], bounds.artifacts);
  }

  lemma {:induction false} NoneFinished(work: seq<Item<Work>>)
    requires !AnyFinished(work)
    ensures forall k :: k in AsMap(work) ==> !AsMap(work)[k].status.IsTerminal()
  {
    if work != [] {
      NoneFinished(work[1..]);
    }
  }

  lemma {:induction false} FinishedIs(work: seq<Item<Work>>)
    requires AnyFinished(work) && DistinctKeys(work)
    ensures FirstFinished(work).key in AsMap(work) && AsMap(work)[FirstFinished(work).key].status.IsTerminal()
  {
    MapKeys(work[1..]);
    if !work[0].value.status.IsTerminal() {
      FinishedIs(work[1..]);
    }
  }

  /** Some of the work, unchanged. */
  ghost predicate Part(kept: map<Key, Work>, work: map<Key, Work>) {
    forall k :: k in kept ==> k in work && kept[k] == work[k]
  }

  /** If open work is gone, nothing that is left is finished. */
  ghost predicate FinishedFirst(work: map<Key, Work>, kept: map<Key, Work>) {
    forall k, j :: k in work && k !in kept && !work[k].status.IsTerminal() && j in kept ==> !kept[j].status.IsTerminal()
  }

  /** Work is dropped down to the bound, and open work only when no finished work is left. */
  lemma {:induction false} WorkKeptFacts(work: seq<Item<Work>>, limit: nat)
    requires DistinctKeys(work)
    ensures var kept := WorkKept(work, limit);
      && DistinctKeys(kept) && |kept| <= limit && Part(AsMap(kept), AsMap(work)) && FinishedFirst(AsMap(work), AsMap(kept))
    decreases |work|
  {
    hide AsMap, Keys, DistinctKeys, Without, AnyFinished, FirstFinished;
    if |work| > limit {
      DropShrinks(work);
      var key := ToDrop(work).key;
      WithoutFacts(work, key);
      WorkKeptFacts(Without(work, key), limit);
      if AnyFinished(work) {
        FinishedIs(work);
      } else {
        NoneFinished(work);
      }
    }
  }

  lemma WorkKeeps(b: Board, bounds: Bounds, w: Work)
    requires Inv(b, bounds)
    ensures Inv(WorkPublished(b, bounds, w), bounds)
    ensures FinishedFirst(AsMap(b.work)[w.id := w], AsMap(WorkPublished(b, bounds, w).work))
    ensures Part(AsMap(WorkPublished(b, bounds, w).work), AsMap(b.work)[w.id := w])
  {
    hide FactsOk, ArtifactsOk, AsMap, Keys, DistinctKeys, With, WorkKept;
    WithFacts(b.work, w.id, w);
    WorkKeptFacts(With(b.work, w.id, w), bounds.work);
  }

  // ---- runs ----

  datatype Op = PublishFact(fact: Fact) | PublishArtifact(artifact: Artifact) | PublishWork(work: Work)
    | MoveWork(id: Key, status: WorkStatus)         // by whoever holds the work item

  function Moved(work: seq<Item<Work>>, id: Key, status: WorkStatus): (r: seq<Item<Work>>)
    ensures |r| == |work|
    ensures forall i :: 0 <= i < |work| ==> r[i].key == work[i].key && r[i].value.id == work[i].value.id
  {
    if work == [] then []
    else [if work[0].key == id then work[0].(value := work[0].value.(status := status)) else work[0]] + Moved(work[1..], id, status)
  }

  function Apply(b: Board, bounds: Bounds, op: Op): Board
    requires bounds.versions > 0
  {
    match op
    case PublishFact(fact) => FactPublished(b, bounds, fact)
    case PublishArtifact(a) => ArtifactPublished(b, bounds, a)
    case PublishWork(w) => WorkPublished(b, bounds, w)
    case MoveWork(id, status) => b.(work := Moved(b.work, id, status))
  }

  function Run(b: Board, bounds: Bounds, ops: seq<Op>): Board
    requires bounds.versions > 0
    decreases |ops|
  {
    if ops == [] then b else Run(Apply(b, bounds, ops[0]), bounds, ops[1..])
  }

  lemma {:induction false} MovedFacts(work: seq<Item<Work>>, id: Key, status: WorkStatus)
    requires DistinctKeys(work)
    ensures Keys(Moved(work, id, status)) == Keys(work) && DistinctKeys(Moved(work, id, status))
    ensures AsMap(Moved(work, id, status)).Keys == AsMap(work).Keys
    ensures forall k :: k in AsMap(work) ==> AsMap(Moved(work, id, status))[k].id == AsMap(work)[k].id
  {
    if work != [] {
      MovedFacts(work[1..], id, status);
      var head := if work[0].key == id then work[0].(value := work[0].value.(status := status)) else work[0];
      Cons(head, Moved(work[1..], id, status));
      Cons(work[0], work[1..]);
      assert work == [work[0]] + work[1..];
    }
  }

  lemma MoveKeeps(b: Board, bounds: Bounds, id: Key, status: WorkStatus)
    requires Inv(b, bounds)
    ensures Inv(b.(work := Moved(b.work, id, status)), bounds)
  {
    hide FactsOk, ArtifactsOk;
    MovedFacts(b.work, id, status);
  }

  lemma {:induction false} RunKeeps(b: Board, bounds: Bounds, ops: seq<Op>)
    requires Inv(b, bounds) && bounds.versions > 0
    ensures Inv(Run(b, bounds, ops), bounds)
    decreases |ops|
  {
    hide Inv, FactPublished, ArtifactPublished, WorkPublished;
    if ops != [] {
      match ops[0] {
        case PublishFact(fact) => FactKeeps(b, bounds, fact);
        case PublishArtifact(a) => ArtifactKeeps(b, bounds, a);
        case PublishWork(w) => WorkKeeps(b, bounds, w);
        case MoveWork(id, status) => MoveKeeps(b, bounds, id, status);
      }
      RunKeeps(Apply(b, bounds, ops[0]), bounds, ops[1..]);
    }
  }

  /** In every reachable board facts and history have the same keys, the last retained
      version is the current fact, adjacent versions differ, and all bounds hold. */
  lemma EveryBoardAgrees(bounds: Bounds, ops: seq<Op>)
    requires bounds.versions > 0
    ensures var b := Run(EMPTY, bounds, ops);
      && Agrees(AsMap(b.facts), AsMap(b.history), bounds.versions)
      && |b.facts| <= bounds.facts && |b.history| == |b.facts| && |b.artifacts| <= bounds.artifacts && |b.work| <= bounds.work
  {
    hide Run, Agrees;
    EmptyOk(bounds);
    RunKeeps(EMPTY, bounds, ops);
    var b := Run(EMPTY, bounds, ops);
    SameKeys(b, bounds.versions);
  }

  lemma EmptyOk(bounds: Bounds)
    ensures Inv(EMPTY, bounds)
  {
  }

  lemma SameKeys(b: Board, limit: nat)
    requires FactsOk(b.facts, b.history, limit)
    ensures |b.history| == |b.facts|
  {
    MapKeys(b.facts);
    MapKeys(b.history);
    SizeIs(b.facts);
    SizeIs(b.history);
  }

  // ---- dump and load ----

  datatype Dump = Dump(versions: seq<Fact>, artifacts: seq<Artifact>, work: seq<Work>)

  function AllVersions(history: seq<Item<seq<Fact>>>): seq<Fact> {
    if history == [] then [] else history[0].value + AllVersions(history[1..])
  }

  function Values<V>(d: seq<Item<V>>): (r: seq<V>)
    ensures |r| == |d| && forall i :: 0 <= i < |d| ==> r[i] == d[i].value
  {
    if d == [] then [] else [d[0].value] + Values(d[1..])
  }

  function DumpOf(b: Board): Dump {
    Dump(AllVersions(b.history), Values(b.artifacts), Values(b.work))
  }

  function Facts(b: Board, bounds: Bounds, facts: seq<Fact>): Board
    requires bounds.versions > 0
    decreases |facts|
  {
    if facts == [] then b else Facts(FactPublished(b, bounds, facts[0]), bounds, facts[1..])
  }

  function Artifacts(b: Board, bounds: Bounds, artifacts: seq<Artifact>): Board
    decreases |artifacts|
  {
    if artifacts == [] then b else Artifacts(ArtifactPublished(b, bounds, artifacts[0]), bounds, artifacts[1..])
  }

  function Works(b: Board, bounds: Bounds, work: seq<Work>): Board
    decreases |work|
  {
    if work == [] then b else Works(WorkPublished(b, bounds, work[0]), bounds, work[1..])
  }

  /** The board `load` makes of a dump: everything is published again. */
  function Loaded(bounds: Bounds, dump: Dump): Board
    requires bounds.versions > 0
  {
    Works(Artifacts(Facts(EMPTY, bounds, dump.versions), bounds, dump.artifacts), bounds, dump.work)
  }

  /** The current facts a history stands for, in its order. */
  function Currents(history: seq<Item<seq<Fact>>>): (r: seq<Item<Fact>>)
    requires forall i :: 0 <= i < |history| ==> history[i].value != []
    ensures |r| == |history|
    ensures forall i :: 0 <= i < |history| ==> r[i] == Item(history[i].key, history[i].value[|history[i].value| - 1])
  {
    if history == [] then []
    else [Item(history[0].key, history[0].value[|history[0].value| - 1])] + Currents(history[1..])
  }

  lemma {:induction false} LastWithout<V>(d: seq<Item<V>>, last: Item<V>, v: V)
    requires last.key !in Keys(d)
    ensures Without(d + [last], last.key) == d
    ensures With(d + [last], last.key, v) == d + [Item(last.key, v)]
    ensures Get(d + [last], last.key, v) == last.value
  {
    var all := d + [last];
    if d == [] {
      assert all == [last] && all[1..] == [];
      assert [Item(last.key, v)] + all[1..] == [Item(last.key, v)];
    } else {
      assert all[1..] == d[1..] + [last] && all[0] == d[0];
      LastWithout(d[1..], last, v);
      assert [d[0]] + (d[1..] + [Item(last.key, v)]) == d + [Item(last.key, v)];
    }
  }

  /** Publishing one more version of the last key of the board. */
  lemma NextVersion(b: Board, bounds: Bounds, facts: seq<Item<Fact>>, history: seq<Item<seq<Fact>>>, key: Key, versions: seq<Fact>, fact: Fact)
    requires versions != []
    requires b.facts == facts + [Item(key, versions[|versions| - 1])] && b.history == history + [Item(key, versions)]
    requires key !in Keys(facts) && key !in Keys(history) && fact.key == key
    requires versions[|versions| - 1] != fact && |versions| < bounds.versions && |facts| < bounds.facts
    ensures FactPublished(b, bounds, fact) ==
      b.(facts := facts + [Item(key, fact)], history := history + [Item(key, versions + [fact])])
  {
    hide Keys, With, Without, Get;
    LastWithout(facts, Item(key, versions[|versions| - 1]), fact);
    LastWithout(history, Item(key, versions), versions + [fact]);
    LastWithout(history, Item(key, versions), []);
    assert Versions(versions, fact, bounds.versions) == versions + [fact];
  }

  /** Publishing the first version of a new key. */
  lemma FirstVersion(b: Board, bounds: Bounds, fact: Fact)
    requires fact.key !in Keys(b.facts) && fact.key !in Keys(b.history) && DistinctKeys(b.history)
    requires bounds.versions > 0 && |b.facts| < bounds.facts
    ensures FactPublished(b, bounds, fact) ==
      b.(facts := b.facts + [Item(fact.key, fact)], history := b.history + [Item(fact.key, [fact])])
  {
    hide Keys, With, Without, Get, DistinctKeys, AsMap;
    WithoutFacts(b.facts, fact.key);
    WithFacts(b.history, fact.key, [fact]);
    GetIs(b.history, fact.key, []);
    MapKeys(b.history);
    assert [] + [fact] == [fact] && Versions([], fact, bounds.versions) == [fact];
  }

  lemma {:induction false} MoreVersions(b: Board, bounds: Bounds, facts: seq<Item<Fact>>, history: seq<Item<seq<Fact>>>, key: Key, done: seq<Fact>, more: seq<Fact>)
    requires done != [] && b.facts == facts + [Item(key, done[|done| - 1])] && b.history == history + [Item(key, done)]
    requires key !in Keys(facts) && key !in Keys(history)
    requires LineOk(key, done + more, bounds.versions) && |facts| < bounds.facts
    ensures Facts(b, bounds, more) == b.(facts := facts + [Item(key, (done + more)[|done + more| - 1])], history := history + [Item(key, done + more)])
    decreases |more|
  {
    hide FactPublished, Keys;
    if more == [] {
      assert done + [] == done;
    } else {
      var all := done + more;
      assert all[|done| - 1] == done[|done| - 1] && all[|done|] == more[0];
      assert all[|done|] in all && all[|done| - 1] != all[|done| - 1 + 1];
      NextVersion(b, bounds, facts, history, key, done, more[0]);
      assert done + [more[0]] + more[1..] == all;
      MoreVersions(FactPublished(b, bounds, more[0]), bounds, facts, history, key, done + [more[0]], more[1..]);
    }
  }

  lemma {:induction false} FactsAppend(b: Board, bounds: Bounds, x: seq<Fact>, y: seq<Fact>)
    requires bounds.versions > 0
    ensures Facts(b, bounds, x + y) == Facts(Facts(b, bounds, x), bounds, y)
    decreases |x|
  {
    hide FactPublished;
    if x == [] {
      assert x + y == y;
    } else {
      assert (x + y)[1..] == x[1..] + y && (x + y)[0] == x[0];
      FactsAppend(FactPublished(b, bounds, x[0]), bounds, x[1..], y);
    }
  }

  lemma OneLine(b: Board, bounds: Bounds, line: Item<seq<Fact>>)
    requires line.key !in Keys(b.facts) && line.key !in Keys(b.history) && DistinctKeys(b.history)
    requires LineOk(line.key, line.value, bounds.versions) && |b.facts| < bounds.facts
    ensures Facts(b, bounds, line.value) ==
      b.(facts := b.facts + [Item(line.key, line.value[|line.value| - 1])], history := b.history + [line])
  {
    hide FactPublished, Keys, DistinctKeys;
    var first, more := line.value[0], line.value[1..];
    assert first in line.value;
    assert line.value == [first] + more;
    FirstVersion(b, bounds, first);
    OneMoreFact(b, bounds, first, more);
    MoreVersions(FactPublished(b, bounds, first), bounds, b.facts, b.history, line.key, [first], more);
  }

  lemma OneMoreFact(b: Board, bounds: Bounds, first: Fact, more: seq<Fact>)
    requires bounds.versions > 0
    ensures Facts(b, bounds, [first] + more) == Facts(FactPublished(b, bounds, first), bounds, more)
  {
    hide FactPublished;
    assert ([first] + more)[1..] == more;
  }

  ghost predicate LinesOk(history: seq<Item<seq<Fact>>>, limit: nat) {
    forall i :: 0 <= i < |history| ==> history[i].value != [] && LineOk(history[i].key, history[i].value, limit)
  }

  /** The history replayed onto a board of the lines before it. */
  lemma {:induction false} LinesReplayed(b: Board, bounds: Bounds, before: seq<Item<seq<Fact>>>, rest: seq<Item<seq<Fact>>>)
    requires DistinctKeys(before + rest) && |before + rest| <= bounds.facts && bounds.versions > 0
    requires LinesOk(before + rest, bounds.versions) && LinesOk(before, bounds.versions)
    requires b.history == before && b.facts == Currents(before)
    ensures Facts(b, bounds, AllVersions(rest)) == b.(facts := Currents(before + rest), history := before + rest)
    decreases |rest|
  {
    hide FactPublished, LineOk, Keys, Facts, DistinctKeys;
    if rest == [] {
      assert before + rest == before;
      NoFacts(b, bounds);
    } else {
      var line := rest[0];
      var all := before + rest;
      assert all[|before|] == line && before + [line] + rest[1..] == all;
      LineIsNew(before, line, rest[1..]);
      CurrentKeys(before, bounds.versions);
      OneLine(b, bounds, line);
      var next := Facts(b, bounds, line.value);
      CurrentsSnoc(before, line, bounds.versions);
      LinesReplayed(next, bounds, before + [line], rest[1..]);
      FactsAppend(b, bounds, line.value, AllVersions(rest[1..]));
    }
  }

  lemma LineIsNew<V>(before: seq<Item<V>>, x: Item<V>, rest: seq<Item<V>>)
    requires DistinctKeys(before + [x] + rest)
    ensures x.key !in Keys(before) && DistinctKeys(before)
  {
    AppendFacts(before + [x], rest);
    AppendFacts(before, [x]);
  }

  lemma {:induction false} CurrentKeys(history: seq<Item<seq<Fact>>>, limit: nat)
    requires LinesOk(history, limit)
    ensures Keys(Currents(history)) == Keys(history)
  {
    hide LineOk;
    if history != [] {
      CurrentKeys(history[1..], limit);
      assert Currents(history)[1..] == Currents(history[1..]);
    }
  }

  lemma NoFacts(b: Board, bounds: Bounds)
    requires bounds.versions > 0
    ensures Facts(b, bounds, []) == b
  {
  }

  lemma CurrentsSnoc(before: seq<Item<seq<Fact>>>, line: Item<seq<Fact>>, limit: nat)
    requires LinesOk(before, limit) && LinesOk(before + [line], limit) && line.value != []
    ensures Currents(before + [line]) == Currents(before) + [Item(line.key, line.value[|line.value| - 1])]
  {
    hide LineOk;
    var a, c := Currents(before + [line]), Currents(before) + [Item(line.key, line.value[|line.value| - 1])];
    forall i | 0 <= i < |a| ensures a[i] == c[i] {
      assert (before + [line])[i] == if i < |before| then before[i] else line;
    }
  }

  lemma {:induction false} ArtifactsReplayed(b: Board, bounds: Bounds, before: seq<Item<Artifact>>, rest: seq<Item<Artifact>>)
    requires DistinctKeys(before + rest) && |before + rest| <= bounds.artifacts && b.artifacts == before
    requires forall i :: 0 <= i < |rest| ==> rest[i].value.key == rest[i].key
    ensures Artifacts(b, bounds, Values(rest)) == b.(artifacts := before + rest)
    decreases |rest|
  {
    hide Keys, DistinctKeys, Without;
    if rest == [] {
      assert before + rest == before;
    } else {
      var x := rest[0];
      assert before + [x] + rest[1..] == before + rest;
      LineIsNew(before, x, rest[1..]);
      WithoutFacts(before, x.key);
      assert Item(x.value.key, x.value) == x;
      ArtifactsReplayed(ArtifactPublished(b, bounds, x.value), bounds, before + [x], rest[1..]);
    }
  }

  lemma {:induction false} WorkReplayed(b: Board, bounds: Bounds, before: seq<Item<Work>>, rest: seq<Item<Work>>)
    requires DistinctKeys(before + rest) && |before + rest| <= bounds.work && b.work == before
    requires forall i :: 0 <= i < |rest| ==> rest[i].value.id == rest[i].key
    ensures Works(b, bounds, Values(rest)) == b.(work := before + rest)
    decreases |rest|
  {
    hide Keys, DistinctKeys, With, ToDrop;
    if rest == [] {
      assert before + rest == before;
    } else {
      var x := rest[0];
      assert before + [x] + rest[1..] == before + rest;
      LineIsNew(before, x, rest[1..]);
      WithFacts(before, x.key, x.value);
      assert Item(x.value.id, x.value) == x;
      WorkReplayed(WorkPublished(b, bounds, x.value), bounds, before + [x], rest[1..]);
    }
  }

  lemma EntriesOk(b: Board, bounds: Bounds)
    requires Inv(b, bounds)
    ensures LinesOk(b.history, bounds.versions)
    ensures forall i :: 0 <= i < |b.artifacts| ==> b.artifacts[i].value.key == b.artifacts[i].key
    ensures forall i :: 0 <= i < |b.work| ==> b.work[i].value.id == b.work[i].key
  {
    hide Keys, DistinctKeys, AsMap;
    forall i | 0 <= i < |b.history| ensures b.history[i].value != [] && LineOk(b.history[i].key, b.history[i].value, bounds.versions) {
      EntryOf(b.history, i);
    }
    forall i | 0 <= i < |b.artifacts| ensures b.artifacts[i].value.key == b.artifacts[i].key {
      EntryOf(b.artifacts, i);
    }
    forall i | 0 <= i < |b.work| ensures b.work[i].value.id == b.work[i].key {
      EntryOf(b.work, i);
    }
  }

  /** Loading a dump into a board with the same bounds restores the same facts and versions
      as maps, and history, artifacts and work even in their order. */
  lemma LoadDump(b: Board, bounds: Bounds)
    requires Inv(b, bounds) && bounds.versions > 0
    ensures var r := Loaded(bounds, DumpOf(b));
      && AsMap(r.facts) == AsMap(b.facts) && AsMap(r.history) == AsMap(b.history)
      && r.history == b.history && r.artifacts == b.artifacts && r.work == b.work
  {
    hide Agrees, LineOk, AllVersions, Facts, Artifacts, Works, Keys, DistinctKeys, AsMap, LinesOk;
    EntriesOk(b, bounds);
    SameKeys(b, bounds.versions);
    assert [] + b.history == b.history && [] + b.artifacts == b.artifacts && [] + b.work == b.work;
    NoLines(bounds.versions);
    LinesReplayed(EMPTY, bounds, [], b.history);
    var r1 := Facts(EMPTY, bounds, AllVersions(b.history));
    ArtifactsReplayed(r1, bounds, [], b.artifacts);
    var r2 := Artifacts(r1, bounds, Values(b.artifacts));
    WorkReplayed(r2, bounds, [], b.work);
    CurrentsAre(b, bounds.versions);
  }

  lemma NoLines(limit: nat)
    ensures LinesOk([], limit) && Currents([]) == []
  {
  }

  lemma CurrentsAre(b: Board, limit: nat)
    requires FactsOk(b.facts, b.history, limit) && LinesOk(b.history, limit)
    ensures AsMap(Currents(b.history)) == AsMap(b.facts)
  {
    hide LineOk, AsMap, Keys, DistinctKeys;
    CurrentsMap(b.history, limit);
  }

  lemma {:induction false} CurrentsMap(history: seq<Item<seq<Fact>>>, limit: nat)
    requires LinesOk(history, limit)
    ensures AsMap(Currents(history)).Keys == AsMap(history).Keys
    ensures forall k :: k in AsMap(history) ==> AsMap(history)[k] != [] && AsMap(Currents(history))[k] == AsMap(history)[k][|AsMap(history)[k]| - 1]
  {
    hide LineOk;
    if history != [] {
      CurrentsMap(history[1..], limit);
      assert Currents(history)[1..] == Currents(history[1..]);
    }
  }

  // ---- the object ----

  class Blackboard {
    const bounds: Bounds
    var facts: seq<Item<Fact>>
    var factHistory: seq<Item<seq<Fact>>>
    var artifacts: seq<Item<Artifact>>
    var workItems: seq<Item<Work>>

    function View(): Board
      reads this
    {
      Board(facts, factHistory, artifacts, workItems)
    }

    ghost predicate Valid()
      reads this
    {
      bounds.versions > 0 && Inv(View(), bounds)
    }

    constructor (facts: nat, artifacts: nat, work: nat, versions: nat)
      ensures Valid() && View() == EMPTY
      ensures bounds == Bounds(facts, artifacts, work, if versions < 2 then 2 else versions)
    {
      bounds := Bounds(facts, artifacts, work, if versions < 2 then 2 else versions);
      this.facts, factHistory, this.artifacts, workItems := [], [], [], [];
      new;
      EmptyOk(bounds);
    }

    method PublishFact(fact: Fact)
      requires Valid()
      modifies this`facts, this`factHistory
      ensures Valid() && View() == FactPublished(old(View()), bounds, fact)
    {
      hide Inv, Without, With, Get;
      FactKeeps(View(), bounds, fact);
      var versions := Get(factHistory, fact.key, []);
      factHistory := With(factHistory, fact.key, versions);
      if versions == [] || versions[|versions| - 1] != fact {
        versions := versions + [fact];
        factHistory := With(factHistory, fact.key, Newest(versions, bounds.versions));
      }
      SetTwice(old(factHistory), fact.key, Get(old(factHistory), fact.key, []), Newest(versions, bounds.versions));
      facts := Without(facts, fact.key);
      facts := facts + [Item(fact.key, fact)];
      while |facts| > bounds.facts
        invariant artifacts == old(artifacts) && workItems == old(workItems)
        invariant Evicted(View(), bounds.facts) == Evicted(Noted(old(View()), fact, bounds.versions), bounds.facts)
        decreases |facts|
      {
        var expired := facts[0].key;
        facts := facts[1..];
        factHistory := Without(factHistory, expired);
      }
    }

    method PublishArtifact(artifact: Artifact)
      requires Valid()
      modifies this`artifacts
      ensures Valid() && View() == ArtifactPublished(old(View()), bounds, artifact)
    {
      hide Inv, Without;
      ArtifactKeeps(View(), bounds, artifact);
      artifacts := Without(artifacts, artifact.key);
      artifacts := artifacts + [Item(artifact.key, artifact)];
      while |artifacts| > bounds.artifacts
        invariant Oldest(artifacts, bounds.artifacts) == Oldest(Without(old(artifacts), artifact.key) + [Item(artifact.key, artifact)], bounds.artifacts)
        decreases |artifacts|
      {
        artifacts := artifacts[1..];
      }
    }

    method PublishWork(item: Work)
      requires Valid()
      modifies this`workItems
      ensures Valid() && View() == WorkPublished(old(View()), bounds, item)
    {
      hide Inv, With, Without, ToDrop;
      WorkKeeps(View(), bounds, item);
      workItems := With(workItems, item.id, item);
      while |workItems| > bounds.work
        invariant WorkKept(workItems, bounds.work) == WorkKept(With(old(workItems), item.id, item), bounds.work)
        decreases |workItems|
      {
        DropShrinks(workItems);
        var finished := ToDrop(workItems).key;
        workItems := Without(workItems, finished);
      }
    }

    method DumpAll() returns (dump: Dump)
      ensures dump == DumpOf(View())
    {
      hide AllVersions;
      var versions: seq<Fact> := [];
      var k := 0;
      assert factHistory[0..] == factHistory;
      while k < |factHistory|
        invariant k <= |factHistory|
        invariant versions + AllVersions(factHistory[k..]) == AllVersions(factHistory)
      {
        LineFirst(factHistory[k..]);
        assert factHistory[k..][1..] == factHistory[k + 1..];
        versions := versions + factHistory[k].value;
        k := k + 1;
      }
      LineFirst(factHistory[k..]);
      assert factHistory[k..] == [] && versions + [] == versions;
      dump := Dump(versions, Values(artifacts), Values(workItems));
    }

    /** `load`: replaces everything by what the dump holds. */
    method Load(dump: Dump)
      requires Valid()
      modifies this
      ensures Valid() && View() == Loaded(bounds, dump)
    {
      hide Inv, FactPublished, ArtifactPublished, WorkPublished;
      facts, factHistory, artifacts, workItems := [], [], [], [];
      EmptyOk(bounds);
      var k := 0;
      assert dump.versions[0..] == dump.versions && dump.artifacts[0..] == dump.artifacts && dump.work[0..] == dump.work;
      while k < |dump.versions|
        invariant k <= |dump.versions| && Valid()
        invariant Facts(View(), bounds, dump.versions[k..]) == Facts(EMPTY, bounds, dump.versions)
      {
        assert dump.versions[k..][1..] == dump.versions[k + 1..];
        PublishFact(dump.versions[k]);
        k := k + 1;
      }
      k := 0;
      while k < |dump.artifacts|
        invariant k <= |dump.artifacts| && Valid()
        invariant Artifacts(View(), bounds, dump.artifacts[k..]) == Artifacts(Facts(EMPTY, bounds, dump.versions), bounds, dump.artifacts)
      {
        assert dump.artifacts[k..][1..] == dump.artifacts[k + 1..];
        PublishArtifact(dump.artifacts[k]);
        k := k + 1;
      }
      k := 0;
      while k < |dump.work|
        invariant k <= |dump.work| && Valid()
        invariant Works(View(), bounds, dump.work[k..]) == Loaded(bounds, dump)
      {
        assert dump.work[k..][1..] == dump.work[k + 1..];
        PublishWork(dump.work[k]);
        k := k + 1;
      }
    }
  }

  lemma LineFirst(history: seq<Item<seq<Fact>>>)
    ensures AllVersions(history) == if history == [] then [] else history[0].value + AllVersions(history[1..])
  {
  }

  lemma {:induction false} SetTwice<V>(d: seq<Item<V>>, key: Key, v: V, w: V)
    ensures With(With(d, key, v), key, w) == With(d, key, w)
  {
    if d != [] && d[0].key != key {
      SetTwice(d[1..], key, v, w);
    }
  }
}
