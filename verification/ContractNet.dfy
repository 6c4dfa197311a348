/** Bids and their award. */
module ContractNets {
  // Who is asked to do a piece of work: capability matching, bids and the award
  // (src/evomesh/coordination.py).

  import opened Sorting

  type AgentId = string
  type Capability = string

  /** An agent as the registry knows it; `sortName` is its name in lower case. */
  datatype Agent = Agent(id: AgentId, sortName: string, capabilities: set<Capability>)

  datatype WorkStatus = Pending | Blocked | Offered | Assigned | Active | Completed | Failed | NeedsHuman | Cancelled

  /** Work on someone's list, as far as it counts as load. */
  datatype Load = Load(assignee: AgentId, status: WorkStatus)

  /** Past work: by agent, type and capabilities, or by agent alone. */
  datatype Record = ByWork(agent: AgentId, kind: string, capabilityKey: string) | ByAgent(agent: AgentId)

  datatype Tally = Tally(successes: nat, failures: nat)

  /** What the item asks for. */
  datatype Ask = Ask(kind: string, required: set<Capability>, capabilityKey: string)

  datatype Context = Context(present: set<AgentId>, active: seq<Load>, history: map<Record, Tally>, excluded: set<AgentId>)

  datatype Bid = Bid(agent: AgentId, capabilityMatch: real, load: nat, successRate: real, score: real)

  // ---- candidates ----

  predicate AgentBefore(a: Agent, b: Agent) {
    Before(a.sortName, b.sortName) || (a.sortName == b.sortName && Before(a.id, b.id))
  }

  function Able(agents: seq<Agent>, required: set<Capability>): seq<Agent> {
    if agents == [] then []
    else if required <= agents[0].capabilities then [agents[0]] + Able(agents[1..], required)
    else Able(agents[1..], required)
  }

  /** `CapabilityRegistry.candidates`. */
  function Candidates(agents: seq<Agent>, required: set<Capability>): seq<Agent> {
    Sorted(AgentBefore, Able(agents, required))
  }

  // ---- bids ----

  predicate Counts(work: Load, id: AgentId) {
    work.assignee == id && (work.status.Assigned? || work.status.Active?)
  }

  function LoadOf(active: seq<Load>, id: AgentId): nat {
    if active == [] then 0 else (if Counts(active[0], id) then 1 else 0) + LoadOf(active[1..], id)
  }

  function TallyOf(ask: Ask, history: map<Record, Tally>, id: AgentId): Tally {
    var own := ByWork(id, ask.kind, ask.capabilityKey);
    if own in history then history[own]
    else if ByAgent(id) in history then history[ByAgent(id)]
    else Tally(0, 0)
  }

  function Match(ask: Ask, agent: Agent): real {
    if ask.required == {} then 1.0 else |ask.required * agent.capabilities| as real / |ask.required| as real
  }

  function Rate(t: Tally): real {
    if t.successes + t.failures == 0 then 0.5 else t.successes as real / (t.successes + t.failures) as real
  }

  function BidOf(ask: Ask, context: Context, agent: Agent): Bid {
    var fit, load, rate := Match(ask, agent), LoadOf(context.active, agent.id), Rate(TallyOf(ask, context.history, agent.id));
    var availability := if agent.id in context.present then 0.1 else 0.0;
    Bid(agent.id, fit, load, rate, fit * 0.65 + rate * 0.25 + availability - load as real * 0.1)
  }

  function Offers(ask: Ask, context: Context, agents: seq<Agent>): seq<Bid> {
    if agents == [] then []
    else
      var before := Offers(ask, context, agents[..|agents| - 1]);
      if agents[|agents| - 1].id in context.excluded then before else before + [BidOf(ask, context, agents[|agents| - 1])]
  }

  predicate BidBefore(a: Bid, b: Bid) {
    a.score > b.score || (a.score == b.score && Before(a.agent, b.agent))
  }

  /** `ContractNet.bids` before the deadline. */
  function Bids(ask: Ask, context: Context, agents: seq<Agent>): seq<Bid> {
    Sorted(BidBefore, Offers(ask, context, Candidates(agents, ask.required)))
  }

  // ---- the registry holds every id once ----

  ghost predicate DistinctIds(agents: seq<Agent>) {
    forall i, j :: 0 <= i < j < |agents| ==> agents[i].id != agents[j].id
  }

  lemma {:induction false} AbleFacts(agents: seq<Agent>, required: set<Capability>)
    requires DistinctIds(agents)
    ensures forall a :: a in Able(agents, required) <==> a in agents && required <= a.capabilities
    ensures DistinctIds(Able(agents, required))
  {
    if agents != [] {
      AbleFacts(agents[1..], required);
      assert agents == [agents[0]] + agents[1..];
      var rest := Able(agents[1..], required);
      forall i | 0 <= i < |rest| ensures rest[i].id != agents[0].id {
        assert rest[i] in agents[1..];
      }
    }
  }

  lemma DistinctIsOnce(agents: seq<Agent>)
    requires DistinctIds(agents)
    ensures Once(agents)
    ensures forall a, b :: a in agents && b in agents && a.id == b.id ==> a == b
  {
    forall i, j | 0 <= i < j < |agents| ensures agents[i] != agents[j] {
      assert agents[i].id != agents[j].id;
    }
  }

  lemma AgentsOrder(agents: seq<Agent>)
    requires DistinctIds(agents)
    ensures Orders(AgentBefore, Elements(agents))
  {
    DistinctIsOnce(agents);
    forall a, b, c | a in agents && b in agents && c in agents
      ensures !AgentBefore(a, a) && (a != b ==> AgentBefore(a, b) || AgentBefore(b, a))
      ensures AgentBefore(a, b) && AgentBefore(b, c) ==> AgentBefore(a, c)
    {
      AgentBeforeOrders(a, b, c);
    }
  }

  lemma AgentBeforeOrders(a: Agent, b: Agent, c: Agent)
    ensures !AgentBefore(a, a) && (a.id != b.id ==> AgentBefore(a, b) || AgentBefore(b, a))
    ensures AgentBefore(a, b) && AgentBefore(b, c) ==> AgentBefore(a, c)
  {
    hide Before;
    BeforeOrders(a.sortName, b.sortName, c.sortName);
    BeforeOrders(a.id, b.id, c.id);
  }

  /** The candidates are exactly the registered agents that can do it, in one order. */
  lemma CandidatesFacts(agents: seq<Agent>, required: set<Capability>)
    requires DistinctIds(agents)
    ensures forall a :: a in Candidates(agents, required) <==> a in agents && required <= a.capabilities
    ensures DistinctIds(Candidates(agents, required))
    ensures InOrder(AgentBefore, Candidates(agents, required))
  {
    hide Able, Sorted, AgentBefore, DistinctIds, Orders, InOrder;
    var able := Able(agents, required);
    AbleFacts(agents, required);
    DistinctIsOnce(able);
    AgentsOrder(able);
    SortSorts(AgentBefore, able);
    SortedDistinctIds(able, Sorted(AgentBefore, able));
  }

  lemma SortedDistinctIds(able: seq<Agent>, sorted: seq<Agent>)
    requires InOrder(AgentBefore, sorted) && DistinctIds(able) && forall y :: y in sorted <==> y in able
    ensures DistinctIds(sorted)
  {
    DistinctIsOnce(able);
    forall i, j | 0 <= i < j < |sorted| ensures sorted[i].id != sorted[j].id {
      assert sorted[i] in sorted && sorted[j] in sorted;
      AgentBeforeOrders(sorted[i], sorted[j], sorted[i]);
      assert AgentBefore(sorted[i], sorted[j]);
    }
  }

  lemma CandidatesForgetOrder(a: seq<Agent>, b: seq<Agent>, required: set<Capability>)
    requires DistinctIds(a) && DistinctIds(b) && forall x :: x in a <==> x in b
    ensures Candidates(a, required) == Candidates(b, required)
  {
    hide Able, Sorted, AgentBefore, DistinctIds, Orders;
    AbleFacts(a, required);
    AbleFacts(b, required);
    DistinctIsOnce(Able(a, required));
    DistinctIsOnce(Able(b, required));
    AgentsOrder(Able(a, required));
    SortForgetsOrder(AgentBefore, Able(a, required), Able(b, required));
  }

  // ---- load ----

  lemma {:induction false} LoadCounts(active: seq<Load>, id: AgentId)
    ensures LoadOf(active, id) == multiset(active)[Load(id, Assigned)] + multiset(active)[Load(id, Active)]
  {
    if active != [] {
      LoadCounts(active[1..], id);
      assert active == [active[0]] + active[1..];
    }
  }

  lemma {:induction false} OffersSame(ask: Ask, c: Context, d: Context, agents: seq<Agent>)
    requires d == c.(active := d.active) && multiset(c.active) == multiset(d.active)
    ensures Offers(ask, c, agents) == Offers(ask, d, agents)
  {
    if agents != [] {
      var last := agents[|agents| - 1];
      OffersSame(ask, c, d, agents[..|agents| - 1]);
      LoadCounts(c.active, last.id);
      LoadCounts(d.active, last.id);
    }
  }

  /** The order agents registered in, and the order active work is listed in, change
      neither the bids nor the winner. */
  lemma OrderIndependent(ask: Ask, c: Context, d: Context, a: seq<Agent>, b: seq<Agent>)
    requires DistinctIds(a) && DistinctIds(b) && forall x :: x in a <==> x in b
    requires d == c.(active := d.active) && multiset(c.active) == multiset(d.active)
    ensures Bids(ask, c, a) == Bids(ask, d, b)
  {
    hide Candidates, Offers, Sorted, BidBefore;
    CandidatesForgetOrder(a, b, ask.required);
    OffersSame(ask, c, d, Candidates(a, ask.required));
  }

  // ---- the winner ----

  lemma {:induction false} OffersFacts(ask: Ask, context: Context, agents: seq<Agent>)
    requires DistinctIds(agents)
    ensures forall bid :: bid in Offers(ask, context, agents) <==>
      exists a :: a in agents && a.id !in context.excluded && bid == BidOf(ask, context, a)
    ensures forall i, j :: 0 <= i < j < |Offers(ask, context, agents)| ==> Offers(ask, context, agents)[i].agent != Offers(ask, context, agents)[j].agent
  {
    hide BidOf;
    if agents != [] {
      var front, last := agents[..|agents| - 1], agents[|agents| - 1];
      assert agents == front + [last];
      OffersFacts(ask, context, front);
      var before := Offers(ask, context, front);
      BidNames(ask, context);
      forall i | 0 <= i < |before| ensures before[i].agent != last.id {
        assert before[i] in before;
        var a :| a in front && a.id !in context.excluded && before[i] == BidOf(ask, context, a);
        var k :| 0 <= k < |front| && front[k] == a;
        assert agents[k].id != agents[|agents| - 1].id;
      }
    }
  }

  lemma BidNames(ask: Ask, context: Context)
    ensures forall a: Agent :: BidOf(ask, context, a).agent == a.id
  {
  }

  lemma BidsOrder(bids: seq<Bid>)
    requires forall i, j :: 0 <= i < j < |bids| ==> bids[i].agent != bids[j].agent
    ensures Once(bids) && Orders(BidBefore, Elements(bids))
  {
    forall a, b, c | a in bids && b in bids && c in bids
      ensures !BidBefore(a, a) && (a != b ==> BidBefore(a, b) || BidBefore(b, a))
      ensures BidBefore(a, b) && BidBefore(b, c) ==> BidBefore(a, c)
    {
      var i :| 0 <= i < |bids| && bids[i] == a;
      var j :| 0 <= j < |bids| && bids[j] == b;
      assert a != b ==> a.agent != b.agent;
      BidBeforeOrders(a, b, c);
    }
  }

  lemma BidBeforeOrders(a: Bid, b: Bid, c: Bid)
    ensures !BidBefore(a, a) && (a.agent != b.agent ==> BidBefore(a, b) || BidBefore(b, a))
    ensures BidBefore(a, b) && BidBefore(b, c) ==> BidBefore(a, c)
  {
    hide Before;
    BeforeOrders(a.agent, b.agent, c.agent);
  }

  ghost predicate Eligible(ask: Ask, context: Context, agents: seq<Agent>, a: Agent) {
    a in agents && ask.required <= a.capabilities && a.id !in context.excluded
  }

  /** The bids are exactly those of the eligible agents, best first. */
  lemma BidsFacts(ask: Ask, context: Context, agents: seq<Agent>)
    requires DistinctIds(agents)
    ensures forall bid :: bid in Bids(ask, context, agents) <==>
      exists a :: Eligible(ask, context, agents, a) && bid == BidOf(ask, context, a)
    ensures InOrder(BidBefore, Bids(ask, context, agents))
  {
    hide Candidates, Offers, Sorted, BidBefore, BidOf, DistinctIds, Orders;
    var candidates := Candidates(agents, ask.required);
    CandidatesFacts(agents, ask.required);
    OffersFacts(ask, context, candidates);
    var offers := Offers(ask, context, candidates);
    BidsOrder(offers);
    SortSorts(BidBefore, offers);
    forall bid ensures bid in offers <==> exists a :: Eligible(ask, context, agents, a) && bid == BidOf(ask, context, a) {
      if bid in offers {
        var a :| a in candidates && a.id !in context.excluded && bid == BidOf(ask, context, a);
        assert Eligible(ask, context, agents, a);
      }
      if a :| Eligible(ask, context, agents, a) && bid == BidOf(ask, context, a) {
        assert a in candidates;
      }
    }
  }

  /** The winner can do the work, is not excluded, and no eligible agent scores higher; of
      those that score the same it has the first id. Nobody wins exactly when nobody is
      eligible. */
  lemma WinnerFacts(ask: Ask, context: Context, agents: seq<Agent>)
    requires DistinctIds(agents)
    ensures Bids(ask, context, agents) == [] <==> !exists a :: Eligible(ask, context, agents, a)
    ensures Bids(ask, context, agents) != [] ==>
      var winner := Bids(ask, context, agents)[0];
      && (exists w :: Eligible(ask, context, agents, w) && winner == BidOf(ask, context, w))
      && forall a :: Eligible(ask, context, agents, a) ==>
           var bid := BidOf(ask, context, a);
           bid.score < winner.score || (bid.score == winner.score && (a.id == winner.agent || Before(winner.agent, a.id)))
  {
    hide Bids, BidOf, DistinctIds, Eligible, Before;
    BidsFacts(ask, context, agents);
    BidNames(ask, context);
    var bids := Bids(ask, context, agents);
    forall a | Eligible(ask, context, agents, a)
      ensures bids != []
      ensures var bid := BidOf(ask, context, a);
        bid.score < bids[0].score || (bid.score == bids[0].score && (a.id == bids[0].agent || Before(bids[0].agent, a.id)))
    {
      var bid := BidOf(ask, context, a);
      assert bid in bids;
      var i :| 0 <= i < |bids| && bids[i] == bid;
      if i > 0 {
        assert BidBefore(bids[0], bids[i]);
      }
    }
    if bids != [] {
      assert bids[0] in bids;
    }
  }

  /** Every candidate matches fully, so only history, availability and load decide. */
  lemma CandidatesMatchFully(ask: Ask, context: Context, a: Agent)
    requires ask.required <= a.capabilities
    ensures BidOf(ask, context, a).capabilityMatch == 1.0
  {
    if ask.required != {} {
      assert ask.required * a.capabilities == ask.required;
      var n := |ask.required| as real;
      assert n / n == 1.0;
    }
  }

  // ---- what decides ----

  /** The successes among what an agent has done: of this very work if any of it is recorded,
      or else of all its work; one half without any. */
  ghost predicate IsRate(ask: Ask, history: map<Record, Tally>, id: AgentId, rate: real) {
    var own, all := ByWork(id, ask.kind, ask.capabilityKey), ByAgent(id);
    if own in history && history[own] != Tally(0, 0) then
      rate * (history[own].successes + history[own].failures) as real == history[own].successes as real
    else if own !in history && all in history && history[all] != Tally(0, 0) then
      rate * (history[all].successes + history[all].failures) as real == history[all].successes as real
    else rate == 0.5
  }

  lemma RateIs(ask: Ask, history: map<Record, Tally>, id: AgentId)
    ensures IsRate(ask, history, id, Rate(TallyOf(ask, history, id)))
  {
    var t := TallyOf(ask, history, id);
    if t.successes + t.failures != 0 {
      var n := (t.successes + t.failures) as real;
      assert t.successes as real / n * n == t.successes as real;
    }
  }

  /** How much of the listed work an agent has on its hands. */
  function OnHand(active: seq<Load>, id: AgentId): nat {
    multiset(active)[Load(id, Assigned)] + multiset(active)[Load(id, Active)]
  }

  /** Of two eligible agents the one bids more whose rate counts for more, a running agent
      for as much as two fifths of a perfect record, and a piece of work on its hands
      against it for as much. */
  lemma HigherBid(ask: Ask, context: Context, a: Agent, b: Agent, rateA: real, rateB: real)
    requires ask.required <= a.capabilities && ask.required <= b.capabilities
    requires rateA == BidOf(ask, context, a).successRate && rateB == BidOf(ask, context, b).successRate
    ensures IsRate(ask, context.history, a.id, rateA) && IsRate(ask, context.history, b.id, rateB)
    ensures BidOf(ask, context, a).score > BidOf(ask, context, b).score <==>
      5.0 * rateA + (if a.id in context.present then 2.0 else 0.0) + 2.0 * OnHand(context.active, b.id) as real >
      5.0 * rateB + (if b.id in context.present then 2.0 else 0.0) + 2.0 * OnHand(context.active, a.id) as real
  {
    hide Match, Rate, TallyOf, LoadOf, IsRate;
    RateIs(ask, context.history, a.id);
    RateIs(ask, context.history, b.id);
    CandidatesMatchFully(ask, context, a);
    CandidatesMatchFully(ask, context, b);
    LoadCounts(context.active, a.id);
    LoadCounts(context.active, b.id);
  }
}
