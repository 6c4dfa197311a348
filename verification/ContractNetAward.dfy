/** Registering agents, bidding for a work item and awarding it, as the objects do it
    (src/evomesh/coordination.py). */
module ContractNetAwards {
  import opened Options
  import opened Sorting
  import opened ContractNets

  const EXPIRED := "work deadline expired before assignment"

  /** A work item, as far as assignment and failure go. */
  class WorkItem {
    const ask: Ask
    const deadline: Option<int>
    const maxAttempts: nat
    var assignee: Option<AgentId>
    var status: WorkStatus
    var attempts: nat
    var failureHistory: seq<string>

    constructor (ask: Ask, deadline: Option<int>, maxAttempts: nat)
      ensures this.ask == ask && this.deadline == deadline && this.maxAttempts == maxAttempts
      ensures assignee == None && status == Pending && attempts == 0 && failureHistory == []
    {
      this.ask, this.deadline, this.maxAttempts := ask, deadline, maxAttempts;
      assignee, status, attempts, failureHistory := None, Pending, 0, [];
    }

    method Assign(agent: AgentId)
      modifies this`assignee, this`status
      ensures assignee == Some(agent) && status == Assigned
    {
      assignee := Some(agent);
      status := Assigned;
    }

    /** `fail`: back to the pool, or to a human once the attempts are used up. */
    method Fail(reason: string)
      modifies this
      ensures attempts == old(attempts) + 1 && failureHistory == old(failureHistory) + [reason]
      ensures if attempts >= maxAttempts then status == NeedsHuman && assignee == old(assignee) else status == Pending && assignee == None
    {
      attempts := attempts + 1;
      failureHistory := failureHistory + [reason];
      status := if attempts >= maxAttempts then NeedsHuman else Pending;
      if status == Pending {
        assignee := None;
      }
    }

    predicate Late(now: int) {
      deadline.Some? && now >= deadline.value
    }
  }

  class CapabilityRegistry {
    /** The agents in the order of their registration. */
    var agents: seq<Agent>

    ghost predicate Valid()
      reads this
    {
      DistinctIds(agents)
    }

    constructor ()
      ensures Valid() && agents == []
    {
      agents := [];
    }

    /** `register`: in place of an agent of the same id, or last. */
    method Register(agent: Agent)
      requires Valid()
      modifies this
      ensures Valid()
      ensures forall a :: a in agents <==> a == agent || (a in old(agents) && a.id != agent.id)
    {
      var k := 0;
      while k < |agents| && agents[k].id != agent.id
        invariant k <= |agents| && agents == old(agents)
        invariant forall i :: 0 <= i < k ==> agents[i].id != agent.id
      {
        k := k + 1;
      }
      ghost var before := agents;
      if k < |agents| {
        agents := agents[k := agent];
        Replaced(before, k, agent);
      } else {
        agents := agents + [agent];
      }
    }

    method Unregister(id: AgentId)
      requires Valid()
      modifies this
      ensures Valid()
      ensures forall a :: a in agents <==> a in old(agents) && a.id != id
    {
      agents := Others(agents, id);
      OthersFacts(old(agents), id);
    }
  }

  lemma Replaced(agents: seq<Agent>, k: nat, agent: Agent)
    requires k < |agents| && DistinctIds(agents) && agents[k].id == agent.id
    ensures DistinctIds(agents[k := agent])
    ensures forall a :: a in agents[k := agent] <==> a == agent || (a in agents && a.id != agent.id)
  {
    var r := agents[k := agent];
    forall a | a in agents && a.id != agent.id ensures a in r {
      var i :| 0 <= i < |agents| && agents[i] == a;
      assert r[i] == a;
    }
    assert r[k] == agent;
    forall a | a in r && a != agent ensures a in agents && a.id != agent.id {
      var i :| 0 <= i < |r| && r[i] == a;
      assert agents[i] == a && i != k;
    }
  }

  function Others(agents: seq<Agent>, id: AgentId): seq<Agent> {
    if agents == [] then [] else if agents[0].id == id then Others(agents[1..], id) else [agents[0]] + Others(agents[1..], id)
  }

  lemma {:induction false} OthersFacts(agents: seq<Agent>, id: AgentId)
    requires DistinctIds(agents)
    ensures DistinctIds(Others(agents, id))
    ensures forall a :: a in Others(agents, id) <==> a in agents && a.id != id
  {
    if agents != [] {
      OthersFacts(agents[1..], id);
      var rest := Others(agents[1..], id);
      assert agents == [agents[0]] + agents[1..];
      forall i | 0 <= i < |rest| ensures rest[i].id != agents[0].id {
        assert rest[i] in agents[1..];
      }
    }
  }

  class ContractNet {
    const registry: CapabilityRegistry

    constructor (registry: CapabilityRegistry)
      ensures this.registry == registry
    {
      this.registry := registry;
    }

    /** `bids`: none for an item whose deadline has passed, which then needs a human. */
    method BidFor(item: WorkItem, context: Context, now: int) returns (bids: seq<Bid>)
      requires registry.Valid()
      modifies item
      ensures item.Late(now) ==> bids == [] && item.status == NeedsHuman && item.failureHistory == old(item.failureHistory) + [EXPIRED]
      ensures !item.Late(now) ==> bids == Bids(item.ask, context, registry.agents) && item.status == old(item.status) && item.failureHistory == old(item.failureHistory)
      ensures item.assignee == old(item.assignee) && item.attempts == old(item.attempts)
      ensures registry.agents == old(registry.agents)
    {
      hide Sorted, BidOf, Able;
      if item.deadline.Some? && now >= item.deadline.value {
        item.status := NeedsHuman;
        item.failureHistory := item.failureHistory + [EXPIRED];
        return [];
      }
      var candidates := Candidates(registry.agents, item.ask.required);
      var offers: seq<Bid> := [];
      var k := 0;
      assert candidates[..0] == [];
      while k < |candidates|
        invariant k <= |candidates| && offers == Offers(item.ask, context, candidates[..k])
      {
        var agent := candidates[k];
        assert candidates[..k + 1][..k] == candidates[..k];
        if agent.id !in context.excluded {
          offers := offers + [BidOf(item.ask, context, agent)];
        }
        k := k + 1;
      }
      assert candidates[..k] == candidates;
      bids := Sorted(BidBefore, offers);
    }

    /** `award`: to the best bid, if there is one. Nothing is assigned past the deadline, and
        whoever is assigned is eligible with the highest score. */
    method Award(item: WorkItem, context: Context, now: int) returns (winner: Option<Bid>)
      requires registry.Valid()
      modifies item
      ensures winner.None? <==> (item.Late(now) || !exists a :: Eligible(item.ask, context, registry.agents, a))
      ensures winner.None? ==> item.assignee == old(item.assignee)
      ensures winner.None? && !item.Late(now) ==> item.status == old(item.status)
      ensures item.Late(now) ==> item.status == NeedsHuman
      ensures winner.Some? ==>
        && item.assignee == Some(winner.value.agent) && item.status == Assigned
        && (exists w :: Eligible(item.ask, context, registry.agents, w) && winner.value == BidOf(item.ask, context, w))
        && forall a :: Eligible(item.ask, context, registry.agents, a) ==>
             var bid := BidOf(item.ask, context, a);
             bid.score < winner.value.score || (bid.score == winner.value.score && (a.id == winner.value.agent || Before(winner.value.agent, a.id)))
      ensures registry.agents == old(registry.agents)
    {
      hide Bids, BidOf, Eligible, Before;
      WinnerFacts(item.ask, context, registry.agents);
      var bids := BidFor(item, context, now);
      if bids == [] {
        return None;
      }
      item.Assign(bids[0].agent);
      return Some(bids[0]);
    }
  }
}
