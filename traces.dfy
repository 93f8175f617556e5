/**
 * Runs of calls against the ledger, each with the environment the host
 * supplied for it. A run is a sequence of the seven operations other than
 * reset (the three setters, createProposal, voteOnProposal, executeProposal
 * and getProposalCount); reset starts over from InitialLedger, as
 * VotingContractMock.Reset states, so a run here is what happens between two
 * resets. Along any run the invariant holds, proposals and votes are never
 * removed, a proposal's own fields never change, tallies never decrease,
 * `executed` is never reset, the transfer logs only grow, and the id counter
 * counts the successful creations.
 */
module Traces {
  import opened Governance
  import Invariants

  /** One call of an operation other than reset. */
  datatype Call =
    | SetTreasury(contract: Principal)
    | SetGovToken(contract: Principal)
    | SetQuorum(newQuorum: int)
    | Create(title: string, description: string, amount: int, recipient: Principal, votingPeriod: int)
    | CastVote(proposalId: int, choice: bool)
    | Execute(proposalId: int)
    | Count

  datatype Invocation = Invocation(env: Env, call: Call)

  /** The ledger after one call. */
  function Apply(l: Ledger, inv: Invocation): Ledger {
    match inv.call
    case SetTreasury(c) => SetTreasuryContract(l, inv.env, c).after
    case SetGovToken(c) => SetGovTokenContract(l, inv.env, c).after
    case SetQuorum(q) => SetQuorumThreshold(l, inv.env, q).after
    case Create(t, d, a, rcp, period) => CreateProposal(l, inv.env, t, d, a, rcp, period).after
    case CastVote(id, choice) => VoteOnProposal(l, inv.env, id, choice).after
    case Execute(id) => ExecuteProposal(l, inv.env, id).after
    case Count => l
  }

  /** Whether the call is a successful createProposal. */
  predicate Creates(l: Ledger, inv: Invocation) {
    match inv.call
    case Create(t, d, a, rcp, period) => CreateProposal(l, inv.env, t, d, a, rcp, period).result.Ok?
    case _ => false
  }

  /** The ledger after a run of calls, in order. */
  function Run(l: Ledger, invs: seq<Invocation>): Ledger
    decreases |invs|
  {
    if invs == [] then l else Run(Apply(l, invs[0]), invs[1..])
  }

  /** The number of successful creations in a run. */
  function Created(l: Ledger, invs: seq<Invocation>): nat
    decreases |invs|
  {
    if invs == [] then 0
    else (if Creates(l, invs[0]) then 1 else 0) + Created(Apply(l, invs[0]), invs[1..])
  }

  /** How a stored proposal may change: only its tallies grow and executed is set. */
  ghost predicate Persists(p: Proposal, p': Proposal) {
    && p'.(yesVotes := p.yesVotes, noVotes := p.noVotes, executed := p.executed) == p
    && p.yesVotes <= p'.yesVotes
    && p.noVotes <= p'.noVotes
    && (p.executed ==> p'.executed)
  }

  /** How the ledger may change over any number of calls. */
  ghost predicate Evolves(l: Ledger, l': Ledger) {
    var s, s' := l.state, l'.state;
    && s.nextProposalId <= s'.nextProposalId
    && (forall id | id in s.proposals :: id in s'.proposals && Persists(s.proposals[id], s'.proposals[id]))
    && (forall t | t in s.proposalsByTitle ::
          t in s'.proposalsByTitle && s'.proposalsByTitle[t] == s.proposalsByTitle[t])
    && (forall key | key in s.votes :: key in s'.votes && s'.votes[key] == s.votes[key])
    && l.stxTransfers <= l'.stxTransfers
    && l.treasuryTransfers <= l'.treasuryTransfers
  }

  lemma EvolvesTransitive(l1: Ledger, l2: Ledger, l3: Ledger)
    requires Evolves(l1, l2) && Evolves(l2, l3)
    ensures Evolves(l1, l3)
  {
    var s1, s2, s3 := l1.state, l2.state, l3.state;
    forall id | id in s1.proposals
      ensures id in s3.proposals && Persists(s1.proposals[id], s3.proposals[id])
    {
      assert Persists(s1.proposals[id], s2.proposals[id]);
      assert Persists(s2.proposals[id], s3.proposals[id]);
    }
  }

  lemma ApplyEvolves(l: Ledger, inv: Invocation)
    requires Valid(l)
    ensures Evolves(l, Apply(l, inv))
  {
    match inv.call
    case Create(t, d, a, rcp, period) => CreateEvolves(l, inv.env, t, d, a, rcp, period);
    case CastVote(id, choice) => VoteEvolves(l, inv.env, id, choice);
    case Execute(id) => ExecuteEvolves(l, inv.env, id);
    case _ => assert Apply(l, inv).state.proposals == l.state.proposals;
  }

  lemma CreateEvolves(l: Ledger, env: Env, title: string, description: string,
                      amount: int, recipient: Principal, votingPeriod: int)
    requires Valid(l)
    ensures Evolves(l, CreateProposal(l, env, title, description, amount, recipient, votingPeriod).after)
  {
    var r := CreateProposal(l, env, title, description, amount, recipient, votingPeriod);
    if r.result.Ok? {
      forall id | id in l.state.proposals
        ensures id in r.after.state.proposals && Persists(l.state.proposals[id], r.after.state.proposals[id])
      {
        assert id != r.result.value;
      }
    }
  }

  lemma VoteEvolves(l: Ledger, env: Env, proposalId: int, choice: bool)
    ensures Evolves(l, VoteOnProposal(l, env, proposalId, choice).after)
  {
    var r := VoteOnProposal(l, env, proposalId, choice);
    if r.result.Ok? {
      assert Persists(l.state.proposals[proposalId], r.after.state.proposals[proposalId]);
    }
  }

  lemma ExecuteEvolves(l: Ledger, env: Env, proposalId: int)
    ensures Evolves(l, ExecuteProposal(l, env, proposalId).after)
  {
    var r := ExecuteProposal(l, env, proposalId);
    if r.result.Ok? {
      assert Persists(l.state.proposals[proposalId], r.after.state.proposals[proposalId]);
    }
  }

  lemma {:induction false} RunEvolves(l: Ledger, invs: seq<Invocation>)
    requires Valid(l)
    ensures Evolves(l, Run(l, invs))
    decreases |invs|
  {
    if invs != [] {
      ApplyEvolves(l, invs[0]);
      ApplyPreservesValid(l, invs[0]);
      RunEvolves(Apply(l, invs[0]), invs[1..]);
      EvolvesTransitive(l, Apply(l, invs[0]), Run(l, invs));
    }
  }

  lemma ApplyPreservesValid(l: Ledger, inv: Invocation)
    requires Valid(l)
    ensures Valid(Apply(l, inv))
  {
    match inv.call
    case Create(t, d, a, rcp, period) => ApplyCreatePreservesValid(l, inv);
    case CastVote(id, choice) => ApplyVotePreservesValid(l, inv);
    case Execute(id) => ApplyExecutePreservesValid(l, inv);
    case _ => ApplySetterPreservesValid(l, inv);
  }

  lemma ApplySetterPreservesValid(l: Ledger, inv: Invocation)
    requires Valid(l)
    requires inv.call.SetTreasury? || inv.call.SetGovToken? || inv.call.SetQuorum? || inv.call.Count?
    ensures Valid(Apply(l, inv))
  {
    match inv.call
    case SetTreasury(c) => Invariants.SetTreasuryContractPreservesValid(l, inv.env, c);
    case SetGovToken(c) => Invariants.SetGovTokenContractPreservesValid(l, inv.env, c);
    case SetQuorum(q) => Invariants.SetQuorumThresholdPreservesValid(l, inv.env, q);
    case Count =>
  }

  lemma ApplyCreatePreservesValid(l: Ledger, inv: Invocation)
    requires Valid(l) && inv.call.Create?
    ensures Valid(Apply(l, inv))
  {
    var c := inv.call;
    Invariants.CreateProposalPreservesValid(l, inv.env, c.title, c.description, c.amount,
                                            c.recipient, c.votingPeriod);
  }

  lemma ApplyVotePreservesValid(l: Ledger, inv: Invocation)
    requires Valid(l) && inv.call.CastVote?
    ensures Valid(Apply(l, inv))
  {
    Invariants.VoteOnProposalPreservesValid(l, inv.env, inv.call.proposalId, inv.call.choice);
  }

  lemma ApplyExecutePreservesValid(l: Ledger, inv: Invocation)
    requires Valid(l) && inv.call.Execute?
    ensures Valid(Apply(l, inv))
  {
    Invariants.ExecuteProposalPreservesValid(l, inv.env, inv.call.proposalId);
  }

  lemma {:induction false} RunPreservesValid(l: Ledger, invs: seq<Invocation>)
    requires Valid(l)
    ensures Valid(Run(l, invs))
    decreases |invs|
  {
    if invs != [] {
      ApplyPreservesValid(l, invs[0]);
      RunPreservesValid(Apply(l, invs[0]), invs[1..]);
    }
  }

  /** Every reachable ledger satisfies the invariant. */
  lemma ReachableValid(invs: seq<Invocation>)
    ensures Valid(Run(InitialLedger, invs))
  {
    Invariants.InitialValid();
    RunPreservesValid(InitialLedger, invs);
  }

  /**
   * Only successful creations move the counter, each by one, and each
   * records one fee transfer.
   */
  lemma {:induction false} RunCountsCreations(l: Ledger, invs: seq<Invocation>)
    ensures Run(l, invs).state.nextProposalId == l.state.nextProposalId + Created(l, invs)
    ensures |Run(l, invs).stxTransfers| == |l.stxTransfers| + Created(l, invs)
    decreases |invs|
  {
    if invs != [] {
      RunCountsCreations(Apply(l, invs[0]), invs[1..]);
    }
  }

  /**
   * Ids are handed out in order from 0: a successful creation after a run
   * from the initial ledger returns the number of creations in that run.
   */
  lemma CreateReturnsCreationCount(invs: seq<Invocation>, env: Env, title: string, description: string,
                                   amount: int, recipient: Principal, votingPeriod: int)
    requires CreateProposal(Run(InitialLedger, invs), env, title, description, amount,
                            recipient, votingPeriod).result.Ok?
    ensures CreateProposal(Run(InitialLedger, invs), env, title, description, amount,
                           recipient, votingPeriod).result.value == Created(InitialLedger, invs)
  {
    RunCountsCreations(InitialLedger, invs);
  }
}
