/**
 * The ledger invariant `Valid` holds initially and is kept by every
 * operation, and what follows from it: titles are unique and the proposal
 * count is the number of stored proposals.
 */
module Invariants {
  import opened Governance

  lemma InitialValid()
    ensures Valid(InitialLedger)
  {
    assert ExecutedIds(InitialState) == {};
  }

  lemma SetTreasuryContractPreservesValid(l: Ledger, env: Env, contract: Principal)
    requires Valid(l)
    ensures Valid(SetTreasuryContract(l, env, contract).after)
  {
    var l' := SetTreasuryContract(l, env, contract).after;
    assert ExecutedIds(l'.state) == ExecutedIds(l.state);
  }

  lemma SetGovTokenContractPreservesValid(l: Ledger, env: Env, contract: Principal)
    requires Valid(l)
    ensures Valid(SetGovTokenContract(l, env, contract).after)
  {
    var l' := SetGovTokenContract(l, env, contract).after;
    assert ExecutedIds(l'.state) == ExecutedIds(l.state);
  }

  lemma SetQuorumThresholdPreservesValid(l: Ledger, env: Env, newQuorum: int)
    requires Valid(l)
    ensures Valid(SetQuorumThreshold(l, env, newQuorum).after)
  {
    var l' := SetQuorumThreshold(l, env, newQuorum).after;
    assert ExecutedIds(l'.state) == ExecutedIds(l.state);
  }

  /** Weight does not depend on which vote the fold takes first. */
  lemma {:induction false} WeightRemove(votes: map<VoteKey, Vote>, key: VoteKey, id: int, choice: bool)
    requires key in votes
    ensures Weight(votes, id, choice) == Contribution(key, votes[key], id, choice) + Weight(votes - {key}, id, choice)
    decreases |votes.Keys|
  {
    var k := Pick(votes);
    if k != key {
      var withoutK, withoutKey := votes - {k}, votes - {key};
      assert votes.Keys == withoutK.Keys + {k};
      assert votes.Keys == withoutKey.Keys + {key};
      WeightRemove(withoutK, key, id, choice);
      WeightRemove(withoutKey, k, id, choice);
      assert withoutK - {key} == withoutKey - {k};
    }
  }

  /** Recording a new vote adds its weight to the total. */
  lemma WeightInsert(votes: map<VoteKey, Vote>, key: VoteKey, v: Vote, id: int, choice: bool)
    requires key !in votes
    ensures Weight(votes[key := v], id, choice) == Contribution(key, v, id, choice) + Weight(votes, id, choice)
  {
    WeightRemove(votes[key := v], key, id, choice);
    assert votes[key := v] - {key} == votes;
  }

  /** With no vote recorded on proposal id, both of its totals are zero. */
  lemma {:induction false} WeightNoVotes(votes: map<VoteKey, Vote>, id: int, choice: bool)
    requires forall key | key in votes :: key.0 != id
    ensures Weight(votes, id, choice) == 0
    decreases |votes.Keys|
  {
    if votes.Keys != {} {
      var k :| k in votes;
      WeightRemove(votes, k, id, choice);
      assert votes.Keys == (votes - {k}).Keys + {k};
      WeightNoVotes(votes - {k}, id, choice);
    }
  }

  /** Recorded votes carry positive weight, so every total is non-negative. */
  lemma {:induction false} WeightNonNegative(votes: map<VoteKey, Vote>, id: int, choice: bool)
    requires forall key | key in votes :: votes[key].tokens > 0
    ensures Weight(votes, id, choice) >= 0
    decreases |votes.Keys|
  {
    if votes.Keys != {} {
      var k := Pick(votes);
      assert votes.Keys == (votes - {k}).Keys + {k};
      WeightNonNegative(votes - {k}, id, choice);
    }
  }

  /** A proposal nobody has voted on has both tallies at zero. */
  lemma UnvotedProposalHasZeroTallies(l: Ledger, id: int)
    requires Valid(l) && id in l.state.proposals
    requires forall key | key in l.state.votes :: key.0 != id
    ensures l.state.proposals[id].yesVotes == 0 && l.state.proposals[id].noVotes == 0
  {
    WeightNoVotes(l.state.votes, id, true);
    WeightNoVotes(l.state.votes, id, false);
  }

  /** Each recorded vote's whole weight is counted in the tally of its choice. */
  lemma VoteCountedInTally(l: Ledger, key: VoteKey)
    requires Valid(l) && key in l.state.votes
    ensures var s := l.state;
      var p, v := s.proposals[key.0], s.votes[key];
      (if v.choice then p.yesVotes else p.noVotes) >= v.tokens
  {
    var s := l.state;
    var v := s.votes[key];
    assert s.proposals[key.0].yesVotes == Weight(s.votes, key.0, true);
    WeightRemove(s.votes, key, key.0, v.choice);
    WeightNonNegative(s.votes - {key}, key.0, v.choice);
  }

  /** A new proposal starts with zero tallies and no recorded vote is on its id. */
  lemma CreateKeepsTallies(l: Ledger, env: Env, title: string, description: string,
                           amount: int, recipient: Principal, votingPeriod: int)
    requires TalliesMatch(l.state)
    requires forall key | key in l.state.votes :: key.0 in l.state.proposals
    requires l.state.nextProposalId !in l.state.proposals
    ensures TalliesMatch(CreateProposal(l, env, title, description, amount, recipient, votingPeriod).after.state)
  {
    var r := CreateProposal(l, env, title, description, amount, recipient, votingPeriod);
    if r.result.Ok? {
      var id := r.result.value;
      WeightNoVotes(l.state.votes, id, true);
      WeightNoVotes(l.state.votes, id, false);
    }
  }

  lemma CreateProposalPreservesValid(l: Ledger, env: Env, title: string, description: string,
                                     amount: int, recipient: Principal, votingPeriod: int)
    requires Valid(l)
    ensures Valid(CreateProposal(l, env, title, description, amount, recipient, votingPeriod).after)
  {
    var r := CreateProposal(l, env, title, description, amount, recipient, votingPeriod);
    if r.result.Ok? {
      var checks := CreateChecks(l, env, title, description, amount, recipient, votingPeriod);
      assert !checks[0].fails && !checks[1].fails && !checks[2].fails && !checks[3].fails;
      assert !checks[4].fails && !checks[5].fails;
      var s, s' := l.state, r.after.state;
      var id := r.result.value;
      assert IdsDense(s');
      assert WellFormed(s'.proposals[id]);
      assert AllWellFormed(s');
      assert TitlesIndexed(s');
      assert VotesAttached(s');
      CreateKeepsTallies(l, env, title, description, amount, recipient, votingPeriod);
      CreateRecordsFee(l, env, title, description, amount, recipient, votingPeriod);
      assert ExecutedIds(s') == ExecutedIds(s);
    }
  }

  /** When every guard of createProposal passes, the call succeeds with the next id and keeps Valid. */
  lemma CreateAccepted(l: Ledger, env: Env, title: string, description: string,
                       amount: int, recipient: Principal, votingPeriod: int)
    requires Valid(l)
    requires l.state.nextProposalId < l.state.maxProposals
    requires title != "" && |title| <= MaxTitleLength
    requires description != "" && |description| <= MaxDescriptionLength
    requires amount > 0 && recipient != env.caller && votingPeriod > 0
    requires title !in l.state.proposalsByTitle && IsConfigured(l.state.treasuryContract)
    ensures var s, id := l.state, l.state.nextProposalId;
      var r := CreateProposal(l, env, title, description, amount, recipient, votingPeriod);
      && r.result == Ok(id)
      && Valid(r.after)
      && r.after.state == s.(proposals := s.proposals[id := Proposal(title, description, amount, recipient,
                                                                       env.caller, env.blockHeight,
                                                                       env.blockHeight + votingPeriod,
                                                                       0, 0, false)],
                             proposalsByTitle := s.proposalsByTitle[title := id],
                             nextProposalId := id + 1)
      && r.after.stxTransfers == l.stxTransfers + [FeeTransfer(s.proposalFee, env.caller, s.treasuryContract.value)]
      && r.after.treasuryTransfers == l.treasuryTransfers
  {
    var checks := CreateChecks(l, env, title, description, amount, recipient, votingPeriod);
    assert !checks[0].fails && !checks[1].fails && !checks[2].fails && !checks[3].fails;
    assert !checks[4].fails && !checks[5].fails && !checks[6].fails && !checks[7].fails;
    CreateProposalPreservesValid(l, env, title, description, amount, recipient, votingPeriod);
  }

  /** The fee transfer a creation appends is the new proposal's, paid by its proposer. */
  lemma CreateRecordsFee(l: Ledger, env: Env, title: string, description: string,
                         amount: int, recipient: Principal, votingPeriod: int)
    requires FeesRecorded(l) && IdsDense(l.state)
    ensures FeesRecorded(CreateProposal(l, env, title, description, amount, recipient, votingPeriod).after)
  {
    var r := CreateProposal(l, env, title, description, amount, recipient, votingPeriod);
    if r.result.Ok? {
      var s' := r.after.state;
      forall i | 0 <= i < |r.after.stxTransfers|
        ensures i in s'.proposals && r.after.stxTransfers[i].from == s'.proposals[i].proposer
      {
        if i < |l.stxTransfers| {
          assert r.after.stxTransfers[i] == l.stxTransfers[i];
        }
      }
    }
  }

  lemma VoteOnProposalPreservesValid(l: Ledger, env: Env, proposalId: int, choice: bool)
    requires Valid(l)
    ensures Valid(VoteOnProposal(l, env, proposalId, choice).after)
  {
    var r := VoteOnProposal(l, env, proposalId, choice);
    if r.result.Ok? {
      var s, s' := l.state, r.after.state;
      assert IdsDense(s');
      forall id | id in s'.proposals
        ensures WellFormed(s'.proposals[id]) && s'.proposals[id].title == s.proposals[id].title
      {
        assert id in s.proposals;
      }
      assert AllWellFormed(s') && TitlesIndexed(s');
      forall key | key in s'.votes ensures key.0 in s'.proposals && s'.votes[key].tokens > 0 {
        if key != (proposalId, env.caller) {
          assert key in s.votes;
        }
      }
      assert VotesAttached(s');
      VoteKeepsTallies(l, env, proposalId, choice);
      assert FeesRecorded(r.after);
      assert ExecutedIds(s') == ExecutedIds(s);
    }
  }

  /** A vote adds its weight to the tally it names, as it adds one recorded vote. */
  lemma VoteKeepsTallies(l: Ledger, env: Env, proposalId: int, choice: bool)
    requires TalliesMatch(l.state)
    ensures TalliesMatch(VoteOnProposal(l, env, proposalId, choice).after.state)
  {
    var r := VoteOnProposal(l, env, proposalId, choice);
    if r.result.Ok? {
      var s, s' := l.state, r.after.state;
      var key, v := (proposalId, env.caller), Vote(choice, Balance(env, env.caller));
      forall id | id in s'.proposals
        ensures && s'.proposals[id].yesVotes == Weight(s'.votes, id, true)
                && s'.proposals[id].noVotes == Weight(s'.votes, id, false)
      {
        WeightInsert(s.votes, key, v, id, true);
        WeightInsert(s.votes, key, v, id, false);
      }
    }
  }

  /** Execution changes neither the recorded votes nor any tally. */
  lemma ExecuteKeepsTallies(l: Ledger, env: Env, proposalId: int)
    requires TalliesMatch(l.state)
    ensures TalliesMatch(ExecuteProposal(l, env, proposalId).after.state)
  {
    var r := ExecuteProposal(l, env, proposalId);
    if r.result.Ok? {
      var s, s' := l.state, r.after.state;
      forall id | id in s'.proposals
        ensures && s'.proposals[id].yesVotes == Weight(s'.votes, id, true)
                && s'.proposals[id].noVotes == Weight(s'.votes, id, false)
      {
        assert id in s.proposals;
      }
    }
  }

  lemma ExecuteProposalPreservesValid(l: Ledger, env: Env, proposalId: int)
    requires Valid(l)
    ensures Valid(ExecuteProposal(l, env, proposalId).after)
  {
    var r := ExecuteProposal(l, env, proposalId);
    if r.result.Ok? {
      var s, s' := l.state, r.after.state;
      ExecuteAddsExecutedId(l, env, proposalId);
      assert |r.after.treasuryTransfers| == |l.treasuryTransfers| + 1;
      forall id | id in s'.proposals ensures WellFormed(s'.proposals[id]) {
        assert id in s.proposals;
      }
      ExecuteKeepsTallies(l, env, proposalId);
    }
  }

  /** A successful execution adds exactly its proposal to the executed ones. */
  lemma ExecuteAddsExecutedId(l: Ledger, env: Env, proposalId: int)
    requires ExecuteProposal(l, env, proposalId).result.Ok?
    ensures var s, s' := l.state, ExecuteProposal(l, env, proposalId).after.state;
      proposalId !in ExecutedIds(s) && ExecutedIds(s') == ExecutedIds(s) + {proposalId}
  {
    var s, s' := l.state, ExecuteProposal(l, env, proposalId).after.state;
    forall id ensures id in ExecutedIds(s') <==> id in ExecutedIds(s) + {proposalId} {
      if id != proposalId && id in s.proposals {
        assert s'.proposals[id] == s.proposals[id];
      }
    }
  }

  /** No two stored proposals share a title. */
  lemma TitlesUnique(l: Ledger, i: int, j: int)
    requires Valid(l)
    requires i in l.state.proposals && j in l.state.proposals
    requires l.state.proposals[i].title == l.state.proposals[j].title
    ensures i == j
  {
  }

  /** Under the invariant every id is below the cap and the next id is still free. */
  lemma NextIdFree(l: Ledger)
    requires Valid(l)
    ensures forall id | id in l.state.proposals :: 0 <= id < l.state.maxProposals
    ensures l.state.nextProposalId !in l.state.proposals
  {
  }

  /** The ids 0..n-1. */
  function IdRange(n: nat): set<int> {
    if n == 0 then {} else IdRange(n - 1) + {n - 1}
  }

  /** IdRange(n) holds exactly 0..n-1, so it has n elements. */
  lemma {:induction false} IdRangeSize(n: nat)
    ensures forall id :: id in IdRange(n) <==> 0 <= id < n
    ensures |IdRange(n)| == n
  {
    if n > 0 {
      IdRangeSize(n - 1);
    }
  }

  /** The proposal count equals the number of stored proposals. */
  lemma ProposalCountIsSize(l: Ledger)
    requires Valid(l)
    ensures |l.state.proposals| == l.state.nextProposalId
  {
    var n := l.state.nextProposalId;
    IdRangeSize(n);
    assert l.state.proposals.Keys == IdRange(n) by {
      forall id ensures id in l.state.proposals.Keys <==> id in IdRange(n) {
        assert id in l.state.proposals <==> 0 <= id < n;
      }
    }
  }
}
