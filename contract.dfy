/**
 * The voting contract mock as an object whose fields the operations update
 * in place: the `state` record (configuration and the three maps), the block
 * height and caller the host sets before each call, the token balances it
 * queries, and the two logs of transfer requests.
 *
 * Each operation is a chain of early-return guards followed by a few field
 * updates; its contract ties the returned result and the new ledger to the
 * matching function of module Governance, whose properties are proved there
 * and in modules Invariants, Properties and Traces.
 */
module VotingContract {
  import opened Governance
  import Invariants

  class VotingContractMock {
    var state: State
    var blockHeight: int
    var caller: Principal
    var stxTransfers: seq<FeeTransfer>
    var tokenBalances: map<Principal, int>
    var treasuryTransfers: seq<TreasuryTransfer>

    /** The ledger this object keeps. */
    function Snapshot(): Ledger
      reads this
    {
      Ledger(state, stxTransfers, treasuryTransfers)
    }

    /** The environment the next call runs in. */
    function Environment(): Env
      reads this
    {
      Env(blockHeight, caller, tokenBalances)
    }

    ghost predicate Valid()
      reads this
    {
      Governance.Valid(Snapshot())
    }

    constructor ()
      ensures Valid()
      ensures Snapshot() == InitialLedger && Environment() == InitialEnv
    {
      state := InitialState;
      blockHeight := 0;
      caller := Admin;
      stxTransfers := [];
      tokenBalances := map[Admin := 1000];
      treasuryTransfers := [];
      new;
      Invariants.InitialValid();
    }

    /** Restores the initial configuration, empty maps and logs, height 0 and the admin caller. */
    method Reset()
      modifies this
      ensures Valid()
      ensures Snapshot() == InitialLedger && Environment() == InitialEnv
    {
      state := InitialState;
      blockHeight := 0;
      caller := Admin;
      stxTransfers := [];
      tokenBalances := map[Admin := 1000];
      treasuryTransfers := [];
      Invariants.InitialValid();
    }

    method SetTreasuryContract(contract: Principal) returns (r: Result<bool>)
      requires Valid()
      modifies this
      ensures Valid() && Environment() == old(Environment())
      ensures Step(r, Snapshot()) ==
              Governance.SetTreasuryContract(old(Snapshot()), old(Environment()), contract)
    {
      if caller != Admin { return Err(NotAuthorized); }
      state := state.(treasuryContract := Some(contract));
      Invariants.SetTreasuryContractPreservesValid(old(Snapshot()), old(Environment()), contract);
      return Ok(true);
    }

    method SetGovTokenContract(contract: Principal) returns (r: Result<bool>)
      requires Valid()
      modifies this
      ensures Valid() && Environment() == old(Environment())
      ensures Step(r, Snapshot()) ==
              Governance.SetGovTokenContract(old(Snapshot()), old(Environment()), contract)
    {
      if caller != Admin { return Err(NotAuthorized); }
      state := state.(govTokenContract := Some(contract));
      Invariants.SetGovTokenContractPreservesValid(old(Snapshot()), old(Environment()), contract);
      return Ok(true);
    }

    method SetQuorumThreshold(newQuorum: int) returns (r: Result<bool>)
      requires Valid()
      modifies this
      ensures Valid() && Environment() == old(Environment())
      ensures Step(r, Snapshot()) ==
              Governance.SetQuorumThreshold(old(Snapshot()), old(Environment()), newQuorum)
    {
      if caller != Admin { return Err(NotAuthorized); }
      if newQuorum <= 0 || newQuorum > 100 { return Err(InvalidQuorumThreshold); }
      state := state.(quorumThreshold := newQuorum);
      Invariants.SetQuorumThresholdPreservesValid(old(Snapshot()), old(Environment()), newQuorum);
      return Ok(true);
    }

    method CreateProposal(title: string, description: string, amount: int,
                          recipient: Principal, votingPeriod: int) returns (r: Result<nat>)
      requires Valid()
      modifies this
      ensures Valid() && Environment() == old(Environment())
      ensures Step(r, Snapshot()) ==
              Governance.CreateProposal(old(Snapshot()), old(Environment()), title, description,
                                        amount, recipient, votingPeriod)
    {
      ghost var l0, env0 := Snapshot(), Environment();
      ghost var checks := CreateChecks(l0, env0, title, description, amount, recipient, votingPeriod);
      assert |checks| == 8;
      if state.nextProposalId >= state.maxProposals {
        FirstFailureAt(checks, 0);
        return Err(MaxProposalsExceeded);
      }
      if title == "" || |title| > MaxTitleLength {
        FirstFailureAt(checks, 1);
        return Err(InvalidTitle);
      }
      if description == "" || |description| > MaxDescriptionLength {
        FirstFailureAt(checks, 2);
        return Err(InvalidDescription);
      }
      if amount <= 0 {
        FirstFailureAt(checks, 3);
        return Err(InvalidProposalAmount);
      }
      if recipient == caller {
        FirstFailureAt(checks, 4);
        return Err(InvalidRecipient);
      }
      var start := blockHeight;
      var end := blockHeight + votingPeriod;
      if start < blockHeight || end <= start {
        FirstFailureAt(checks, 5);
        return Err(InvalidVotingPeriod);
      }
      if title in state.proposalsByTitle {
        FirstFailureAt(checks, 6);
        return Err(ProposalAlreadyExists);
      }
      if !IsConfigured(state.treasuryContract) {
        FirstFailureAt(checks, 7);
        return Err(TreasuryNotSet);
      }
      Invariants.CreateAccepted(l0, env0, title, description, amount, recipient, votingPeriod);
      ghost var expected := Governance.CreateProposal(l0, env0, title, description, amount,
                                                      recipient, votingPeriod);
      stxTransfers := stxTransfers + [FeeTransfer(state.proposalFee, caller, state.treasuryContract.value)];
      var id := state.nextProposalId;
      var proposal := Proposal(title, description, amount, recipient, caller,
                               start, end, 0, 0, false);
      state := state.(proposals := state.proposals[id := proposal],
                      proposalsByTitle := state.proposalsByTitle[title := id],
                      nextProposalId := id + 1);
      assert Snapshot() == expected.after;
      return Ok(id);
    }

    method VoteOnProposal(proposalId: int, vote: bool) returns (r: Result<bool>)
      requires Valid()
      modifies this
      ensures Valid() && Environment() == old(Environment())
      ensures Step(r, Snapshot()) ==
              Governance.VoteOnProposal(old(Snapshot()), old(Environment()), proposalId, vote)
    {
      ghost var checks := VoteChecks(Snapshot(), Environment(), proposalId);
      if proposalId !in state.proposals {
        FirstFailureAt(checks, 0);
        return Err(ProposalNotFound);
      }
      var proposal := state.proposals[proposalId];
      if blockHeight < proposal.startHeight || blockHeight >= proposal.endHeight {
        FirstFailureAt(checks, 1);
        return Err(VotingClosed);
      }
      var voteKey := (proposalId, caller);
      if voteKey in state.votes {
        FirstFailureAt(checks, 2);
        return Err(AlreadyVoted);
      }
      if !IsConfigured(state.govTokenContract) {
        FirstFailureAt(checks, 3);
        return Err(GovTokenNotSet);
      }
      var tokens := if caller in tokenBalances then tokenBalances[caller] else 0;
      if tokens <= 0 {
        FirstFailureAt(checks, 4);
        return Err(InsufficientTokens);
      }
      assert !checks[0].fails && !checks[1].fails && !checks[2].fails;
      assert !checks[3].fails && !checks[4].fails;
      assert FirstFailure(checks) == None;
      state := state.(votes := state.votes[voteKey := Vote(vote, tokens)]);
      if vote {
        proposal := proposal.(yesVotes := proposal.yesVotes + tokens);
      } else {
        proposal := proposal.(noVotes := proposal.noVotes + tokens);
      }
      state := state.(proposals := state.proposals[proposalId := proposal]);
      ghost var expected := Governance.VoteOnProposal(old(Snapshot()), old(Environment()), proposalId, vote);
      assert Snapshot() == expected.after;
      Invariants.VoteOnProposalPreservesValid(old(Snapshot()), old(Environment()), proposalId, vote);
      assert Governance.Valid(expected.after);
      return Ok(true);
    }

    method ExecuteProposal(proposalId: int) returns (r: Result<bool>)
      requires Valid()
      modifies this
      ensures Valid() && Environment() == old(Environment())
      ensures Step(r, Snapshot()) ==
              Governance.ExecuteProposal(old(Snapshot()), old(Environment()), proposalId)
    {
      ghost var checks := ExecuteChecks(Snapshot(), Environment(), proposalId);
      if proposalId !in state.proposals {
        FirstFailureAt(checks, 0);
        return Err(ProposalNotFound);
      }
      var proposal := state.proposals[proposalId];
      if blockHeight < proposal.endHeight {
        FirstFailureAt(checks, 1);
        return Err(VotingClosed);
      }
      if proposal.executed {
        FirstFailureAt(checks, 2);
        return Err(ProposalExecuted);
      }
      var totalVotes := proposal.yesVotes + proposal.noVotes;
      if 100 * proposal.yesVotes <= totalVotes * state.quorumThreshold {
        FirstFailureAt(checks, 3);
        return Err(ProposalNotApproved);
      }
      if !IsConfigured(state.treasuryContract) {
        FirstFailureAt(checks, 4);
        return Err(TreasuryNotSet);
      }
      assert !checks[0].fails && !checks[1].fails && !checks[2].fails;
      assert !checks[3].fails && !checks[4].fails;
      assert FirstFailure(checks) == None;
      treasuryTransfers := treasuryTransfers + [TreasuryTransfer(proposal.amount, proposal.recipient)];
      proposal := proposal.(executed := true);
      state := state.(proposals := state.proposals[proposalId := proposal]);
      ghost var expected := Governance.ExecuteProposal(old(Snapshot()), old(Environment()), proposalId);
      assert Snapshot() == expected.after;
      Invariants.ExecuteProposalPreservesValid(old(Snapshot()), old(Environment()), proposalId);
      assert Governance.Valid(expected.after);
      return Ok(true);
    }

    /** The number of proposals created so far; reads only. */
    method GetProposalCount() returns (r: Result<nat>)
      requires Valid()
      ensures r.Ok?
      ensures r.value == state.nextProposalId == |state.proposals|
      ensures forall id :: id in state.proposals <==> 0 <= id < r.value
    {
      Invariants.ProposalCountIsSize(Snapshot());
      return Ok(state.nextProposalId);
    }
  }
}
