/**
 * Properties of single operations and of an operation followed by another:
 * duplicate titles are refused, the voting window is half-open, one vote per
 * identity, execution happens once, each error code means exactly one
 * validation failure, and the integer approval rule agrees with the
 * contract's real-valued quorum.
 */
module Properties {
  import opened Governance

  /** A title already in the index never yields a new proposal. */
  lemma ExistingTitleNeverCreated(l: Ledger, env: Env, title: string, description: string,
                                  amount: int, recipient: Principal, votingPeriod: int)
    requires title in l.state.proposalsByTitle
    ensures var r := CreateProposal(l, env, title, description, amount, recipient, votingPeriod);
      r.result.Err? && r.after == l
  {
    var checks := CreateChecks(l, env, title, description, amount, recipient, votingPeriod);
    assert checks[6].fails;
  }

  /**
   * A duplicate title is reported as ProposalAlreadyExists whatever the other
   * arguments are, once the checks made before it pass.
   */
  lemma DuplicateTitleRejected(l: Ledger, env: Env, title: string, description: string,
                               amount: int, recipient: Principal, votingPeriod: int)
    requires title in l.state.proposalsByTitle
    requires l.state.nextProposalId < l.state.maxProposals
    requires 0 < |title| <= MaxTitleLength && 0 < |description| <= MaxDescriptionLength
    requires amount > 0 && recipient != env.caller && votingPeriod > 0
    ensures CreateProposal(l, env, title, description, amount, recipient, votingPeriod).result
            == Err(ProposalAlreadyExists)
  {
    var checks := CreateChecks(l, env, title, description, amount, recipient, votingPeriod);
    FirstFailureAt(checks, 6);
  }

  /**
   * For an existing proposal, a vote is refused as VotingClosed exactly when
   * the height lies outside [startHeight, endHeight).
   */
  lemma VotingWindowHalfOpen(l: Ledger, env: Env, proposalId: int, choice: bool)
    requires proposalId in l.state.proposals
    ensures var p := l.state.proposals[proposalId];
      VoteOnProposal(l, env, proposalId, choice).result == Err(VotingClosed)
      <==> !(p.startHeight <= env.blockHeight < p.endHeight)
  {
    var checks := VoteChecks(l, env, proposalId);
    var p := l.state.proposals[proposalId];
    if !(p.startHeight <= env.blockHeight < p.endHeight) {
      FirstFailureAt(checks, 1);
    }
  }

  /**
   * After a successful vote, the same identity's next vote on that proposal
   * fails whatever its choice and changes nothing; while the window is still
   * open it is reported as AlreadyVoted.
   */
  lemma SecondVoteRejected(l: Ledger, env: Env, proposalId: int, choice: bool,
                           env2: Env, choice2: bool)
    requires VoteOnProposal(l, env, proposalId, choice).result.Ok?
    requires env2.caller == env.caller
    ensures var l' := VoteOnProposal(l, env, proposalId, choice).after;
      var r2 := VoteOnProposal(l', env2, proposalId, choice2);
      && r2.result.Err?
      && r2.after == l'
      && (var p := l'.state.proposals[proposalId];
          p.startHeight <= env2.blockHeight < p.endHeight ==> r2.result == Err(AlreadyVoted))
  {
    var l' := VoteOnProposal(l, env, proposalId, choice).after;
    var checks := VoteChecks(l', env2, proposalId);
    assert checks[2].fails;
    var p := l'.state.proposals[proposalId];
    if p.startHeight <= env2.blockHeight < p.endHeight {
      FirstFailureAt(checks, 2);
    }
  }

  /**
   * Execution happens once: after a successful execution, executing the same
   * proposal again at the same or a later height is refused as
   * ProposalExecuted and requests no further treasury transfer.
   */
  lemma ExecuteOnce(l: Ledger, env: Env, proposalId: int, env2: Env)
    requires ExecuteProposal(l, env, proposalId).result.Ok?
    requires env2.blockHeight >= env.blockHeight
    ensures var l' := ExecuteProposal(l, env, proposalId).after;
      ExecuteProposal(l', env2, proposalId) == Step(Err(ProposalExecuted), l')
  {
    var l' := ExecuteProposal(l, env, proposalId).after;
    FirstFailureAt(ExecuteChecks(l', env2, proposalId), 2);
  }

  /**
   * Voting on an executed proposal is refused at the same or a later height:
   * execution needs the window to have closed.
   */
  lemma NoVoteAfterExecution(l: Ledger, env: Env, proposalId: int, env2: Env, choice: bool)
    requires ExecuteProposal(l, env, proposalId).result.Ok?
    requires env2.blockHeight >= env.blockHeight
    ensures var l' := ExecuteProposal(l, env, proposalId).after;
      VoteOnProposal(l', env2, proposalId, choice) == Step(Err(VotingClosed), l')
  {
    var l' := ExecuteProposal(l, env, proposalId).after;
    FirstFailureAt(VoteChecks(l', env2, proposalId), 1);
  }

  /** Execution is refused as VotingClosed exactly while the height is below endHeight. */
  lemma ExecutionWaitsForEnd(l: Ledger, env: Env, proposalId: int)
    requires proposalId in l.state.proposals
    ensures ExecuteProposal(l, env, proposalId).result == Err(VotingClosed)
            <==> env.blockHeight < l.state.proposals[proposalId].endHeight
  {
    if env.blockHeight < l.state.proposals[proposalId].endHeight {
      FirstFailureAt(ExecuteChecks(l, env, proposalId), 1);
    }
  }

  /**
   * The approval rule agrees with the contract's real-valued quorum test:
   * a proposal is refused when yes <= (yes + no) * quorum / 100 over the reals.
   */
  lemma ApprovedMatchesRealQuorum(p: Proposal, quorumThreshold: int)
    ensures var weighted := (p.yesVotes + p.noVotes) * quorumThreshold;
      Approved(p, quorumThreshold) <==> (p.yesVotes as real) > (weighted as real) / 100.0
  {
    var weighted := (p.yesVotes + p.noVotes) * quorumThreshold;
    assert (weighted as real) / 100.0 * 100.0 == weighted as real;
  }

  /**
   * The approval rule also agrees with the rounded-down integer quorum:
   * yes must exceed floor((yes + no) * quorum / 100).
   */
  lemma ApprovedMatchesFloorQuorum(p: Proposal, quorumThreshold: int)
    ensures Approved(p, quorumThreshold)
            <==> p.yesVotes > (p.yesVotes + p.noVotes) * quorumThreshold / 100
  {
    var weighted := (p.yesVotes + p.noVotes) * quorumThreshold;
    var q := weighted / 100;
    assert weighted == 100 * q + weighted % 100 && 0 <= weighted % 100 < 100;
  }

  /** A proposal with no yes weight is never approved. */
  lemma NoYesVotesNeverApproved(p: Proposal, quorumThreshold: int)
    ensures p.yesVotes == 0 && p.noVotes >= 0 && quorumThreshold >= 0
            ==> !Approved(p, quorumThreshold)
  {
    if p.yesVotes == 0 && p.noVotes >= 0 && quorumThreshold >= 0 {
      assert (p.yesVotes + p.noVotes) * quorumThreshold == p.noVotes * quorumThreshold;
      assert p.noVotes * quorumThreshold >= 0;
    }
  }

  /** Unanimous yes weight passes every quorum below 100. */
  lemma UnanimousYesApproved(p: Proposal, quorumThreshold: int)
    ensures p.yesVotes > 0 && p.noVotes == 0 && quorumThreshold < 100
            ==> Approved(p, quorumThreshold)
  {
    if p.yesVotes > 0 && p.noVotes == 0 && quorumThreshold < 100 {
      assert (p.yesVotes + p.noVotes) * quorumThreshold == p.yesVotes * quorumThreshold;
      assert p.yesVotes * (100 - quorumThreshold) > 0;
    }
  }

  /**
   * A quorum of 100, which setQuorumThreshold accepts, can never be met:
   * the test is strict, so not even unanimous yes weight passes it.
   */
  lemma FullQuorumNeverApproved(p: Proposal, quorumThreshold: int)
    ensures quorumThreshold >= 100 && p.yesVotes >= 0 && p.noVotes >= 0
            ==> !Approved(p, quorumThreshold)
  {
    if quorumThreshold >= 100 && p.yesVotes >= 0 && p.noVotes >= 0 {
      var total := p.yesVotes + p.noVotes;
      assert total * (quorumThreshold - 100) >= 0;
      assert total * quorumThreshold >= total * 100 >= 100 * p.yesVotes;
    }
  }

  /**
   * Each error of createProposal means exactly one thing: its guard fails
   * while every earlier guard passes. The guards are the proposal cap, the
   * title, the description, the amount, the recipient, the voting period
   * (which fails exactly for a period that is not positive), a duplicate
   * title and the treasury; the call succeeds exactly when all of them pass.
   */
  lemma CreateErrorsExact(l: Ledger, env: Env, title: string, description: string,
                          amount: int, recipient: Principal, votingPeriod: int)
    ensures var r := CreateProposal(l, env, title, description, amount, recipient, votingPeriod).result;
      var s := l.state;
      var full := s.nextProposalId >= s.maxProposals;
      var badTitle := title == "" || |title| > MaxTitleLength;
      var badDescription := description == "" || |description| > MaxDescriptionLength;
      var selfPay := recipient == env.caller;
      var duplicate := title in s.proposalsByTitle;
      var noTreasury := !IsConfigured(s.treasuryContract);
      && (r == Err(MaxProposalsExceeded) <==> full)
      && (r == Err(InvalidTitle) <==> !full && badTitle)
      && (r == Err(InvalidDescription) <==> !full && !badTitle && badDescription)
      && (r == Err(InvalidProposalAmount) <==> !full && !badTitle && !badDescription && amount <= 0)
      && (r == Err(InvalidRecipient) <==>
            !full && !badTitle && !badDescription && amount > 0 && selfPay)
      && (r == Err(InvalidVotingPeriod) <==>
            !full && !badTitle && !badDescription && amount > 0 && !selfPay && votingPeriod <= 0)
      && (r == Err(ProposalAlreadyExists) <==>
            !full && !badTitle && !badDescription && amount > 0 && !selfPay && votingPeriod > 0
            && duplicate)
      && (r == Err(TreasuryNotSet) <==>
            !full && !badTitle && !badDescription && amount > 0 && !selfPay && votingPeriod > 0
            && !duplicate && noTreasury)
      && (r.Ok? <==>
            !full && !badTitle && !badDescription && amount > 0 && !selfPay && votingPeriod > 0
            && !duplicate && !noTreasury)
  {
    var checks := CreateChecks(l, env, title, description, amount, recipient, votingPeriod);
    var r := CreateProposal(l, env, title, description, amount, recipient, votingPeriod).result;
    var s := l.state;
    assert |checks| == 8;
    if s.nextProposalId >= s.maxProposals {
      FirstFailureAt(checks, 0);
      assert r == Err(MaxProposalsExceeded);
    } else if title == "" || |title| > MaxTitleLength {
      FirstFailureAt(checks, 1);
      assert r == Err(InvalidTitle);
    } else if description == "" || |description| > MaxDescriptionLength {
      FirstFailureAt(checks, 2);
      assert r == Err(InvalidDescription);
    } else if amount <= 0 {
      FirstFailureAt(checks, 3);
      assert r == Err(InvalidProposalAmount);
    } else if recipient == env.caller {
      FirstFailureAt(checks, 4);
      assert r == Err(InvalidRecipient);
    } else if votingPeriod <= 0 {
      FirstFailureAt(checks, 5);
      assert r == Err(InvalidVotingPeriod);
    } else if title in s.proposalsByTitle {
      FirstFailureAt(checks, 6);
      assert r == Err(ProposalAlreadyExists);
    } else if !IsConfigured(s.treasuryContract) {
      FirstFailureAt(checks, 7);
      assert r == Err(TreasuryNotSet);
    } else {
      assert r.Ok?;
    }
  }

  /**
   * Each error of voteOnProposal means exactly one thing: the proposal is
   * missing, the height is outside its window, the caller already voted, the
   * governance token is unset, or the caller holds no tokens, each checked
   * only once the earlier ones pass; the vote succeeds exactly when all pass.
   */
  lemma VoteErrorsExact(l: Ledger, env: Env, proposalId: int, choice: bool)
    ensures var r := VoteOnProposal(l, env, proposalId, choice).result;
      var s := l.state;
      var found := proposalId in s.proposals;
      var open := found && s.proposals[proposalId].startHeight <= env.blockHeight
                        && env.blockHeight < s.proposals[proposalId].endHeight;
      var voted := (proposalId, env.caller) in s.votes;
      var noToken := !IsConfigured(s.govTokenContract);
      && (r == Err(ProposalNotFound) <==> !found)
      && (r == Err(VotingClosed) <==> found && !open)
      && (r == Err(AlreadyVoted) <==> open && voted)
      && (r == Err(GovTokenNotSet) <==> open && !voted && noToken)
      && (r == Err(InsufficientTokens) <==>
            open && !voted && !noToken && Balance(env, env.caller) <= 0)
      && (r.Ok? <==> open && !voted && !noToken && Balance(env, env.caller) > 0)
  {
    var checks := VoteChecks(l, env, proposalId);
    var r := VoteOnProposal(l, env, proposalId, choice).result;
    var s := l.state;
    if proposalId !in s.proposals {
      FirstFailureAt(checks, 0);
      assert r == Err(ProposalNotFound);
    } else if !(s.proposals[proposalId].startHeight <= env.blockHeight < s.proposals[proposalId].endHeight) {
      FirstFailureAt(checks, 1);
      assert r == Err(VotingClosed);
    } else if (proposalId, env.caller) in s.votes {
      FirstFailureAt(checks, 2);
      assert r == Err(AlreadyVoted);
    } else if !IsConfigured(s.govTokenContract) {
      FirstFailureAt(checks, 3);
      assert r == Err(GovTokenNotSet);
    } else if Balance(env, env.caller) <= 0 {
      FirstFailureAt(checks, 4);
      assert r == Err(InsufficientTokens);
    } else {
      assert r.Ok?;
    }
  }

  /**
   * Each error of executeProposal means exactly one thing: the proposal is
   * missing, its window has not ended, it was executed already, it is not
   * approved, or the treasury is unset, each checked only once the earlier
   * ones pass; execution succeeds exactly when all pass.
   */
  lemma ExecuteErrorsExact(l: Ledger, env: Env, proposalId: int)
    ensures var r := ExecuteProposal(l, env, proposalId).result;
      var s := l.state;
      var found := proposalId in s.proposals;
      var ended := found && env.blockHeight >= s.proposals[proposalId].endHeight;
      var pending := ended && !s.proposals[proposalId].executed;
      var approved := pending && Approved(s.proposals[proposalId], s.quorumThreshold);
      var noTreasury := !IsConfigured(s.treasuryContract);
      && (r == Err(ProposalNotFound) <==> !found)
      && (r == Err(VotingClosed) <==> found && !ended)
      && (r == Err(ProposalExecuted) <==> ended && !pending)
      && (r == Err(ProposalNotApproved) <==> pending && !approved)
      && (r == Err(TreasuryNotSet) <==> approved && noTreasury)
      && (r.Ok? <==> approved && !noTreasury)
  {
    var checks := ExecuteChecks(l, env, proposalId);
    var r := ExecuteProposal(l, env, proposalId).result;
    var s := l.state;
    if proposalId !in s.proposals {
      FirstFailureAt(checks, 0);
      assert r == Err(ProposalNotFound);
    } else if env.blockHeight < s.proposals[proposalId].endHeight {
      FirstFailureAt(checks, 1);
      assert r == Err(VotingClosed);
    } else if s.proposals[proposalId].executed {
      FirstFailureAt(checks, 2);
      assert r == Err(ProposalExecuted);
    } else if !Approved(s.proposals[proposalId], s.quorumThreshold) {
      FirstFailureAt(checks, 3);
      assert r == Err(ProposalNotApproved);
    } else if !IsConfigured(s.treasuryContract) {
      FirstFailureAt(checks, 4);
      assert r == Err(TreasuryNotSet);
    } else {
      assert r.Ok?;
    }
  }
}
