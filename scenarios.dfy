/**
 * The contract's example scenarios, replayed against the object: each method
 * starts from a fresh contract (caller ST1TEST, height 0, ST1TEST holding 1000
 * tokens) and asserts the outcome the scenario expects.
 */
module Scenarios {
  import opened Governance
  import opened VotingContract
  import Properties

  /** Treasury ST2TEST and governance token ST3TEST, set by the admin. */
  method Configured() returns (c: VotingContractMock)
    ensures fresh(c) && c.Valid()
    ensures c.Snapshot() == InitialLedger.(state := InitialState.(treasuryContract := Some("ST2TEST"),
                                                                  govTokenContract := Some("ST3TEST")))
    ensures c.Environment() == InitialEnv
  {
    c := new VotingContractMock();
    var r1 := c.SetTreasuryContract("ST2TEST");
    var r2 := c.SetGovTokenContract("ST3TEST");
  }

  /** Configured, then "Scholarship1" created at height 0 with a 100-block window. */
  method WithScholarship() returns (c: VotingContractMock)
    ensures fresh(c) && c.Valid()
    ensures c.Environment() == InitialEnv
    ensures c.Snapshot() ==
      Ledger(State(1, 1000, 100, Some("ST2TEST"), Some("ST3TEST"), 50,
                   map[0 := Proposal("Scholarship1", "Fund tuition", 500, "ST4RECIP", "ST1TEST",
                                     0, 100, 0, 0, false)],
                   map["Scholarship1" := 0], map[]),
             [FeeTransfer(100, "ST1TEST", "ST2TEST")], [])
  {
    c := Configured();
    var r := c.CreateProposal("Scholarship1", "Fund tuition", 500, "ST4RECIP", 100);
  }

  /** WithScholarship, then ST1TEST votes at height 10 with its 1000 tokens. */
  method WithVote(choice: bool) returns (c: VotingContractMock)
    ensures fresh(c) && c.Valid()
    ensures c.Environment() == InitialEnv.(blockHeight := 10)
    ensures c.state.nextProposalId == 1 && c.state.quorumThreshold == 50
    ensures c.state.treasuryContract == Some("ST2TEST")
    ensures c.state.proposals == map[0 := Proposal("Scholarship1", "Fund tuition", 500, "ST4RECIP", "ST1TEST",
                                                   0, 100, if choice then 1000 else 0,
                                                   if choice then 0 else 1000, false)]
    ensures c.treasuryTransfers == []
  {
    c := WithScholarship();
    c.blockHeight := 10;
    var r := c.VoteOnProposal(0, choice);
  }

  /** The first proposal gets id 0 and its fee goes to the treasury. */
  method CreatesProposalSuccessfully() returns (r: Result<nat>, created: Proposal, fees: seq<FeeTransfer>)
    ensures r == Ok(0)
    ensures created.title == "Scholarship1" && created.amount == 500
    ensures fees == [FeeTransfer(100, "ST1TEST", "ST2TEST")]
  {
    var c := Configured();
    r := c.CreateProposal("Scholarship1", "Fund tuition", 500, "ST4RECIP", 100);
    created, fees := c.state.proposals[0], c.stxTransfers;
  }

  /** A second proposal with an existing title is refused. */
  method RejectsDuplicateTitles() returns (r: Result<nat>)
    ensures r == Err(ProposalAlreadyExists)
  {
    var c := WithScholarship();
    Properties.DuplicateTitleRejected(c.Snapshot(), c.Environment(), "Scholarship1", "Another desc",
                                      600, "ST5RECIP", 200);
    r := c.CreateProposal("Scholarship1", "Another desc", 600, "ST5RECIP", 200);
  }

  /** With only the token contract set, creation fails for want of a treasury. */
  method RejectsProposalWithoutTreasury() returns (r: Result<nat>)
    ensures r == Err(TreasuryNotSet)
  {
    var c := new VotingContractMock();
    var r1 := c.SetGovTokenContract("ST3TEST");
    r := c.CreateProposal("NoTreasury", "Desc", 500, "ST4RECIP", 100);
  }

  /** ST1TEST's yes vote at height 10 counts its 1000 tokens. */
  method VotesOnProposalSuccessfully() returns (r: Result<bool>, yesVotes: int)
    ensures r == Ok(true) && yesVotes == 1000
  {
    var c := WithScholarship();
    c.blockHeight := 10;
    r := c.VoteOnProposal(0, true);
    yesVotes := c.state.proposals[0].yesVotes;
  }

  /** A vote at height 101, after the window [0, 100), is refused. */
  method RejectsVoteAfterPeriod() returns (r: Result<bool>)
    ensures r == Err(VotingClosed)
  {
    var c := WithScholarship();
    c.blockHeight := 101;
    r := c.VoteOnProposal(0, true);
  }

  /** ST1TEST's second vote on proposal 0, at height 10, is refused. */
  method RejectsDoubleVote() returns (r: Result<bool>)
    ensures r == Err(AlreadyVoted)
  {
    var c := WithScholarship();
    c.blockHeight := 10;
    var r1 := c.VoteOnProposal(0, true);
    r := c.VoteOnProposal(0, false);
  }

  /** A unanimous yes passes the 50% quorum at height 101 and pays the recipient. */
  method ExecutesProposalSuccessfully() returns (r: Result<bool>, executed: bool,
                                                  payments: seq<TreasuryTransfer>)
    ensures r == Ok(true) && executed
    ensures payments == [TreasuryTransfer(500, "ST4RECIP")]
  {
    var c := WithVote(true);
    c.blockHeight := 101;
    r := c.ExecuteProposal(0);
    executed, payments := c.state.proposals[0].executed, c.treasuryTransfers;
  }

  /** Execution at height 50, before the window ends at 100, is refused. */
  method RejectsExecutionBeforeEnd() returns (r: Result<bool>)
    ensures r == Err(VotingClosed)
  {
    var c := WithScholarship();
    c.blockHeight := 50;
    Properties.ExecutionWaitsForEnd(c.Snapshot(), c.Environment(), 0);
    r := c.ExecuteProposal(0);
  }

  /** A unanimous no fails the quorum, so execution at height 101 is refused. */
  method RejectsExecutionIfNotApproved() returns (r: Result<bool>)
    ensures r == Err(ProposalNotApproved)
  {
    var c := WithVote(false);
    c.blockHeight := 101;
    r := c.ExecuteProposal(0);
  }

  /** The admin sets the quorum to 60. */
  method SetsQuorumThresholdSuccessfully() returns (r: Result<bool>, quorum: int)
    ensures r == Ok(true) && quorum == 60
  {
    var c := new VotingContractMock();
    r := c.SetQuorumThreshold(60);
    quorum := c.state.quorumThreshold;
  }

  /** A quorum of 101 is out of range. */
  method RejectsInvalidQuorum() returns (r: Result<bool>)
    ensures r == Err(InvalidQuorumThreshold)
  {
    var c := new VotingContractMock();
    r := c.SetQuorumThreshold(101);
  }

  /** After two creations with different titles, the count is 2. */
  method GetsProposalCountCorrectly() returns (r: Result<nat>)
    ensures r == Ok(2)
  {
    var c := WithScholarship();
    assert "Scholarship2"[11] != "Scholarship1"[11];
    var r1 := c.CreateProposal("Scholarship2", "Fund books", 300, "ST5RECIP", 150);
    r := c.GetProposalCount();
  }
}
