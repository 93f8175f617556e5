/**
 * The governance vote as pure state transitions.
 *
 * A `Ledger` is everything the voting contract mock keeps: its `state` record
 * (configuration and the three maps) and the two append-only logs of transfer
 * requests. An `Env` is what the host supplies on every call: the block
 * height, the calling identity and the token balances. Every operation is a
 * function from a ledger (and its arguments) to a `Step`: the result the
 * operation returns and the ledger afterwards.
 *
 * Each operation validates its arguments with an ordered list of checks; the
 * first failing check decides the error (`FirstFailure`), and a failing call
 * returns the ledger it was given.
 */
module Governance {

  type Principal = string

  /** The administrator identity: the only caller the setters accept. */
  const Admin: Principal := "ST1TEST"

  const MaxTitleLength := 100
  const MaxDescriptionLength := 500

  datatype Option<+T> = None | Some(value: T)

  datatype Error =
    | NotAuthorized
    | InvalidProposalAmount
    | InvalidVotingPeriod
    | InvalidQuorumThreshold
    | ProposalAlreadyExists
    | ProposalNotFound
    | VotingClosed
    | AlreadyVoted
    | InsufficientTokens
    | ProposalExecuted
    | ProposalNotApproved
    | InvalidRecipient
    | InvalidDescription
    | InvalidTitle
    | TreasuryNotSet
    | GovTokenNotSet
    | MaxProposalsExceeded

  /** The numeric error code the contract reports for each error. */
  function Code(e: Error): (c: nat)
    ensures 100 <= c <= 119
  {
    match e
    case NotAuthorized => 100
    case InvalidProposalAmount => 101
    case InvalidVotingPeriod => 102
    case InvalidQuorumThreshold => 103
    case ProposalAlreadyExists => 104
    case ProposalNotFound => 105
    case VotingClosed => 106
    case AlreadyVoted => 107
    case InsufficientTokens => 108
    case ProposalExecuted => 109
    case ProposalNotApproved => 110
    case InvalidRecipient => 111
    case InvalidDescription => 112
    case InvalidTitle => 113
    case TreasuryNotSet => 114
    case GovTokenNotSet => 115
    case MaxProposalsExceeded => 119
  }

  /** Distinct errors are reported with distinct codes. */
  lemma CodeInjective(e1: Error, e2: Error)
    ensures Code(e1) == Code(e2) ==> e1 == e2
  {
  }

  datatype Result<+T> = Ok(value: T) | Err(error: Error)

  datatype Proposal = Proposal(
    title: string,
    description: string,
    amount: int,
    recipient: Principal,
    proposer: Principal,
    startHeight: int,
    endHeight: int,
    yesVotes: int,
    noVotes: int,
    executed: bool)

  /** A recorded vote: the choice and the token weight at the time of voting. */
  datatype Vote = Vote(choice: bool, tokens: int)

  /** Votes are keyed by proposal id and voter. */
  type VoteKey = (int, Principal)

  datatype State = State(
    nextProposalId: nat,
    maxProposals: int,
    proposalFee: int,
    treasuryContract: Option<Principal>,
    govTokenContract: Option<Principal>,
    quorumThreshold: int,
    proposals: map<int, Proposal>,
    proposalsByTitle: map<string, int>,
    votes: map<VoteKey, Vote>)

  /** A request that the proposal fee be moved from the proposer to the treasury. */
  datatype FeeTransfer = FeeTransfer(amount: int, from: Principal, to: Principal)

  /** A request that the treasury pay a proposal's amount to its recipient. */
  datatype TreasuryTransfer = TreasuryTransfer(amount: int, to: Principal)

  datatype Ledger = Ledger(
    state: State,
    stxTransfers: seq<FeeTransfer>,
    treasuryTransfers: seq<TreasuryTransfer>)

  /** What the host supplies on each call. */
  datatype Env = Env(blockHeight: int, caller: Principal, tokenBalances: map<Principal, int>)

  /** The result of one call and the ledger after it. */
  datatype Step<+T> = Step(result: Result<T>, after: Ledger)

  const InitialState: State :=
    State(0, 1000, 100, None, None, 50, map[], map[], map[])

  const InitialLedger: Ledger := Ledger(InitialState, [], [])

  const InitialEnv: Env := Env(0, Admin, map[Admin := 1000])

  /**
   * A contract reference counts as set when it is present and not the empty
   * string (the source tests it for truthiness).
   */
  predicate IsConfigured(contract: Option<Principal>)
    ensures IsConfigured(contract) ==> contract.Some?
    ensures contract == Some("") ==> !IsConfigured(contract)
  {
    contract.Some? && contract.value != ""
  }

  /** A voter's token balance; an identity with no entry holds nothing. */
  function Balance(env: Env, who: Principal): (tokens: int)
    ensures who in env.tokenBalances ==> tokens == env.tokenBalances[who]
    ensures tokens != 0 ==> who in env.tokenBalances
  {
    if who in env.tokenBalances then env.tokenBalances[who] else 0
  }

  // ---------------------------------------------------------------------------
  // Ordered validation

  /** One validation step: whether it fails, and the error it reports then. */
  datatype Check = Check(fails: bool, error: Error)

  /** The error of the first failing check, if any check fails. */
  function FirstFailure(checks: seq<Check>): (r: Option<Error>)
    ensures r.None? <==> forall k | 0 <= k < |checks| :: !checks[k].fails
    ensures r.Some? ==>
      exists k | 0 <= k < |checks| ::
        && checks[k].fails
        && checks[k].error == r.value
        && forall j | 0 <= j < k :: !checks[j].fails
  {
    if checks == [] then None
    else if checks[0].fails then Some(checks[0].error)
    else
      var rest := FirstFailure(checks[1..]);
      assert forall k | 1 <= k < |checks| :: checks[k] == checks[1..][k - 1];
      rest
  }

  /** A failing check preceded only by passing checks is the one reported. */
  lemma FirstFailureAt(checks: seq<Check>, k: nat)
    requires k < |checks| && checks[k].fails
    requires forall j | 0 <= j < k :: !checks[j].fails
    ensures FirstFailure(checks) == Some(checks[k].error)
  {
    var r := FirstFailure(checks);
    var k' :| 0 <= k' < |checks| && checks[k'].fails && checks[k'].error == r.value
               && forall j | 0 <= j < k' :: !checks[j].fails;
  }

  // ---------------------------------------------------------------------------
  // Administrative setters

  function SetTreasuryContract(l: Ledger, env: Env, contract: Principal): (r: Step<bool>)
    ensures r.result.Ok? <==> env.caller == Admin
    ensures r.result.Err? ==> r.result.error == NotAuthorized && r.after == l
    ensures r.result.Ok? ==>
      r.result.value && r.after == l.(state := l.state.(treasuryContract := Some(contract)))
  {
    if env.caller != Admin then Step(Err(NotAuthorized), l)
    else Step(Ok(true), l.(state := l.state.(treasuryContract := Some(contract))))
  }

  function SetGovTokenContract(l: Ledger, env: Env, contract: Principal): (r: Step<bool>)
    ensures r.result.Ok? <==> env.caller == Admin
    ensures r.result.Err? ==> r.result.error == NotAuthorized && r.after == l
    ensures r.result.Ok? ==>
      r.result.value && r.after == l.(state := l.state.(govTokenContract := Some(contract)))
  {
    if env.caller != Admin then Step(Err(NotAuthorized), l)
    else Step(Ok(true), l.(state := l.state.(govTokenContract := Some(contract))))
  }

  function QuorumChecks(env: Env, newQuorum: int): seq<Check> {
    [ Check(env.caller != Admin, NotAuthorized),
      Check(newQuorum <= 0 || newQuorum > 100, InvalidQuorumThreshold) ]
  }

  function SetQuorumThreshold(l: Ledger, env: Env, newQuorum: int): (r: Step<bool>)
    ensures r.result.Ok? <==> env.caller == Admin && 0 < newQuorum <= 100
    ensures r.result == Err(NotAuthorized) <==> env.caller != Admin
    ensures r.result == Err(InvalidQuorumThreshold) <==>
      env.caller == Admin && (newQuorum <= 0 || newQuorum > 100)
    ensures r.result.Err? ==> r.after == l
    ensures r.result.Ok? ==>
      r.result.value && r.after == l.(state := l.state.(quorumThreshold := newQuorum))
  {
    var checks := QuorumChecks(env, newQuorum);
    match FirstFailure(checks)
    case Some(e) => Step(Err(e), l)
    case None =>
      assert !checks[0].fails && !checks[1].fails;
      Step(Ok(true), l.(state := l.state.(quorumThreshold := newQuorum)))
  }

  // ---------------------------------------------------------------------------
  // Creating a proposal

  /** The checks of createProposal, in the order the contract makes them. */
  function CreateChecks(l: Ledger, env: Env, title: string, description: string,
                        amount: int, recipient: Principal, votingPeriod: int): seq<Check>
  {
    var s := l.state;
    var start := env.blockHeight;
    var end := env.blockHeight + votingPeriod;
    [ Check(s.nextProposalId >= s.maxProposals, MaxProposalsExceeded),
      Check(title == "" || |title| > MaxTitleLength, InvalidTitle),
      Check(description == "" || |description| > MaxDescriptionLength, InvalidDescription),
      Check(amount <= 0, InvalidProposalAmount),
      Check(recipient == env.caller, InvalidRecipient),
      Check(start < env.blockHeight || end <= start, InvalidVotingPeriod),
      Check(title in s.proposalsByTitle, ProposalAlreadyExists),
      Check(!IsConfigured(s.treasuryContract), TreasuryNotSet) ]
  }

  function CreateProposal(l: Ledger, env: Env, title: string, description: string,
                          amount: int, recipient: Principal, votingPeriod: int): (r: Step<nat>)
    ensures var checks := CreateChecks(l, env, title, description, amount, recipient, votingPeriod);
      && (r.result.Ok? <==> forall k | 0 <= k < |checks| :: !checks[k].fails)
      && (r.result.Err? ==> FirstFailure(checks) == Some(r.result.error))
    ensures r.result.Err? ==> r.after == l
    ensures r.result.Ok? ==>
      var s, s' := l.state, r.after.state;
      var id := r.result.value;
      && id == s.nextProposalId
      && s'.nextProposalId == s.nextProposalId + 1
      && s'.proposals.Keys == s.proposals.Keys + {id}
      && (forall i | i in s.proposals && i != id :: s'.proposals[i] == s.proposals[i])
      && s'.proposals[id] == Proposal(title, description, amount, recipient, env.caller,
                                      env.blockHeight, env.blockHeight + votingPeriod,
                                      0, 0, false)
      && title !in s.proposalsByTitle
      && s'.proposalsByTitle == s.proposalsByTitle[title := id]
      && s'.(nextProposalId := s.nextProposalId, proposals := s.proposals,
             proposalsByTitle := s.proposalsByTitle) == s
      && IsConfigured(s.treasuryContract)
      && r.after.stxTransfers == l.stxTransfers + [FeeTransfer(s.proposalFee, env.caller, s.treasuryContract.value)]
      && r.after.treasuryTransfers == l.treasuryTransfers
  {
    var checks := CreateChecks(l, env, title, description, amount, recipient, votingPeriod);
    match FirstFailure(checks)
    case Some(e) => Step(Err(e), l)
    case None =>
      assert !checks[6].fails && !checks[7].fails;
      var s := l.state;
      var id := s.nextProposalId;
      var proposal := Proposal(title, description, amount, recipient, env.caller,
                               env.blockHeight, env.blockHeight + votingPeriod, 0, 0, false);
      var s' := s.(proposals := s.proposals[id := proposal],
                   proposalsByTitle := s.proposalsByTitle[title := id],
                   nextProposalId := id + 1);
      Step(Ok(id), Ledger(s', l.stxTransfers + [FeeTransfer(s.proposalFee, env.caller, s.treasuryContract.value)],
                          l.treasuryTransfers))
  }

  // ---------------------------------------------------------------------------
  // Voting

  /** The checks of voteOnProposal, in the order the contract makes them. */
  function VoteChecks(l: Ledger, env: Env, proposalId: int): seq<Check> {
    var s := l.state;
    var found := proposalId in s.proposals;
    [ Check(!found, ProposalNotFound),
      Check(found && (env.blockHeight < s.proposals[proposalId].startHeight ||
                      env.blockHeight >= s.proposals[proposalId].endHeight), VotingClosed),
      Check((proposalId, env.caller) in s.votes, AlreadyVoted),
      Check(!IsConfigured(s.govTokenContract), GovTokenNotSet),
      Check(Balance(env, env.caller) <= 0, InsufficientTokens) ]
  }

  /** The proposal after a vote of the given weight. */
  function Tallied(p: Proposal, choice: bool, tokens: int): (p': Proposal)
    ensures p'.yesVotes + p'.noVotes == p.yesVotes + p.noVotes + tokens
    ensures (if choice then p'.noVotes == p.noVotes else p'.yesVotes == p.yesVotes)
    ensures p'.(yesVotes := p.yesVotes, noVotes := p.noVotes) == p
  {
    if choice then p.(yesVotes := p.yesVotes + tokens) else p.(noVotes := p.noVotes + tokens)
  }

  function VoteOnProposal(l: Ledger, env: Env, proposalId: int, choice: bool): (r: Step<bool>)
    ensures var checks := VoteChecks(l, env, proposalId);
      && (r.result.Ok? <==> forall k | 0 <= k < |checks| :: !checks[k].fails)
      && (r.result.Err? ==> FirstFailure(checks) == Some(r.result.error))
    ensures r.result.Err? ==> r.after == l
    ensures r.result.Ok? ==>
      var s, s' := l.state, r.after.state;
      var key := (proposalId, env.caller);
      var tokens := Balance(env, env.caller);
      && r.result.value
      && proposalId in s.proposals
      && var p := s.proposals[proposalId];
      && p.startHeight <= env.blockHeight < p.endHeight
      && key !in s.votes
      && tokens > 0
      && s'.votes == s.votes[key := Vote(choice, tokens)]
      && s'.proposals.Keys == s.proposals.Keys
      && (forall i | i in s.proposals && i != proposalId :: s'.proposals[i] == s.proposals[i])
      && s'.proposals[proposalId].yesVotes == p.yesVotes + (if choice then tokens else 0)
      && s'.proposals[proposalId].noVotes == p.noVotes + (if choice then 0 else tokens)
      && s'.proposals[proposalId].(yesVotes := p.yesVotes, noVotes := p.noVotes) == p
      && s'.(proposals := s.proposals, votes := s.votes) == s
      && r.after.stxTransfers == l.stxTransfers
      && r.after.treasuryTransfers == l.treasuryTransfers
  {
    var checks := VoteChecks(l, env, proposalId);
    match FirstFailure(checks)
    case Some(e) => Step(Err(e), l)
    case None =>
      assert !checks[0].fails && !checks[1].fails && !checks[2].fails && !checks[4].fails;
      var s := l.state;
      var tokens := Balance(env, env.caller);
      var s' := s.(votes := s.votes[(proposalId, env.caller) := Vote(choice, tokens)],
                   proposals := s.proposals[proposalId := Tallied(s.proposals[proposalId], choice, tokens)]);
      Step(Ok(true), l.(state := s'))
  }

  // ---------------------------------------------------------------------------
  // Executing a proposal

  /**
   * The approval rule: yes votes must exceed the quorum percentage of all the
   * votes cast, that is yes > (yes + no) * quorum / 100, stated without division.
   */
  predicate Approved(p: Proposal, quorumThreshold: int) {
    100 * p.yesVotes > (p.yesVotes + p.noVotes) * quorumThreshold
  }

  /** The checks of executeProposal, in the order the contract makes them. */
  function ExecuteChecks(l: Ledger, env: Env, proposalId: int): seq<Check> {
    var s := l.state;
    var found := proposalId in s.proposals;
    [ Check(!found, ProposalNotFound),
      Check(found && env.blockHeight < s.proposals[proposalId].endHeight, VotingClosed),
      Check(found && s.proposals[proposalId].executed, ProposalExecuted),
      Check(found && !Approved(s.proposals[proposalId], s.quorumThreshold), ProposalNotApproved),
      Check(!IsConfigured(s.treasuryContract), TreasuryNotSet) ]
  }

  function ExecuteProposal(l: Ledger, env: Env, proposalId: int): (r: Step<bool>)
    ensures var checks := ExecuteChecks(l, env, proposalId);
      && (r.result.Ok? <==> forall k | 0 <= k < |checks| :: !checks[k].fails)
      && (r.result.Err? ==> FirstFailure(checks) == Some(r.result.error))
    ensures r.result.Err? ==> r.after == l
    ensures r.result.Ok? ==>
      var s, s' := l.state, r.after.state;
      && r.result.value
      && proposalId in s.proposals
      && var p := s.proposals[proposalId];
      && env.blockHeight >= p.endHeight
      && !p.executed
      && Approved(p, s.quorumThreshold)
      && s'.proposals.Keys == s.proposals.Keys
      && (forall i | i in s.proposals && i != proposalId :: s'.proposals[i] == s.proposals[i])
      && s'.proposals[proposalId] == p.(executed := true)
      && s'.(proposals := s.proposals) == s
      && r.after.stxTransfers == l.stxTransfers
      && r.after.treasuryTransfers == l.treasuryTransfers + [TreasuryTransfer(p.amount, p.recipient)]
  {
    var checks := ExecuteChecks(l, env, proposalId);
    match FirstFailure(checks)
    case Some(e) => Step(Err(e), l)
    case None =>
      assert !checks[0].fails && !checks[1].fails && !checks[2].fails && !checks[3].fails;
      var s := l.state;
      var p := s.proposals[proposalId];
      Step(Ok(true), Ledger(s.(proposals := s.proposals[proposalId := p.(executed := true)]),
                            l.stxTransfers,
                            l.treasuryTransfers + [TreasuryTransfer(p.amount, p.recipient)]))
  }

  // ---------------------------------------------------------------------------
  // The ledger invariant

  /** What createProposal's validation guarantees of every stored proposal. */
  ghost predicate WellFormed(p: Proposal) {
    && 0 < |p.title| <= MaxTitleLength
    && 0 < |p.description| <= MaxDescriptionLength
    && p.amount > 0
    && p.recipient != p.proposer
    && p.startHeight < p.endHeight
    && p.yesVotes >= 0
    && p.noVotes >= 0
  }

  /** The ids of the proposals that have been executed. */
  ghost function ExecutedIds(s: State): set<int> {
    set id | id in s.proposals && s.proposals[id].executed
  }

  /** The weight one recorded vote adds to proposal id's tally for choice. */
  ghost function Contribution(key: VoteKey, v: Vote, id: int, choice: bool): int {
    if key.0 == id && v.choice == choice then v.tokens else 0
  }

  /** Some recorded vote's key: the one a fold over the votes takes first. */
  ghost function Pick(votes: map<VoteKey, Vote>): (key: VoteKey)
    requires votes.Keys != {}
    ensures key in votes
  {
    var key :| key in votes; key
  }

  /** The total weight of the recorded votes on proposal id with the given choice. */
  ghost function Weight(votes: map<VoteKey, Vote>, id: int, choice: bool): int
    decreases |votes.Keys|
  {
    if votes.Keys == {} then 0
    else
      var key := Pick(votes);
      assert votes.Keys == (votes - {key}).Keys + {key};
      Contribution(key, votes[key], id, choice) + Weight(votes - {key}, id, choice)
  }

  /** Each proposal's tallies are the total weights of the votes recorded on it. */
  ghost predicate TalliesMatch(s: State) {
    forall id {:trigger Weight(s.votes, id, true)} | id in s.proposals ::
      && s.proposals[id].yesVotes == Weight(s.votes, id, true)
      && s.proposals[id].noVotes == Weight(s.votes, id, false)
  }

  /** The stored ids are exactly 0..nextProposalId-1. */
  ghost predicate IdsDense(s: State) {
    forall id :: id in s.proposals <==> 0 <= id < s.nextProposalId
  }

  ghost predicate AllWellFormed(s: State) {
    forall id | id in s.proposals :: WellFormed(s.proposals[id])
  }

  /** The title index and the proposals agree in both directions. */
  ghost predicate TitlesIndexed(s: State) {
    && (forall t | t in s.proposalsByTitle ::
          s.proposalsByTitle[t] in s.proposals && s.proposals[s.proposalsByTitle[t]].title == t)
    && (forall id | id in s.proposals ::
          s.proposals[id].title in s.proposalsByTitle && s.proposalsByTitle[s.proposals[id].title] == id)
  }

  /** Every recorded vote is on a stored proposal and carries positive weight. */
  ghost predicate VotesAttached(s: State) {
    forall key | key in s.votes :: key.0 in s.proposals && s.votes[key].tokens > 0
  }

  /** One fee transfer per proposal, the i-th paid by proposal i's proposer. */
  ghost predicate FeesRecorded(l: Ledger) {
    && |l.stxTransfers| == l.state.nextProposalId
    && (forall i | 0 <= i < |l.stxTransfers| ::
          l.stxTransfers[i].amount == l.state.proposalFee
          && i in l.state.proposals
          && l.stxTransfers[i].from == l.state.proposals[i].proposer)
  }

  /**
   * The invariant every operation keeps: ids are exactly 0..nextProposalId-1,
   * the title index and the proposals agree in both directions, every vote
   * belongs to a proposal, each tally is the total weight of the votes
   * recorded for that choice, the i-th fee transfer was paid by proposal i's
   * proposer, and there is one treasury transfer per executed proposal.
   */
  ghost predicate Valid(l: Ledger) {
    var s := l.state;
    && s.nextProposalId <= s.maxProposals
    && 0 < s.quorumThreshold <= 100
    && IdsDense(s)
    && AllWellFormed(s)
    && TitlesIndexed(s)
    && VotesAttached(s)
    && TalliesMatch(s)
    && FeesRecorded(l)
    && |l.treasuryTransfers| == |ExecutedIds(s)|
  }
}
