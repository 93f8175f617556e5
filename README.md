# Governance vote: a Dafny model of the voting contract mock

This project models the voting contract mock `VotingContractMock` of the
Decentralized Alumni Network DAO (`tests/voting.test.ts`). The mock is a small
state machine for a token-weighted governance vote:

- an admin (`ST1TEST`) sets the treasury contract, the governance token
  contract and the quorum threshold;
- anyone may create a funding proposal, paying a flat fee to the treasury;
- token holders vote once per proposal, weighted by their balance;
- after the voting window closes, an approved proposal is executed once, and
  this requests a payment from the treasury to the proposal's recipient.

The model has six modules:

- `Governance` (governance.dfy) holds the data model: `Proposal`, `Vote`, the
  `State` record with its three maps, the two transfer logs, `Ledger`, and
  `Env`, which is what the host supplies on each call (block height, caller,
  token balances). Each operation is a pure function from a ledger to a
  `Step`, meaning the result together with the ledger after the call. Each
  operation's validation is an ordered list of `Check`s, and `FirstFailure`
  picks the first one that fails. `Valid` is the ledger invariant:
  - ids are exactly `0..nextProposalId-1`;
  - the title index agrees with the proposals in both directions;
  - every vote belongs to a proposal and carries positive weight;
  - each proposal's yes (no) tally is the total weight of the votes recorded
    on it with choice yes (no), summed by the ghost fold `Weight`;
  - the i-th fee transfer was paid by proposal i's proposer;
  - there is one treasury transfer per executed proposal.
- `Invariants` (invariants.dfy) shows that the initial ledger satisfies `Valid`
  and that every operation keeps it. From `Valid` it derives several facts:
  - titles are unique;
  - the proposal count is the number of stored proposals;
  - a proposal nobody voted on has zero tallies;
  - every recorded vote's weight is counted in the tally of its choice.
- `Properties` (properties.dfy) holds the properties of one call, or of one
  call followed by another:
  - a duplicate title is refused;
  - the voting window is half-open;
  - each identity votes once;
  - execution waits for the window to close and happens once;
  - each error code of createProposal, voteOnProposal and executeProposal
    means exactly one validation failure: its guard fails while every
    earlier guard passes;
  - the integer approval rule agrees with the contract's real-valued quorum,
    rejects proposals without yes weight, accepts unanimous yes below a
    quorum of 100, and can never be met at 100.
- `Traces` (traces.dfy) covers arbitrary runs of calls. A run is a sequence of
  the seven operations other than `reset`: the three setters,
  `createProposal`, `voteOnProposal`, `executeProposal` and
  `getProposalCount`. `reset` starts over from the initial ledger, as
  `VotingContractMock.Reset` states, so a run is what happens between two
  resets. Along a run:
  - the invariant holds;
  - proposals and votes are never removed or rewritten;
  - tallies never decrease;
  - `executed` is never reset;
  - both logs only grow;
  - the id counter counts the successful creations, so the n-th creation
    returns id n-1.
- `VotingContract` (contract.dfy) is the class `VotingContractMock`. It has the
  source's fields: `state`, `blockHeight`, `caller`, `stxTransfers`,
  `tokenBalances` and `treasuryTransfers`. Its methods are the source's chains
  of early-return guards followed by in-place field updates. Each method that
  changes the ledger has a contract that equates its result and the new
  ledger with the matching `Governance` function, and says that `Valid()`
  still holds. `Reset` restores `InitialLedger` and `InitialEnv`.
  `GetProposalCount` changes nothing and returns the id counter.
- `Scenarios` (scenarios.dfy) replays the scenarios of
  `tests/voting.test.ts:202-318` against the class. `Configured`,
  `WithScholarship` and `WithVote` are shared setup steps that return the
  contract. Each other method is one scenario: its outputs are the values the
  scenario inspects, and its contract states their expected values.

The class methods require `Valid()`. This is the object invariant: the
constructor and `Reset` establish it and every method keeps it. The scenarios
write only `blockHeight`. Writing `blockHeight`, `caller` or `tokenBalances`
cannot break `Valid()`; writing `state` directly can, see "## Left out".

Points where the code's behaviour is easy to misread:

- The quorum test at `tests/voting.test.ts:179-181` divides by 100 over the
  reals. With integer tallies this is the same as floor division. The model
  states the rule without division, as `100 * yes > (yes + no) * quorum`.
  `ApprovedMatchesRealQuorum` and `ApprovedMatchesFloorQuorum` prove that it
  matches both readings.
- `voteOnProposal` (`tests/voting.test.ts:155-172`) does not look at
  `executed`. Only the voting window keeps votes off an executed proposal.
  `NoVoteAfterExecution` proves that the window is enough when the block
  height never decreases.
- A contract reference counts as set by JavaScript truthiness, so an empty
  string counts as unset. `IsConfigured` models this.
- The admin identity is the constant `ST1TEST`.
- `setQuorumThreshold` accepts 100 (`tests/voting.test.ts:112`), but the
  approval test is strict, so a quorum of 100 can never be met.
  `FullQuorumNeverApproved` proves this.

## Model

| member | source | states |
|---|---|---|
| `Governance.Code` | tests/voting.test.ts:5-21 | every error is reported with its numeric code, all of them between 100 and 119 |
| `Governance.CodeInjective` | tests/voting.test.ts:5-21 | distinct errors have distinct codes |
| `Governance.FirstFailure` | tests/voting.test.ts:124-133 | the reported error comes from a failing check that only passing checks precede; no error means every check passes |
| `Governance.FirstFailureAt` | tests/voting.test.ts:124-133 | the first failing check is the one whose error is returned |
| `Governance.IsConfigured` | tests/voting.test.ts:133 | a reference counts as set only when present, and the empty string counts as unset (the truthiness test at lines 133, 161 and 182) |
| `Governance.Balance` | tests/voting.test.ts:162 | a listed identity's balance is its entry; an identity with no entry has balance 0, and any non-zero balance comes from an entry |
| `Governance.QuorumChecks` | tests/voting.test.ts:111-112 | the guards of setQuorumThreshold as an ordered list; `Governance.SetQuorumThreshold`'s contract states each error in if-and-only-if form |
| `Governance.CreateChecks` | tests/voting.test.ts:124-133 | the guards of createProposal as an ordered list; `Properties.CreateErrorsExact` states what each error means |
| `Governance.VoteChecks` | tests/voting.test.ts:157-163 | the guards of voteOnProposal as an ordered list; `Properties.VoteErrorsExact` states what each error means |
| `Governance.ExecuteChecks` | tests/voting.test.ts:176-182 | the guards of executeProposal as an ordered list; `Properties.ExecuteErrorsExact` states what each error means |
| `Governance.Tallied` | tests/voting.test.ts:165-169 | a vote adds its weight to the combined tally, to the tally of its choice only, and changes no other field of the proposal |
| `Governance.Approved` | tests/voting.test.ts:179-181 | the quorum test without division; its meaning is stated by `Properties.ApprovedMatchesRealQuorum`, `ApprovedMatchesFloorQuorum`, `NoYesVotesNeverApproved`, `UnanimousYesApproved` and `FullQuorumNeverApproved` |
| `Governance.Valid` | tests/voting.test.ts:79-191 | the ledger invariant: ids dense below the cap, quorum in (0, 100], title index one-to-one with the proposals, votes attached with positive weight, tallies equal to the recorded weight, one fee per proposal and one treasury transfer per execution; `Invariants` proves it initial and preserved |
| `Governance.SetTreasuryContract` | tests/voting.test.ts:98-102 | succeeds iff the caller is the admin; otherwise NotAuthorized and the ledger is unchanged; on success only the treasury reference changes |
| `Governance.SetGovTokenContract` | tests/voting.test.ts:104-108 | succeeds iff the caller is the admin; otherwise NotAuthorized and the ledger is unchanged; on success only the token reference changes |
| `Governance.SetQuorumThreshold` | tests/voting.test.ts:110-115 | NotAuthorized iff the caller is not the admin; InvalidQuorumThreshold iff the admin gives a value outside (0, 100]; a failure changes nothing; success stores the value and nothing else |
| `Governance.CreateProposal` | tests/voting.test.ts:117-153 | the error is the first failing check, in the order MaxProposalsExceeded, InvalidTitle, InvalidDescription, InvalidProposalAmount, InvalidRecipient, InvalidVotingPeriod, ProposalAlreadyExists, TreasuryNotSet; a failure changes nothing; success returns the old counter and bumps it by one; it stores the proposal with window [height, height+period), zero tallies and not executed; it indexes the title, which was new; it appends exactly one fee transfer from the caller to the treasury; nothing else changes |
| `Governance.VoteOnProposal` | tests/voting.test.ts:155-172 | the error is the first failing check, in the order ProposalNotFound, VotingClosed, AlreadyVoted, GovTokenNotSet, InsufficientTokens; a failure changes nothing; success records the caller's first vote with its positive balance as weight and adds that weight to exactly one of the tallies; no other proposal or field changes |
| `Governance.ExecuteProposal` | tests/voting.test.ts:174-187 | the error is the first failing check, in the order ProposalNotFound, VotingClosed (height below end), ProposalExecuted, ProposalNotApproved, TreasuryNotSet; a failure changes nothing; success needs a closed window, a not-yet-executed and approved proposal; it sets `executed` and appends exactly one treasury transfer of the amount to the recipient |
| `Invariants.InitialValid` | tests/voting.test.ts:79-96 | the initial ledger satisfies the invariant |
| `Invariants.SetTreasuryContractPreservesValid` | tests/voting.test.ts:98-102 | setting the treasury keeps the invariant |
| `Invariants.SetGovTokenContractPreservesValid` | tests/voting.test.ts:104-108 | setting the token contract keeps the invariant |
| `Invariants.SetQuorumThresholdPreservesValid` | tests/voting.test.ts:110-115 | the quorum threshold stays within (0, 100] and the invariant holds |
| `Invariants.CreateAccepted` | tests/voting.test.ts:124-152 | when every guard of createProposal passes, the call returns the next id, stores exactly the new proposal and title entry, appends one fee transfer, and keeps the invariant |
| `Invariants.CreateRecordsFee` | tests/voting.test.ts:134-151 | after a creation, fee transfer i is still paid by proposal i's proposer |
| `Invariants.CreateProposalPreservesValid` | tests/voting.test.ts:132-151 | after a creation, ids are still 0..next-1, titles and ids still correspond one-to-one, the stored proposal is well formed, and fee transfer i is still paid by proposal i's proposer |
| `Invariants.VoteOnProposalPreservesValid` | tests/voting.test.ts:164-170 | votes still belong to proposals with positive weight, tallies stay non-negative, and each tally is still the total weight of the votes recorded for its choice |
| `Invariants.WeightRemove` | tests/voting.test.ts:164-168 | the total recorded weight does not depend on the order the votes are summed in: it is any one vote's contribution plus the total of the others |
| `Invariants.WeightInsert` | tests/voting.test.ts:164-168 | recording a new vote adds exactly its weight to the total of its proposal and choice, and nothing to any other total |
| `Invariants.WeightNoVotes` | tests/voting.test.ts:144-146 | with no vote recorded on a proposal, both of its totals are zero |
| `Invariants.WeightNonNegative` | tests/voting.test.ts:163-164 | votes of positive weight give non-negative totals |
| `Invariants.CreateKeepsTallies` | tests/voting.test.ts:136-149 | a new proposal's zero tallies match its empty set of votes, and other tallies are untouched |
| `Invariants.VoteKeepsTallies` | tests/voting.test.ts:164-170 | after a vote, each tally is still the total weight of the votes recorded for its proposal and choice |
| `Invariants.ExecuteKeepsTallies` | tests/voting.test.ts:183-185 | execution changes neither the votes nor any tally |
| `Invariants.UnvotedProposalHasZeroTallies` | tests/voting.test.ts:144-145 | in a valid ledger, a proposal with no recorded vote has both tallies at zero |
| `Invariants.VoteCountedInTally` | tests/voting.test.ts:164-168 | in a valid ledger, each recorded vote's weight is counted in full in the tally of its choice |
| `Invariants.ExecuteProposalPreservesValid` | tests/voting.test.ts:183-185 | the number of treasury transfers still equals the number of executed proposals |
| `Invariants.ExecuteAddsExecutedId` | tests/voting.test.ts:178-185 | a successful execution adds exactly its own, previously unexecuted, proposal to the executed ones |
| `Invariants.TitlesUnique` | tests/voting.test.ts:132-150 | no two stored proposals share a title |
| `Invariants.NextIdFree` | tests/voting.test.ts:124-151 | under the invariant every stored id is below the proposal cap and the next id is not yet used, so a creation never overwrites a proposal |
| `Invariants.ProposalCountIsSize` | tests/voting.test.ts:149-151 | the id counter equals the number of stored proposals |
| `Properties.ExistingTitleNeverCreated` | tests/voting.test.ts:132 | a title already indexed never yields a new proposal, and the ledger is unchanged |
| `Properties.DuplicateTitleRejected` | tests/voting.test.ts:132 | once the earlier checks pass, a duplicate title is reported as ProposalAlreadyExists whatever the other arguments |
| `Properties.VotingWindowHalfOpen` | tests/voting.test.ts:158 | for an existing proposal, a vote is refused as VotingClosed exactly when the height is outside [start, end) |
| `Properties.SecondVoteRejected` | tests/voting.test.ts:159-160 | after a successful vote, the same identity's next vote on that proposal fails whatever its choice and changes nothing; within the window it is AlreadyVoted |
| `Properties.ExecuteOnce` | tests/voting.test.ts:178 | after a successful execution, executing again at the same or a later height is ProposalExecuted and requests no further treasury transfer |
| `Properties.NoVoteAfterExecution` | tests/voting.test.ts:158 | after a successful execution, votes at the same or a later height are refused as VotingClosed |
| `Properties.ExecutionWaitsForEnd` | tests/voting.test.ts:177 | for an existing proposal, execution is VotingClosed exactly while the height is below the end height |
| `Properties.ApprovedMatchesRealQuorum` | tests/voting.test.ts:179-181 | the integer approval rule is the source's yes > (yes + no) * quorum / 100 over the reals |
| `Properties.ApprovedMatchesFloorQuorum` | tests/voting.test.ts:179-181 | the approval rule is also yes > floor((yes + no) * quorum / 100) |
| `Properties.NoYesVotesNeverApproved` | tests/voting.test.ts:179-181 | a proposal with no yes weight is never approved under a non-negative quorum |
| `Properties.UnanimousYesApproved` | tests/voting.test.ts:179-181 | positive yes weight with no no weight is approved under any quorum below 100 |
| `Properties.FullQuorumNeverApproved` | tests/voting.test.ts:179-181 | a quorum of 100 or more is never met by non-negative tallies, although setQuorumThreshold accepts 100 |
| `Properties.CreateErrorsExact` | tests/voting.test.ts:124-133 | each error means exactly one failure: MaxProposalsExceeded iff the cap is reached; InvalidTitle iff below the cap and the title is empty or over 100; and so on through InvalidDescription, InvalidProposalAmount, InvalidRecipient, InvalidVotingPeriod (a non-positive period), ProposalAlreadyExists and TreasuryNotSet, each iff its guard fails and every earlier one passes; success iff all eight pass |
| `Properties.VoteErrorsExact` | tests/voting.test.ts:156-163 | ProposalNotFound iff the id is not stored; VotingClosed iff it is stored and the height is outside [start, end); AlreadyVoted, GovTokenNotSet and InsufficientTokens each iff its guard fails and every earlier one passes; success iff all five pass |
| `Properties.ExecuteErrorsExact` | tests/voting.test.ts:175-182 | ProposalNotFound iff the id is not stored; VotingClosed iff it is stored and the height is below its end; ProposalExecuted, ProposalNotApproved and TreasuryNotSet each iff its guard fails and every earlier one passes; success iff all five pass |
| `Traces.EvolvesTransitive` | tests/voting.test.ts:117-187 | the allowed changes compose across calls |
| `Traces.ApplyEvolves` | tests/voting.test.ts:117-187 | one call of any operation other than reset only adds proposals, title entries and votes, grows tallies, sets `executed`, and appends to the logs |
| `Traces.CreateEvolves` | tests/voting.test.ts:134-151 | a creation leaves existing proposals, titles and votes as they were and appends to the fee log |
| `Traces.VoteEvolves` | tests/voting.test.ts:164-170 | a vote only grows one tally and adds one vote |
| `Traces.ExecuteEvolves` | tests/voting.test.ts:183-185 | an execution only sets `executed` and appends to the treasury log |
| `Traces.RunEvolves` | tests/voting.test.ts:117-187 | along any run of calls without reset, proposals and votes are never removed or rewritten, tallies never decrease, `executed` is never reset, and the logs only grow |
| `Traces.RunPreservesValid` | tests/voting.test.ts:98-191 | any run of calls without reset keeps the invariant |
| `Traces.ReachableValid` | tests/voting.test.ts:79-191 | every ledger reachable from the initial one (the state after construction or after any reset) satisfies the invariant |
| `Traces.RunCountsCreations` | tests/voting.test.ts:134-151 | the id counter and the fee log grow by exactly the number of successful creations in a run |
| `Traces.CreateReturnsCreationCount` | tests/voting.test.ts:135-152 | from the initial ledger, the n-th successful creation returns id n-1 |
| `VotingContract.VotingContractMock.constructor` | tests/voting.test.ts:75-77 | a new contract holds the initial ledger, at height 0, with the admin as caller and the admin holding 1000 tokens |
| `VotingContract.VotingContractMock.Reset` | tests/voting.test.ts:79-96 | restores the initial ledger and environment |
| `VotingContract.VotingContractMock.SetTreasuryContract` | tests/voting.test.ts:98-102 | result and new ledger are those of `Governance.SetTreasuryContract`; the invariant holds; height, caller and balances are unchanged |
| `VotingContract.VotingContractMock.SetGovTokenContract` | tests/voting.test.ts:104-108 | result and new ledger are those of `Governance.SetGovTokenContract`; the invariant holds |
| `VotingContract.VotingContractMock.SetQuorumThreshold` | tests/voting.test.ts:110-115 | result and new ledger are those of `Governance.SetQuorumThreshold`; the invariant holds |
| `VotingContract.VotingContractMock.CreateProposal` | tests/voting.test.ts:117-153 | the early-return chain returns what `Governance.CreateProposal` returns and leaves its ledger; the invariant holds |
| `VotingContract.VotingContractMock.VoteOnProposal` | tests/voting.test.ts:155-172 | the early-return chain returns what `Governance.VoteOnProposal` returns and leaves its ledger; the invariant holds |
| `VotingContract.VotingContractMock.ExecuteProposal` | tests/voting.test.ts:174-187 | the early-return chain returns what `Governance.ExecuteProposal` returns and leaves its ledger; the invariant holds |
| `VotingContract.VotingContractMock.GetProposalCount` | tests/voting.test.ts:189-191 | always succeeds, changes nothing, and returns the id counter; that counter is the number of stored proposals, whose ids are exactly 0 up to it |
| `Scenarios.Configured` | tests/voting.test.ts:203-204 | after the admin sets ST2TEST as treasury and ST3TEST as token contract, the ledger is the initial one with those two references and the environment is unchanged |
| `Scenarios.CreatesProposalSuccessfully` | tests/voting.test.ts:202-212 | the first proposal, "Scholarship1" for 500, gets id 0 and the only fee transfer is 100 from ST1TEST to ST2TEST |
| `Scenarios.RejectsDuplicateTitles` | tests/voting.test.ts:214-221 | a second "Scholarship1" is ProposalAlreadyExists |
| `Scenarios.RejectsProposalWithoutTreasury` | tests/voting.test.ts:223-228 | with only the token contract set, creating "NoTreasury" is TreasuryNotSet |
| `Scenarios.VotesOnProposalSuccessfully` | tests/voting.test.ts:230-239 | ST1TEST's yes vote at height 10 succeeds and proposal 0 has 1000 yes votes |
| `Scenarios.RejectsVoteAfterPeriod` | tests/voting.test.ts:241-249 | a vote at height 101, past the window [0, 100), is VotingClosed |
| `Scenarios.RejectsDoubleVote` | tests/voting.test.ts:251-260 | a second vote by ST1TEST at height 10 is AlreadyVoted |
| `Scenarios.ExecutesProposalSuccessfully` | tests/voting.test.ts:262-274 | after a unanimous yes, execution at height 101 succeeds, marks proposal 0 executed and the only treasury transfer is 500 to ST4RECIP |
| `Scenarios.RejectsExecutionBeforeEnd` | tests/voting.test.ts:276-284 | execution at height 50, before the end at 100, is VotingClosed |
| `Scenarios.RejectsExecutionIfNotApproved` | tests/voting.test.ts:286-296 | after a unanimous no, execution at height 101 is ProposalNotApproved |
| `Scenarios.SetsQuorumThresholdSuccessfully` | tests/voting.test.ts:298-302 | the admin's quorum of 60 succeeds and is stored |
| `Scenarios.RejectsInvalidQuorum` | tests/voting.test.ts:304-308 | a quorum of 101 is InvalidQuorumThreshold |
| `Scenarios.GetsProposalCountCorrectly` | tests/voting.test.ts:310-318 | after creating "Scholarship1" and "Scholarship2", the count is 2 |
| `Scenarios.WithScholarship` | tests/voting.test.ts:202-212 | after the admin sets ST2TEST and ST3TEST and creates "Scholarship1" at height 0, the ledger holds proposal 0 with window [0, 100) and one fee transfer of 100 from ST1TEST to ST2TEST |
| `Scenarios.WithVote` | tests/voting.test.ts:230-239 | a vote at height 10 by ST1TEST adds its 1000 tokens to the chosen tally |

## Left out

- The vitest harness (`describe`, `it`, `expect`, `beforeEach`) is not modelled. Neither are the unused `@stacks/transactions` imports. The scenarios become the methods of module `Scenarios`.
- No tokens or STX move. The fee and treasury transfers are only logged requests. Token balances are an input map in `Env`, because the source never changes them itself.
- JavaScript numbers are modelled as unbounded integers. Fractional amounts, periods or balances, `NaN`, and precision loss above 2^53 are not modelled.
- Title and description lengths are sequence lengths. UTF-16 code-unit counting is not modelled.
- Votes are keyed by the pair (proposal id, voter). The source keys them by the string `"<id>-<voter>"`. For the non-negative integer ids that can reach that line, the two keyings tell the same votes apart.
- The `status` field is not modelled. It is written once and never read.
- The guard `start < blockHeight` in createProposal's period check can never fail, because `start` is the height itself. It is kept in the check list for fidelity, so with unbounded integers only a non-positive period gives InvalidVotingPeriod.
- The source's ability to assign `state` or its maps directly, bypassing the operations, is not modelled. The scenarios assign only `blockHeight`. Such assignments can break `Valid()`.
