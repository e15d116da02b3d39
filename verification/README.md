# A verified model of the interchain multiplexer

One consensus engine drives a provider application and any number of consumer applications. This
project models the three parts that decide what each of them sees, and proves what they promise.

**The multiplexer** (`abci/abci.go`, `abci/multiplexer.go`, `abci/header.go`). A block's transactions
are split by their `ICS:<id>:` header, each chain's share is sent to it in its own goroutine, and the
replies, which arrive in any order, are put back at the transactions' positions. `Mux` says what one
ABCI call does to the four routing fields, to the calls each consumer has received, and to the reply;
`Multiplexer` is the object whose methods do it step by step; `FanOut` is the goroutines, the
buffered channel and the closer under an arbitrary scheduler; `Routing` is the scatter and gather.
`Demux` and `Outcomes` say what all this comes to on the bytes of the transactions and the answers of the
applications: who is asked what, which verdicts, results, hashes, events and calls follow, and what is left behind.
`MuxRuns` proves the call discipline over whole runs, `Tallies` and `Confluence` what does and does not
depend on scheduling, `Isolation` and `Noninterference` that a faulty consumer changes nothing for the others,
in one block and over whole runs, `Replicas` and `Divergence` when two processes agree on a block and runs in which
they do not, `Completeness` when every transaction gets a result.

**The provider module** (`modules/provider/keeper`, `modules/provider/module/abci.go`). `Provider` is
the ledger and its transitions, `Keeper` the object that performs them on its store, including the
walk that writes the store it is walking. `Fees`, `Distribution` and `ProRata` say what a block's fee
collection and payout do, `Lifecycle` what every run of messages and blocks keeps, `Genesis` how
import and export undo each other.

**The codec** between the two (`modules/provider/types/provider.pb.go` and `query.pb.go`). `Varint`,
`Wire`, `ChainCodec` and `QueryCodec` hold the back-to-front writers and the parsers as array and
index programs, each proved against a forward description of the format of the Protocol Buffers
encoding guide (base 128 varints, message structure, length-delimited records), and the round trips.
`Format` states what is written and read by field number and type alone, and `Grammar` that the parsers
accept exactly the lists of well-formed fields.

`ActiveSet` and `ActiveRuns` join the three: from the store, through filter, marshal, unmarshal and
dispatch, a block reaches exactly the chains that are ACTIVE in the queried store: after a fee-charging
BeginBlocker, those that paid and that no message has ended since. The ledger is whichever one the
provider answers the query from, so long as it is reached by messages and transfers after a
BeginBlocker.

How to read the results. Methods of the classes are proved equal to specification functions
(`View() == ...`); the theorems are lemmas about those functions, over all inputs, all runs or all
schedules. Applications are oracles: any error, any status, result lists of any length, any order of
arrival. The bank is a map from account and denomination to a balance, and a transfer fails iff funds
are short.

Assumptions, stated as preconditions where they are used: the provider's ID is not a configured
consumer; the module-address derivation is injective and address formatting is undone by parsing
(`Provider.GoodEnv`); fees per block are not negative, as `Params.Validate` requires; slices are no
longer than the largest int.

What the proofs bring out about the code as it stands:

- No message and no block makes a PENDING chain ACTIVE (`Lifecycle.RunInvariant`): only a chain that was
  ACTIVE or OVERDUE in the first ledger is ever charged or sent a block
  (`ActiveRuns.OnlyBilledChainsRun`). The source marks the activation as still to be done.
- Which refusal `ProcessProposal` reports depends on the order of arrival exactly when the provider
  refuses and some other chain errs (`Confluence.VerdictsAgreeIff`), and so does the rejected set a
  refused proposal leaves whenever a consumer refuses (`Confluence.RejectedAgreeIff`). A proposal with a
  malformed header is rejected before that set is cleared, so it stays as it was.
- A block's reply is not a function of the committed state. It depends on the consumers rejected in the
  last proposal the process has seen; when the query fails, on the last active set it was told; and, for
  a consumer that is yet to start, on the validators and parameters it holds, which after a restart are
  those of the genesis document and not what the provider answered to InitChain (`MuxRuns.SameLaunch`
  covers one run of a process only). Two processes agree iff every chain is sent the block by both or by
  neither and no transaction is addressed to a chain only one of them rejects
  (`Replicas.ReplicasAgreeIff`); for a restart the condition is spelled out in
  `Replicas.RestartTransparentIff`. `Divergence.RejectionMatters`, `Divergence.UnansweredMatters` and
  `Divergence.LaunchMatters` are runs after which a restarted process does not agree with one that kept
  running, one for each of the three.
- The response to `Commit`, and so the height the engine retains, is that of the consumer the map
  iteration reaches last; it is settled iff all that answer give the same (`Confluence.RetainedAgreeIff`).
- Not every transaction gets a result: exactly when it does is `Completeness.EveryTxAnsweredIff`, and
  `Completeness.OneTxLeftOpen` is a block in which it does not.
- A created header parses back iff the chain ID holds no colon (`Header.HeaderRoundTrip`).
- When the provider's query fails, a block is sent to exactly the chains in good standing that were ACTIVE
  at the last answered query (`ActiveRuns.SentIff`), so also to one sunset since
  (`Divergence.StaleDispatch`); it reaches only chains still ACTIVE iff all of those still are
  (`ActiveRuns.ReachesOnlyActiveIff`).

## Model

| member | source | states |
|---|---|---|
| `MuxRuns.CallDiscipline` | abci/abci.go:224-411 | in every run under the ABCI call grammar, at every moment and for every consumer: its FinalizeBlock and Commit calls form a prefix of (FinalizeBlock, Commit)*, every FinalizeBlock comes after a successful InitChain or an Info reply that showed state, and there is at most one such success |
| `MuxRuns.RunInvariant` | abci/abci.go:61-411 | in every reachable state rejected chains are initialized, initialized chains are registered, the provider is none of them, each consumer is in the protocol phase its trace says, and the initialized set never shrinks |
| `MuxRuns.CommitMatchesFinalize` | abci/abci.go:263-411 | the consumers whose trace grows by Commit at a height are exactly those whose trace grew by FinalizeBlock, with their own transactions, including those whose FinalizeBlock returned an error |
| `MuxRuns.DispatchedAreCommitted` | abci/abci.go:386-400 | right after dispatch, the set Commit will be sent to equals the set FinalizeBlock was sent to |
| `MuxRuns.BlockOutcome` | abci/abci.go:224-375 | FinalizeBlock either fails and leaves every field and trace as it was, or dispatches: no error return comes after the first consumer has been called |
| `MuxRuns.SameLaunch` | abci/abci.go:73-106 | within one run of a process, every InitChain a consumer ever receives, at genesis or on becoming active later, names that consumer and carries the validators and parameters the provider answered to the engine's InitChain, or those of the genesis document if the process saw none |
| `MuxRuns.FinalizedBelowHalt` | abci/multiplexer.go:353-361 | no run finalizes a block at or past the halt height or time, with the exact effect of the two integer conversions on negative heights and on halt times past the int64 range |
| `MuxRuns.BlocksAlternate` | abci/abci.go:224-411 | a trace accepted by the phase automaton alternates FinalizeBlock and Commit |
| `MuxRuns.OneSuccess` | abci/multiplexer.go:529-571 | a trace accepted by the phase automaton has at most one successful initialization |
| `MuxRuns.SuccessBeforeBlock` | abci/abci.go:296-304 | in an accepted trace each FinalizeBlock has a successful initialization before it |
| `MuxRuns.InitStep` | abci/abci.go:61-136 | InitChain keeps the run invariant |
| `MuxRuns.ProposalStep` | abci/abci.go:143-222 | ProcessProposal, whatever its verdict and order of arrival, keeps the run invariant |
| `MuxRuns.BlockStep` | abci/abci.go:224-375 | FinalizeBlock keeps the run invariant |
| `MuxRuns.CommitStep` | abci/abci.go:377-411 | Commit keeps the run invariant |
| `Noninterference.Noninterference` | abci/abci.go:61-411 | two runs with the same engine calls and the same applications except consumer x: at any block at which the last well-formed proposal was accepted in both, whatever was refused before, the replies are equal errors or responses that differ only in x's own results and app-hash segment, and every other chain is handed the same transactions and receives the same calls |
| `Noninterference.StatesAlike` | abci/abci.go:61-411 | at every moment of two such runs, refused proposals included, they agree on who is registered, active and, but for x, initialized; they agree on who but x is rejected once a well-formed proposal is accepted in both; and every other chain has received exactly the same calls if every block came at such a moment |
| `Noninterference.BlockCore` | abci/abci.go:285-314 | even where the rejected sets differ, a block keeps the active and initialized sets of two such runs alike but for x |
| `Isolation.FaultIsolation` | abci/abci.go:224-375 | one block, from states that agree but for x: both calls fail alike or both succeed; results of transactions not addressed to x and validator and consensus-param updates agree; every other chain is handed the same transactions, receives the same calls and gives the same reply; the app hashes are a common text, x's own segment, a common text |
| `Isolation.HashSegments` | abci/abci.go:362-371 | the combined app hash is the hash of the smaller chain IDs, the chain's own segment (empty if it did not answer), and the hash of the greater ones |
| `Isolation.ResultOff` | abci/abci.go:321-356 | the result at an index depends on x only if the transaction there is addressed to x |
| `Noninterference.ProposalAlike` | abci/abci.go:143-222 | whatever the verdicts on a proposal in two such runs, every other chain is asked about the same transactions, and the rejected sets agree but for x if it is accepted in both |
| `Noninterference.VerdictDiffersIff` | abci/abci.go:200-222 | acceptance differs between two such runs iff the proposal parses, the provider does not refuse, no chain but x errs, and x is called and errs in exactly one of them |
| `Demux.BlockShareIff` | abci/abci.go:231-261 | a chain is handed, of a block, exactly the transactions that read ICS:, its ID, a colon and a payload, in order and without that header, if it is not rejected and is the provider or registered, and nothing otherwise; the positions are where those transactions stand |
| `Demux.BlockIndices` | abci/abci.go:231-261 | an index is in a chain's list iff its transaction is for that chain and the chain takes it, in the skipped list iff it parses and is in no chain's, and the block is refused iff some transaction does not parse |
| `Demux.PicksOnce` | abci/abci.go:231-261 | the transactions alone determine what a chain is handed and from which positions |
| `Demux.CalledIff` | abci/abci.go:144-166 | a chain is asked about a proposal iff a transaction is for it and it is the provider, or registered and initialized |
| `Demux.ProposalVerdict` | abci/abci.go:143-222 | the verdict, in terms of what each chain answers to exactly its own transactions: rejected with no effect if one does not parse; accepted iff no chain that is asked errs and the provider, if asked, accepts; otherwise an error only if a chain errs, and a status only if it is the provider's |
| `Demux.ProposalEffect` | abci/abci.go:168-221 | each consumer that is asked gets one call with exactly its transactions, headers removed, and the others none; who is rejected answered something else than ACCEPT, and after acceptance all who did are |
| `Outcomes.InitReplyMeans` | abci/abci.go:64-135 | the reply of InitChain: the provider's validators and parameters, and one app-hash part per chain in byte order of the IDs: the provider's hash, and the answer of each registered consumer that loads a genesis and answers the request with its ID, the engine's time and height, the provider's validators and parameters and its own genesis state; nobody else has a part |
| `Outcomes.InitState` | abci/abci.go:73-119 | the launch data kept, who counts as initialized, and the one call each consumer with a genesis receives |
| `Outcomes.InitFails` | abci/abci.go:64-67 | InitChain fails iff the provider does, and then nothing has happened |
| `Outcomes.BlockVerdict` | abci/abci.go:224-266 | every outcome of FinalizeBlock in the order of the checks: halt, the first transaction that does not parse, the provider's error on the transactions it is handed, or a reply with the provider's validator and parameter updates; only a reply changes the state |
| `Outcomes.HaltIff` | abci/multiplexer.go:353-361 | when the node halts, with both integer conversions written out |
| `Outcomes.BlockCalls` | abci/abci.go:268-314 | what an answered block leaves of the active and initialized sets and each chain's calls: the opening, and one FinalizeBlock with exactly its transactions iff it is listed by the query (or, unanswered, was active), not rejected, registered and initialized before or now |
| `Outcomes.OpeningCalls` | abci/multiplexer.go:529-571 | before its first block a chain is asked for its Info and, if that shows neither height nor hash and its genesis loads, to start at the block's height and time |
| `Outcomes.ActiveIff` | abci/multiplexer.go:491-525 | the active set is the IDs listed in the response if the height is above 1, the query succeeded with code 0 and its value decodes, and is kept otherwise |
| `Outcomes.HandedResult` | abci/abci.go:331-356 | the result of the j-th transaction a chain was handed stands where that transaction stood, or nothing if the chain did not reply or replied with fewer |
| `Outcomes.SkippedResult` | abci/abci.go:338-343 | a transaction that no chain takes gets code 1 and the skip text |
| `Outcomes.BlockHash` | abci/abci.go:328-371 | the app hash of a block is one part per chain that replied, in byte order of the IDs |
| `Outcomes.BlockEvents` | abci/abci.go:329-372 | the events are the provider's followed by those of each reply, in the order of arrival |
| `Outcomes.CommitCalls` | abci/abci.go:377-400 | exactly which chains a Commit reaches, and that it changes nothing else |
| `Outcomes.RetainedLast` | abci/abci.go:377-411 | the response kept is that of the last committing chain that answers, or the provider's |
| `Confluence.AcceptIff` | abci/abci.go:143-222 | ACCEPT is returned iff every header parses, no called chain errs and the provider accepts if it has transactions, in every order of arrival; then the rejected set is exactly the called consumers that did not accept |
| `Confluence.VerdictsAgreeIff` | abci/abci.go:143-222 | all orders in which the called chains can arrive give the same verdict iff a header does not parse, or it is not the case that the provider refuses and some chain errs |
| `Tallies.OutcomesAreOrders` | abci/abci.go:200-222 | the outcomes the specification allows for a proposal are exactly those the collecting loop reaches for some order of arrival |
| `Tallies.TallyMeans` | abci/abci.go:203-221 | for any order: the loop stops at the first chain that errs or is a refusing provider, reports just that, has noted exactly the refusers before it, and accepts iff nothing stops it |
| `Confluence.EventsAgree` | abci/abci.go:321-374 | two executions of the same FinalizeBlock have the same events as a multiset, and both lists start with the provider's |
| `Confluence.EventsShuffle` | abci/abci.go:346-360 | two orders of arrival of the same chains give the same multiset of events |
| `Confluence.RejectedAgreeIff` | abci/abci.go:143-222 | all orders of arrival leave the same rejected set iff a header does not parse, the proposal is accepted, or no consumer refuses |
| `Replicas.ReplicasAgreeIff` | abci/abci.go:224-411 | exactly when two processes with the same configured chains, and any rejected, active and initialized sets and launch data, agree on a block: they answer alike and commit the same chains iff every chain is sent it by both or by neither and no transaction is addressed to a chain only one of them rejects; if they fail they fail alike |
| `Replicas.AnsweredAlikeIff` | abci/abci.go:268-314 | between processes whose started chains all show state to Info and which would start the others alike, an answered query above height 1 sends the block to the same chains iff no chain only one of them rejects is active |
| `Replicas.RestartTransparentIff` | abci/multiplexer.go:189-223 | a process restarted with the launch data of the genesis document answers and commits like one that kept running iff no transaction is addressed to a chain the running one rejects and, with an answered query, the restarted one initializes exactly the active chains the running one sends the block to, or, without one, the running one sends it to nobody |
| `Replicas.RestartSentIff` | abci/multiplexer.go:527-571 | the second half of that condition holds iff both processes send the block to the same chains |
| `Divergence.RejectionMatters` | abci/abci.go:200-218 | a run in which an active consumer refuses the accepted proposal of the next block, after which the running process and a restarted one disagree on that block |
| `Divergence.UnansweredMatters` | abci/abci.go:268-314 | a run with nobody rejected after which, the query of the next block failing, the running process and a restarted one disagree on that block |
| `Divergence.LaunchMatters` | abci/multiplexer.go:189-223 | a run with nobody rejected after which, the query answered, a newly active consumer starts with the validators the provider answered to InitChain in the running process and refuses those of the genesis document in a restarted one |
| `Replicas.FailAlike` | abci/abci.go:224-266 | two such processes both answer, or fail with the same error |
| `Completeness.EveryTxAnsweredIff` | abci/abci.go:321-360 | every transaction of an answered block has a result iff every chain that is handed transactions is sent the block, answers without an error, and with enough results |
| `Completeness.TableFullIff` | abci/abci.go:321-360 | the result table is full iff every chain with a transaction has replied with at least as many results |
| `Completeness.OneTxLeftOpen` | abci/abci.go:285-360 | a first block of one transaction, for a registered chain that is not active, is answered and leaves the transaction without a result |
| `Completeness.InactiveLeftOpen` | abci/abci.go:285-360 | the transaction of a registered, unrejected, inactive chain never gets a result |
| `Multiplexer.Multiplexer.constructor` | abci/multiplexer.go:102-128 | a new multiplexer has no handler and nothing active, rejected or initialized |
| `Multiplexer.Multiplexer.InitChainHandlers` | abci/multiplexer.go:226-249 | succeeds iff every connection opens and the configured IDs are new and distinct, and then registers exactly them; on failure those before the offending one |
| `Multiplexer.Multiplexer.InitChain` | abci/abci.go:61-136 | state, combined hash and the provider's validators and parameters in the response are the same function of the call for every order of arrival; each consumer is asked with its own ID and genesis state and those validators and parameters; a provider error changes nothing |
| `Multiplexer.Multiplexer.CollectInit` | abci/abci.go:114-122 | for every order of arrival, initialized grows by exactly the chains that loaded a genesis and answered, and the hashes are the provider's and theirs |
| `Multiplexer.Multiplexer.ProcessProposal` | abci/abci.go:143-222 | the verdict and the new state are among those the relation allows; acceptance and its effect are determined |
| `Multiplexer.Multiplexer.SortProposal` | abci/abci.go:146-166 | parses iff no header is bad, and then every called chain has exactly its payloads in block order |
| `Multiplexer.Multiplexer.CollectVerdict` | abci/abci.go:200-222 | verdict and rejected set are those of the loop over the results in the given order of arrival |
| `Multiplexer.Multiplexer.InitChainIfNeeded` | abci/multiplexer.go:529-571 | no call for an initialized chain; else Info, then genesis and InitChain, with the stored validators and parameters and the block's time and height, unless Info shows state; the hash returned, and initialized grows iff there is no error |
| `Multiplexer.Multiplexer.UpdateActiveChains` | abci/multiplexer.go:574-599 | the active set becomes the set of decoded IDs; on any error it stays |
| `Multiplexer.Multiplexer.DispatchAll` | abci/abci.go:282-314 | for every iteration order of the active map: who is dispatched and with which transactions, who becomes initialized, and which calls each consumer receives |
| `Multiplexer.Multiplexer.SortBlock` | abci/abci.go:231-258 | the first bad index, or the payload and position lists of every chain and the skipped indices |
| `Multiplexer.Multiplexer.FinalizeBlock` | abci/abci.go:224-375 | for every map iteration and arrival order: results, app hash, updates and new state are one function of the call; the events are the provider's followed by each answering consumer's, once, in some order |
| `Multiplexer.Multiplexer.Gather` | abci/abci.go:321-360 | filling the result array in place as replies arrive, in any order, gives the table of all replies, their hashes, and their events in that order |
| `Multiplexer.Multiplexer.WriteProvider` | abci/abci.go:330-343 | the provider's results and the skip markers are in place before the first consumer is collected |
| `Multiplexer.Multiplexer.Commit` | abci/abci.go:377-411 | exactly the active, initialized, unrejected, registered consumers are committed, each once in some order, none if the provider fails; the response is that of the last of them that answers, else the provider's |
| `Confluence.RetainedAgreeIff` | abci/abci.go:386-408 | all iteration orders give the same Commit response iff the committing consumers that answer all give the same one |
| `Multiplexer.CombineSorted` | abci/abci.go:362-371 | the hash is independent of the map iteration order |
| `FanOut.FanOutCompletes` | abci/abci.go:282-360 | for any set of chains and any scheduler: at most 3n + 2 steps; at every moment a running goroutine can send at once, even after an early return; when nothing more can happen all is closed, and a handler that listened has exactly one result from each goroutine started |
| `FanOut.EverySchedule` | abci/abci.go:282-360 | the same from any state that keeps the accounting, with the fuel as the bound |
| `FanOut.SendNeverBlocks` | abci/abci.go:174-206 | a running goroutine can always send, whether or not the handler has returned early: no goroutine leaks |
| `FanOut.StepInv` | abci/abci.go:282-319 | every interleaved step keeps the accounting: each chain is still to come, running, or has sent once |
| `FanOut.Progress` | abci/abci.go:314-360 | no deadlock: until all is finished some step other than an early return can be taken |
| `FanOut.StepBurns` | abci/abci.go:314-360 | every step uses up fuel, so no schedule is infinite |
| `FanOut.Collect` | abci/abci.go:282-319 | under a scheduler that picks any enabled step, every dispatched chain arrives exactly once |
| `Routing.PositionSound` | abci/abci.go:231-258 | a chain's j-th position holds the j-th transaction routed to it, and the positions are strictly increasing |
| `Routing.PositionComplete` | abci/abci.go:231-258 | every transaction is in its own route's list, at its rank |
| `Routing.OneOwner` | abci/abci.go:231-258 | an index is in the list of a route iff that is its route: no index has two owners |
| `Routing.Aligned` | abci/abci.go:256-257 | payload lists run parallel to position lists |
| `Routing.ScatterAt` | abci/abci.go:331-356 | what writing one reply does at any index: the rank-th result if the index is the route's and the list is long enough, else nothing |
| `Routing.ScatterReply` | abci/abci.go:352-356 | writing a reply into the table of some repliers gives the table with one more replier |
| `Routing.ScatterMarks` | abci/abci.go:338-343 | writing the skip markers marks exactly the skipped indices |
| `Routing.WriteResults` | abci/abci.go:352-356 | the in-place loop over positions and a possibly shorter or longer result list |
| `Routing.MarkSkipped` | abci/abci.go:338-343 | the in-place loop over the skipped indices |
| `Routing.GroupAppend` | abci/abci.go:236-258 | one turn of the demultiplexing loop keeps the maps equal to the lists read off the routes so far |
| `Header.ParseHeaderIff` | abci/header.go:23-43 | parsing yields (id, payload) iff the input is ICS:, the id, a colon and the payload, with no colon in the id |
| `Header.HeaderRoundTrip` | abci/header.go:14-43 | a created header parses back to its ID iff the ID holds no colon |
| `ActiveSet.QueryAgrees` | abci/multiplexer.go:491-525 | filter, marshal, unmarshal and collect IDs: what the multiplexer decodes is exactly the set of IDs with status ACTIVE in the queried store |
| `ActiveSet.DispatchedAreActive` | abci/abci.go:268-314 | above height 1 and with the query answered, a chain is sent the block iff it is ACTIVE in that store, registered, not rejected and initialized by then |
| `ActiveSet.DispatchedIffPaid` | modules/provider/module/abci.go:16-47 | after a BeginBlocker that charges a fee and any messages and transfers that follow it, a registered, initialized, unrejected chain is sent the block answered from that ledger iff it was ACTIVE or OVERDUE, its account covered the fee, and no message has ended it since |
| `ActiveSet.ActiveSinceStart` | modules/provider/module/abci.go:49-54 | over any run of messages, blocks and transfers, every chain ACTIVE at the end was ACTIVE or OVERDUE at the start |
| `ActiveRuns.ActiveSource` | abci/multiplexer.go:574-599 | in every reachable state the active set is empty, if no block has refreshed it, or what the last block that did was answered |
| `ActiveRuns.DispatchedWereActive` | abci/abci.go:268-314 | every chain a block is sent to, its own query answered or not, was ACTIVE in the ledger of the last answered query |
| `ActiveRuns.SentIff` | abci/abci.go:268-314 | exactly which consumers an answered block is sent to, its own query answered or not: those ACTIVE in the ledger of the last answered query, registered, not rejected, and initialized by then; none before any answered query |
| `ActiveRuns.ReachesOnlyActiveIff` | abci/abci.go:268-314 | a block reaches only chains ACTIVE in a given later ledger iff every chain in good standing that was ACTIVE at the last answered query still is there |
| `Divergence.StaleDispatch` | abci/abci.go:268-314 | for any chain ACTIVE in any ledger: a run in which it is sunset after a block, the next block's query fails, and that block is sent to it all the same |
| `ActiveRuns.OnlyBilledChainsRun` | abci/abci.go:224-375 | in a joint run of the multiplexer and the provider's ledger, a consumer that was ever sent a block was ACTIVE or OVERDUE in the ledger at the start: a chain added by message is never sent one |
| `ActiveRuns.NewBlock` | abci/abci.go:306-313 | a consumer's trace gains a FinalizeBlock call exactly at the answered blocks that are sent to it |
| `ActiveSet.FilteredIds` | modules/provider/keeper/query.go:85-107 | the filter keeps exactly the ACTIVE chains, each under its own ID |
| `ActiveSet.ActiveListed` | modules/provider/keeper/query.go:85-107 | the query lists every ACTIVE entry of the store once, in key order |
| `Distribution.BeginBlockPays` | modules/provider/module/abci.go:16-47 | every account after a block that pays its validators, in every denomination: what it had, less the fee if it is a paying chain's, plus what the validators it operates are owed out of the block's revenue, plus the dust if it is the collector |
| `Distribution.OwedMeans` | modules/provider/keeper/keeper.go:177-190 | the operator of one validator is owed the fees times that validator's own power over the total power, rounded down |
| `Distribution.BeginBlockUnpaid` | modules/provider/keeper/keeper.go:155-175 | if the validators are unknown or have no power nobody is paid and the revenue stays with the collector |
| `Distribution.BeginBlockStatuses` | modules/provider/module/abci.go:16-47 | the store after any block: with a fee, an ACTIVE or OVERDUE chain becomes ACTIVE or OVERDUE as its balance covers it, and nothing else changes; with a fee of zero or no parameters nothing changes |
| `Fees.CollectEffect` | modules/provider/keeper/keeper.go:115-152 | charging the live store key by key, in any order without repetitions, equals one simultaneous charge of the store as it was: statuses, total, one debit for each payer, one credit of the total, no error, nothing else |
| `Fees.CollectOrder` | modules/provider/keeper/keeper.go:78-82 | any two visiting orders give the same statuses, total and balances |
| `Fees.ActiveAfterCollect` | modules/provider/keeper/keeper.go:114-152 | after the pass ACTIVE is exactly the formerly ACTIVE or OVERDUE chains whose balance covered the fee, and the total is the fee times their number |
| `Fees.ChargeCases` | modules/provider/keeper/keeper.go:118-149 | the balance checked under the stored address guarantees that the transfer by module name is funded |
| `Fees.LaterChains` | modules/provider/keeper/keeper.go:117-150 | charging one chain changes neither the solvency, the bill nor the balance of the chains still to be visited |
| `Distribution.PayNeverShort` | modules/provider/keeper/keeper.go:154-200 | with the shares in the collector no send in the loop is short of funds; the loop fails only on an operator address that does not parse |
| `Distribution.PayEffect` | modules/provider/keeper/keeper.go:177-197 | every account receives exactly the sum of its validators' shares, and the collector gives up their total |
| `Distribution.PayConserves` | modules/provider/keeper/keeper.go:177-197 | the payout loop, finished or not, keeps the supply and touches one denomination |
| `Distribution.CollectConserves` | modules/provider/keeper/keeper.go:115-152 | collection, finished or not, keeps the supply of every denomination |
| `Distribution.BeginBlockConserves` | modules/provider/module/abci.go:16-47 | a BeginBlocker, successful or not, keeps the supply of every denomination and moves only the fee denomination |
| `Distribution.BeginBlockErrors` | modules/provider/module/abci.go:16-47 | exactly when a BeginBlocker fails and with which error; the store invariant is kept in every case |
| `Distribution.BeginBlockDust` | modules/provider/module/abci.go:16-47 | the fee collector gains revenue minus the shares: at least 0 and less than the number of validators with power |
| `Distribution.RunConserves` | modules/provider/module/abci.go:16-47 | any sequence of BeginBlockers keeps the total supply of every denomination |
| `Distribution.RunDust` | modules/provider/module/abci.go:16-47 | after k blocks that can pay their validators the collector has gained between 0 and the sum of (n_i - 1) |
| `Distribution.BeginBlockLeaves` | modules/provider/module/abci.go:16-47 | any block, failing or not, leaves between nothing and its bound in the collector: one unit less than the number of validators if they can be paid, its revenue if not |
| `Lifecycle.DustOverRuns` | modules/provider/module/abci.go:16-47 | over any run of messages, blocks and transfers that leave the collector alone, fee changes included and in every denomination, the collector gains between 0 and the sum of its blocks' bounds |
| `ProRata.SharesBound` | modules/provider/keeper/keeper.go:167-188 | the truncated shares sum to at most the fees and fall short by less than the number of validators with positive power |
| `ProRata.ShareMonotone` | modules/provider/keeper/keeper.go:185-187 | more power, no smaller share; equal power, equal share |
| `ProRata.CutOff` | modules/provider/keeper/keeper.go:185-187 | what the truncating divisions cut off, exactly, times the total power |
| `Bank.SendEffect` | modules/provider/types/expected_keepers.go:20-31 | a transfer moves the amount between the two accounts and touches no other balance |
| `Bank.SendConserves` | modules/provider/types/expected_keepers.go:20-31 | a transfer keeps the supply of every denomination |
| `Provider.AddressesDistinct` | modules/provider/types/keys.go:32-34 | no two consumers share a module account and none has the fee collector's |
| `Lifecycle.RunInvariant` | modules/provider/keeper/msg_server.go:25-231 | over every run of messages, BeginBlockers and transfers: keys equal IDs, addresses are the derived ones, no entry is deleted, every entry evolves by the status machine, and new entries never become ACTIVE or OVERDUE |
| `Lifecycle.ApplyStep` | modules/provider/keeper/msg_server.go:25-231 | every operation keeps the store invariant and changes existing entries only as the status machine allows |
| `Lifecycle.EndedForever` | modules/provider/keeper/msg_server.go:142-205 | a SUNSET or REMOVED chain keeps its entry for ever, is never charged again, and cannot be sunset or upgraded |
| `Lifecycle.SunsetIsFinal` | modules/provider/keeper/msg_server.go:117-173 | SunsetConsumer succeeds iff the authority signed, the ID is stored and not ended, and the height is not negative; and over any later run the entry is REMOVED (height reached) or SUNSET at the requested height and otherwise as it was |
| `Lifecycle.AddedChainStays` | modules/provider/keeper/msg_server.go:47-115 | AddConsumer succeeds iff the authority signed, the ID is new and not empty and the height is in the future and not negative; and over any later run the entry keeps its requested name, version, start height and derived account, and is PENDING, SUNSET or REMOVED |
| `Lifecycle.UpgradeChangesNothing` | modules/provider/keeper/msg_server.go:175-231 | an upgrade changes no stored chain |
| `Lifecycle.UpgradeAccepted` | modules/provider/keeper/msg_server.go:175-231 | an upgrade is accepted iff the authority signed it, ID and version are not empty, the height is in the future and the stored chain is PENDING, ACTIVE or OVERDUE |
| `Lifecycle.ParamsSource` | modules/provider/keeper/msg_server.go:25-45 | over every run the parameters are those of the last update signed by the authority with nothing negative in it, or the first ones |
| `Lifecycle.MessageFrame` | modules/provider/keeper/msg_server.go:25-231 | a refused message changes nothing; an accepted one leaves the other chains, the other accounts, the balances and, but for the update, the parameters as they were |
| `Lifecycle.RunSupply` | modules/provider/keeper/msg_server.go:25-231 | no run of messages, blocks and transfers creates or destroys money |
| `Genesis.Validate` | modules/provider/types/genesis.go:13-41 | the duplicate-detecting loop returns the first offence in list order, and accepts iff there is none |
| `Genesis.AcceptableMeans` | modules/provider/types/genesis.go:13-41 | accepted iff parameters are not negative, IDs are distinct and nonempty, heights are not negative |
| `Genesis.GenesisRoundTrip` | modules/provider/keeper/genesis.go:11-58 | import then export gives the same parameters and the same chains in key order with derived addresses; erasing those and importing again rebuilds the store |
| `Genesis.Reimport` | modules/provider/keeper/genesis.go:11-58 | any good store is rebuilt by importing its export with the addresses erased |
| `Genesis.InitEffect` | modules/provider/keeper/genesis.go:17-32 | import adds exactly the listed chains with derived addresses |
| `Genesis.InitKeepsInvariant` | modules/provider/keeper/genesis.go:17-32 | import keeps the store invariant however far it gets, and fails iff some address is filled in |
| `Genesis.InitStops` | modules/provider/keeper/genesis.go:17-21 | the import stops at the first chain whose address is filled in, with those before it imported |
| `Genesis.InitAccounts` | modules/provider/keeper/genesis.go:17-32 | the import makes the account of every listed chain and no other |
| `Genesis.ExportLists` | modules/provider/keeper/genesis.go:47-52 | the export lists every stored chain once, in key order |
| `Keeper.Keeper.constructor` | modules/provider/keeper/keeper.go:34-70 | an empty store is valid |
| `Keeper.Keeper.CreateConsumerAccount` | modules/provider/keeper/keeper.go:95-112 | the account is there afterwards and the result is its formatted address |
| `Keeper.Keeper.ChargeConsumer` | modules/provider/keeper/keeper.go:117-150 | one callback on the live store, with its error cases |
| `Keeper.Keeper.CollectFeesFromConsumers` | modules/provider/keeper/keeper.go:115-152 | the walk that writes while it iterates, by cursor, equals the fold over a snapshot of the keys, and no key appears or disappears |
| `Keeper.Keeper.DistributeFeesToValidators` | modules/provider/keeper/keeper.go:155-200 | the two loops over the validators refine the payout whose shares are bounded and funded |
| `Keeper.Keeper.BeginBlocker` | modules/provider/module/abci.go:16-47 | collection and distribution in sequence with the early returns; the store invariant is kept |
| `Keeper.Keeper.UpdateParams` | modules/provider/keeper/msg_server.go:25-45 | refines the message's transition and keeps the invariant |
| `Keeper.Keeper.AddConsumer` | modules/provider/keeper/msg_server.go:47-115 | refines the message's transition, in the order of its checks, and keeps the invariant |
| `Keeper.Keeper.SunsetConsumer` | modules/provider/keeper/msg_server.go:117-173 | refines the message's transition: REMOVED at or below the current height, else SUNSET; keeps the invariant |
| `Keeper.Keeper.UpgradeConsumer` | modules/provider/keeper/msg_server.go:175-231 | refines the message's transition and keeps the invariant |
| `Keeper.Keeper.InitGenesis` | modules/provider/keeper/genesis.go:11-35 | the import loop refines the fold the round trip is about, for any genesis; every stored entry is good however far it gets |
| `Keeper.Keeper.ExportGenesis` | modules/provider/keeper/genesis.go:38-58 | the walk lists the store in key order; an error without parameters |
| `Keeper.Keeper.Walk` | modules/provider/keeper/keeper.go:78-92 | a cursor walk visits every entry once in key order |
| `Keeper.Keeper.ActiveConsumerChains` | modules/provider/keeper/query.go:85-107 | the walk with the filter refines the list QueryAgrees is about |
| `Keeper.NextKey` | modules/provider/keeper/keeper.go:78-82 | the least key past the cursor is next, and moving the cursor to it leaves the remaining keys |
| `Format.ChainWritten` | modules/provider/types/provider.pb.go:267-316 | without reference to the encoder's list of members: the encoding is a list of well-formed fields in number order, none twice and none zero, chain_id under 1, name 2, version 3, status 4, added_at 5, sunset_at 6, module_account_address 7, negative numbers as 64 bits |
| `Format.ChainRead` | modules/provider/types/provider.pb.go:369-603 | any list of well-formed fields, in any order and with repetitions and unknown numbers, is accepted iff the known ones have their types, and then each member is the last field with its number, empty or zero without one |
| `Format.ResponseWritten` | modules/provider/types/query.pb.go:917-949 | the encoding of a response is one length-delimited field 1 per chain, in order, holding that chain's encoding, then one field 2 with the page if there is one |
| `Format.ResponseRead` | modules/provider/types/query.pb.go:1666-1785 | any list of well-formed fields is accepted iff fields 1 and 2 are length-delimited, every field 1 decodes as a chain and every field 2 is taken by the page codec; the chains are the fields 1 in order, the page is the fields 2 joined |
| `Format.ReadEnds` | modules/provider/types/provider.pb.go:374-388 | a varint ends at its first byte below 128; ten bytes without one are an overflow, fewer the end of the input |
| `Format.GuideExamples` | modules/provider/types/provider.pb.go:318-328 | the numbers 1 and 150 as the encoding guide writes them |
| `Grammar.ChainAcceptedIff` | modules/provider/types/provider.pb.go:369-603 | the parser accepts an input iff it is such a list: every accepted input splits into well-formed fields, groups included, so nothing truncated, overlong or mistyped is accepted |
| `Grammar.ResponseAcceptedIff` | modules/provider/types/query.pb.go:1666-1785 | the same for the response |
| `Grammar.Levels` | modules/provider/types/provider.pb.go:604-681 | whatever the skipper passes over inside groups, with only a depth counter, is properly nested fields and end tags |
| `Grammar.ReadField` | modules/provider/types/provider.pb.go:372-597 | whatever one turn of the parser consumes is one well-formed field of the type its number calls for |
| `ChainCodec.ChainRoundTrip` | modules/provider/types/provider.pb.go:252-603 | decoding the encoding of any ConsumerChain, negative heights and any 32-bit status included, gives it back |
| `ChainCodec.SizeIsEncodedLength` | modules/provider/types/provider.pb.go:329-361 | Size is the length of the encoding |
| `ChainCodec.MarshalToSizedBuffer` | modules/provider/types/provider.pb.go:267-316 | writing back to front stays in bounds, fills exactly Size bytes with the fields in forward order, and touches nothing else |
| `ChainCodec.PutStr` | modules/provider/types/provider.pb.go:294-314 | one length-delimited field, written before the given end |
| `ChainCodec.PutInt` | modules/provider/types/provider.pb.go:279-293 | one integer field, written before the given end; zero is left out |
| `ChainCodec.Unmarshal` | modules/provider/types/provider.pb.go:369-603 | the imperative parser, total on every byte sequence, computes the suffix-style decoder |
| `ChainCodec.UnmarshalField` | modules/provider/types/provider.pb.go:372-597 | one turn of the parser's loop, with every error case |
| `ChainCodec.DecodeAppend` | modules/provider/types/provider.pb.go:369-602 | parsing a concatenation is parsing the first part and going on with the second |
| `ChainCodec.DecodeRebase` | modules/provider/types/provider.pb.go:481-493 | an accepted input is accepted with the same message at any offset |
| `ChainCodec.UnknownFieldTransparent` | modules/provider/types/provider.pb.go:583-595 | a well-formed field with an unknown number, groups included, put at any field boundary changes neither acceptance nor the message |
| `ChainCodec.DecodeFields` | modules/provider/types/provider.pb.go:369-602 | parsing the encoded fields one by one fills the message field by field |
| `QueryCodec.ResponseRoundTrip` | modules/provider/types/query.pb.go:902-949 | decoding the encoding of a response with any number of chains gives it back |
| `QueryCodec.UnknownFieldTransparent` | modules/provider/types/query.pb.go:1765-1777 | in the response the multiplexer decodes, a well-formed field with an unknown number, put at any field boundary, changes neither acceptance nor the message |
| `QueryCodec.SizeIsEncodedLength` | modules/provider/types/query.pb.go:1051-1068 | Size is the length of the encoding, nested messages included |
| `QueryCodec.MarshalToSizedBuffer` | modules/provider/types/query.pb.go:917-949 | writing the chains last to first and the pagination before them fills exactly Size bytes with the forward encoding |
| `QueryCodec.PutChain` | modules/provider/types/query.pb.go:934-947 | one nested message: body, length, tag, back to front |
| `QueryCodec.Unmarshal` | modules/provider/types/query.pb.go:1666-1785 | the imperative parser, total on every byte sequence, computes the suffix-style decoder |
| `QueryCodec.UnmarshalField` | modules/provider/types/query.pb.go:1669-1779 | one turn of the parser's loop, with every error case |
| `QueryCodec.DecodeChains` | modules/provider/types/query.pb.go:1666-1785 | parsing the encoded list appends exactly its chains |
| `Varint.SovIsEncodedLength` | modules/provider/types/provider.pb.go:363-365 | the bit-length formula equals the number of bytes the varint loop writes |
| `Varint.EncodeVarint` | modules/provider/types/provider.pb.go:318-328 | writes the base-128 digits just before the offset, touches nothing else, and returns where they begin |
| `Varint.ReadEncode` | modules/provider/types/provider.pb.go:374-388 | reading back an encoded number gives the number and its length, whatever follows |
| `Varint.ReadLoop` | modules/provider/types/provider.pb.go:374-388 | the shift-and-or loop reads a little-endian base-128 number modulo 2^64 (or 2^32 for the status), with overflow at ten bytes and end of input |
| `Varint.OrIsSum` | modules/provider/types/provider.pb.go:384 | the or of a number below the shift with a shifted group is their sum |
| `Varint.AddGroupStep` | modules/provider/types/provider.pb.go:508 | one turn of the shift-and-or loop, on a 64-bit or a 32-bit word that drops what is shifted past its end, reads one more base-128 digit |
| `Varint.ReadVarintPrefix` | modules/provider/types/provider.pb.go:374-388 | any varint, shortest or not, is read as its number whatever follows |
| `Varint.Uint64Length` | modules/provider/types/provider.pb.go:318-328 | an unsigned 64-bit number takes at most ten bytes |
| `Wire.Skip` | modules/provider/types/provider.pb.go:604-681 | the skipper terminates on every byte sequence without an index out of range and computes the recursive skipper, wrap-around of the index included |
| `Wire.SkipBodyLoop` | modules/provider/types/provider.pb.go:625-675 | one wire type's case of the skipper, the inner loop included |
| `Wire.SkipField` | modules/provider/types/provider.pb.go:604-681 | a well-formed field, nested groups included, is skipped exactly |
| `Wire.SkipFields` | modules/provider/types/provider.pb.go:604-681 | so is a list of them inside a group |
| `Wire.SkipExtend` | modules/provider/types/provider.pb.go:604-681 | what follows a skipped field does not matter |
| `Wire.NextRawExtend` | modules/provider/types/provider.pb.go:372-597 | one parsed field does not depend on what follows or on its offset |
| `Wire.NextRawUnknown` | modules/provider/types/provider.pb.go:583-595 | a well-formed field with an unknown number is passed over whole |
| `GoTypes.Int32RoundTrip` | modules/provider/types/provider.pb.go:289-293 | a negative status survives sign extension to 64 bits and truncation to 32 |
| `GoTypes.Int64RoundTrip` | modules/provider/types/provider.pb.go:279-288 | a negative height survives the unsigned conversion |
| `ByteOrder.LessIff` | abci/abci.go:124-129 | the order of the IDs: at the first difference the smaller byte, or the shorter string |
| `ByteOrder.SortedUnique` | abci/abci.go:124-129 | a set of IDs has only one sorted list, so sorting after a map iteration does not depend on its order |
| `ByteOrder.SortedKeys` | abci/abci.go:124-129 | the sorted list holds every key once, in strictly increasing order |

## Left out

- Noninterference.Noninterference: a block that follows a well-formed proposal refused in either run is
  compared only if the rejected sets agree all the same, because a refused proposal leaves a rejected set that depends on the order of arrival
  even with no faulty consumer (`Confluence.RejectedAgreeIff`); what such a block keeps alike is
  `Noninterference.StatesAlike`.
- Lifecycle.DustOverRuns: a block's bound is its dust only if its validators have positive total power,
  operator addresses that parse and none of which is the fee collector's own; any other block is bounded
  by its revenue. Transfers to or from the fee collector are not followed.
- Multiplexer.Multiplexer.DispatchAll: starts the goroutines in a loop and runs them when the loop is
  done; `FanOut` has the interleavings of the loop with the goroutines it has already started.
- Multiplexer.Multiplexer.ProcessProposal: records the calls of all goroutines at once; on an early
  return some of them may still be in flight.
- QueryCodec.ResponseRoundTrip: a pagination, which this query never sets, is kept as raw bytes that an
  oracle accepts or not; the PageResponse codec is not part of this model.
- Keeper.Keeper.BeginBlocker: the rollback of a failed block by the application framework is left out;
  the ledger after an error is the one the code leaves behind.
- Request fields other than the transactions, the height, the time and those of InitChain are passed
  through unchanged and not modelled; validators and consensus parameters are opaque bytes.
- CheckTx, Info, Query, PrepareProposal, vote extensions and snapshots: single branches or constant answers.
- Server start, gRPC, node wiring, signals, metrics, logging, configuration and genesis files.
- The bank's permissions, blocked addresses, coin validation and 256-bit overflow; gas; the events
  messages emit; the texts of errors.
- The other generated codecs repeat the template of the two modelled here.
- Params and chain look-ups by query: reads of one value.
