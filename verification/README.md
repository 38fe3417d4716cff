# SovereigntyAI in Dafny

A model of the v7 protocol of SovereigntyAI (Clarity contracts for pooled vaults),
of the off-chain agent that proposes allocations, and of three client-side
algorithms, with proofs of what they guarantee.

The protocol is one state machine. Every public function of every contract is a
specification function that answers `(ok ...)`, an error code or a runtime error
and gives the new state; beside it stands the contract as a class whose methods
change their maps and variables in place, and are proved to agree with the
specification. `Protocol.Runtime.Transact` adds the Clarity runtime's commit or
undo, so that a transaction of the in-place code is exactly one step `Next` of the
state machine. Theorems are about arbitrary states where the property does not
depend on how the state came about, and otherwise about every state of every run
(`StateAt`) from deployment (`Genesis`), with transactions of anybody, in any
order, at any heights and on any chain, and with token transfers of others
(donations included) in between.

`Answers` and `Outcomes` state for every call, in every state, which check fails first
with which code, and what a successful call leaves and does not touch. They use the
fields of the state and plain numbers, none of the contracts' predicates and constants.

`Effects` reduces each step to what it does to the accounting maps: a deposit, a
redemption, an investment, or nothing. The share pricing is proved at ANY price,
because no code path of the deployed contracts moves a pool off one unit per share:
that every reachable pool has `total == supply` is a theorem (`ReachableBalanced`),
not an assumption.

JavaScript numbers are modelled as the nearest double (`Numbers`), which is where
the TypeScript side and the 128-bit contracts can come apart.

| files | what they model |
|---|---|
| Clarity, MapSums | responses, checked 128-bit arithmetic, principals; sums over maps |
| Pricing, Ledger, ReceiptToken, Vault, RiskGuard, Engine | the fund-moving contracts and the token ledgers |
| ProtocolAdmin, AgentRegistry, StrategyRegistry | the registries |
| Protocol, Effects | the state machine, and what its steps do to the books |
| Answers, Outcomes | what every call answers and leaves, written out from the fields of the state alone |
| Accounting, Directory, Solvency, Leaving, Authority, Gate, Traces, Extraction | theorems about steps, reachable states and runs |
| Example | complete runs with executions |
| Numbers, Agent, AgentTheorems | the agent, and its agreement with the contracts |
| Text, Amounts, RiskForm | amounts as text, and the risk form |
| Json, ChatStream | the chat's event stream |

## What is false of the code, and when it is true

- The agent's next nonce, `lastUsedNonce + 1`, is computed on doubles. From 2^53 on it
  can fail to be larger than the contract's, which then refuses the proposal with
  u308, and close to 2^128 it is no uint any more. The proposal gets past the nonce
  check exactly if the successor advances (`Numbers.SuccessorAdvancesIff`) and fits a
  uint (`AgentTheorems.ProposalsPass`). `Example.StalledAt2To53` and
  `Example.FinishedAtUintMax` are complete runs that fail in the two ways. (The Stacks
  client library refuses numbers beyond 2^53 - 1 on its own before the contract sees
  them; it is not part of this model.)
- A vault that executed nonce UINT_MAX can never execute again, for anybody
  (`Traces.NonceExhausted`).
- The risk form does not check that amounts and cooldown fit a uint, and it compares
  the cooldown with the minimum's double only. Of what it accepts, the contract takes
  exactly the forms that pass these missing checks too
  (`RiskForm.AcceptedIsTakenIff`); at any limits it accepts amounts and cooldowns
  of 2^128 (`RiskForm.OversizedFormsAreAccepted`), and at a minimum cooldown of
  2^53 + 1 it accepts 2^53 (`RiskForm.ShrinkingMinimum`).
- A configuration shown in the form is not read back if its cooldown is at least
  10^21 blocks, because it then prints with an exponent (`RiskForm.ShowThenRead`,
  `RiskForm.LongCooldownIsNotReadBack`).
- The agent considers the first active strategy only, so a HOLD can hide an allocation
  that fits another one; `AgentTheorems.HoldHidesAllocationIff` says exactly when.
- The protocol ceilings do not bound every vault, unlike the comment at
  contracts/risk-guard-v7.clar:70 says: a vault's configuration is checked against the ceilings in force when it is set, and
  later ceilings do not bind it (`Gate.ReachableConfigs`,
  `Example.LoweredCeilingDoesNotBind`).
- Replacing the approved sBTC token can leave sBTC holders unable to redeem
  (`Solvency.ReplacingTokenCanTrap`, a complete run). Off mainnet each holder can still
  leave exactly if the vault holds that much of the new token, and all of them exactly
  if it holds as much as all idle sBTC (`Leaving.ReplacingTokenIffCovered`).
- Text printed with more forced fractional digits than the asset has decimals cannot
  be parsed back (`Amounts.PrintThenParse`).

The repository's README and parts of its docs describe older versions (v5, v6);
the model follows the v7 `.clar` files.

## Model

| member | source | states |
|---|---|---|
| Pricing.DepositKeepsPrice | contracts/sovereignty-vault-v7.clar:230-242 | a deposit into a pool at any price never lowers the price per share |
| Pricing.RedeemKeepsPrice | contracts/sovereignty-vault-v7.clar:245-252 | a redemption never lowers the price of the remaining shares, pays at most the total, and pays all of it exactly when it burns the whole supply |
| Pricing.DepositThenRedeem | contracts/sovereignty-vault-v7.clar:230-252 | at any price, what a deposit is worth right afterwards is at most what was paid, and the loss is below one share's price plus one unit |
| Pricing.NoExtraction | contracts/sovereignty-vault-v7.clar:229-252 | over any run of moves that keeps the supply positive, a group's cash plus the claim of its shares never grows; with equal shares at both ends it gains nothing |
| Pricing.RunKeepsPrice | contracts/sovereignty-vault-v7.clar:229-252 | over any run T_end * S_start >= T_start * S_end, the shares outside the group stay as they were, and cash is conserved |
| Pricing.OutsidersKeepPoolOpen | contracts/sovereignty-vault-v7.clar:244-252 | while somebody outside the group holds a share, nothing the group does empties the pool |
| Pricing.RedeemEverything | contracts/sovereignty-vault-v7.clar:245-252 | redeeming all shares pays exactly the total and leaves (0, 0) |
| Ledger.StxMoved | contracts/sovereignty-vault-v7.clar:367 | stx-transfer? succeeds exactly for a positive amount the sender holds, sent to somebody else, and moves exactly that amount and nothing else |
| Ledger.TokenMoved | contracts/sovereignty-vault-v7.clar:388 | a SIP-010 transfer moves exactly the amount between the two holders of one token, or fails |
| ReceiptToken.Contract.MintShares | contracts/receipt-token-v7.clar:73-84 | the in-place mint raises balance and supply together, or answers the specified error |
| ReceiptToken.Contract.BurnShares | contracts/receipt-token-v7.clar:86-98 | the in-place burn lowers balance and supply together, or answers the specified error |
| Vault.Contract.Create | contracts/sovereignty-vault-v7.clar:267-303 | create-vault registers the vault, its owner index entry and its risk configuration together |
| Vault.Contract.SetConfig | contracts/sovereignty-vault-v7.clar:307-313 | only name and open-deposits change, for the owner only |
| Vault.Contract.SetPaused | contracts/sovereignty-vault-v7.clar:338-352 | pause-vault and unpause-vault in place, with their u122/u123 errors; that the flag is set and lasts is Outcomes.PausingPauses |
| Vault.Contract.RegisterHolder | contracts/sovereignty-vault-v7.clar:254-261 | a holder is added to the discovery index once per vault |
| Vault.Contract.DepositStx | contracts/sovereignty-vault-v7.clar:356-373 | the in-place deposit, transfer, books, mint and index, agrees with its specification in every branch |
| Vault.Contract.DepositSbtc | contracts/sovereignty-vault-v7.clar:375-394 | the same for the approved sBTC token |
| Vault.Contract.RedeemStx | contracts/sovereignty-vault-v7.clar:402-419 | the in-place redemption, burn, books and payout, agrees with its specification in every branch |
| Vault.Contract.RedeemSbtc | contracts/sovereignty-vault-v7.clar:421-440 | the same for the approved sBTC token |
| Vault.Contract.ExecuteRebalance | contracts/sovereignty-vault-v7.clar:450-472 | moves idle funds into one strategy's allocation, whatever token ledgers the strategy's deposit leaves |
| RiskGuard.Contract.Check | contracts/risk-guard-v7.clar:273-307 | check-intent, evaluated on the contract's own variables |
| RiskGuard.Contract.RecordIntent | contracts/risk-guard-v7.clar:315-334 | records nonce and height only for the engine, after every check and behind the execution gate |
| RiskGuard.Contract.SetLimits | contracts/risk-guard-v7.clar:154-169 | the protocol ceilings, within their ranges, for the admin only |
| Engine.Contract.EvaluateIntent | contracts/execution-engine-v7.clar:47-91 | the read-only evaluation, reading the other contracts in place |
| Engine.Contract.Submit | contracts/execution-engine-v7.clar:93-125 | submit: evaluation, gate, record, rebalance, over all contracts in place |
| ProtocolAdmin.Contract.Accept | contracts/sovereignty-protocol-admin-v4.clar:46-53 | the second step of the admin transfer |
| AgentRegistry.Contract.SetActive | contracts/agent-registry-v4.clar:48-62 | revoke-executor and reactivate-executor |
| StrategyRegistry.ExecutedKeepsValid | contracts/strategy-registry-v6.clar:78-112 | strategy ids stay gap-free from 1 and caps stay between 1 and 10000 basis points |
| Protocol.Runtime.Transact | contracts/sovereignty-vault-v7.clar:356-472 | any transaction to any contract commits exactly the specified state, or leaves every contract as it was |
| Answers.AnswersAreExact | contracts/sovereignty-vault-v7.clar:267-472 | every call of every contract, in every state: the first failing check with its code, overflow, or the value, from the state's fields and plain numbers |
| Answers.CheckAnswers | contracts/risk-guard-v7.clar:285-307 | check-intent's answer in every case, with its limits stated without flooring |
| Answers.EvaluateAnswers | contracts/execution-engine-v7.clar:47-74 | evaluate's answer in every case, down to the executor's, the strategy's and the vault's entries |
| Answers.PricingAnswers | contracts/sovereignty-vault-v7.clar:230-252 | the two pricing functions' answers in every case, u115 and u118 stated without flooring |
| Answers.ReadsAreExact | contracts/strategy-registry-v6.clar:57-76 | the reads of registries, guard and vault that other code relies on, from the fields |
| Outcomes.OutcomesAreExact | contracts/sovereignty-vault-v7.clar:267-472 | what every successful call leaves, entry by entry, with everything else as it was; a call that is not answered ok leaves everything as it was |
| Outcomes.MoneyIsExact | contracts/sovereignty-vault-v7.clar:367-438 | a deposit takes exactly its amount from its sender, a redemption pays exactly its payout to its sender, and nothing else that goes through the protocol moves money |
| Outcomes.FreshlyDeployed | contracts/risk-guard-v7.clar:71-76 | what the protocol starts with, in numbers |
| Outcomes.PausedUntilUnpaused | contracts/sovereignty-vault-v7.clar:338-352 | a paused vault stays paused through any run until its owner unpauses it |
| Outcomes.PausingPauses | contracts/sovereignty-vault-v7.clar:338-344 | after pause-vault and until the owner's unpause no deposit into the vault goes through, and one that reaches the pause check is refused with u112 |
| Effects.StepEffect | contracts/sovereignty-vault-v7.clar:356-472 | whatever function of whatever contract is called, the books change by exactly one deposit, redemption or investment that they allow, or not at all |
| Effects.OtherPoolsUntouched | contracts/sovereignty-vault-v7.clar:120-122 | a step leaves every (vault, asset) pool alone except the one its effect names |
| Effects.SubmittedShape | contracts/execution-engine-v7.clar:93-125 | a successful submit passed every check and changes exactly the vault's record, one idle balance, one allocation and the token ledgers |
| Accounting.StepKeepsBalanced | contracts/sovereignty-vault-v7.clar:356-472 | every step keeps idle + invested == total, shares == supply and total == supply in every pool |
| Accounting.ReachableBalanced | contracts/sovereignty-vault-v7.clar:356-472 | in every reachable state: idle plus all allocations is the total, the holders' shares sum to the supply, and total == supply |
| Accounting.DepositPricing | contracts/sovereignty-vault-v7.clar:230-242 | in balanced books a deposit mints one share per unit; u116 and u115 are unreachable, and u114 (below 1000000 microSTX or 10000 sats) and overflow happen exactly in the stated cases |
| Accounting.FirstDeposit | contracts/sovereignty-vault-v7.clar:220-237 | into an empty pool a STX deposit is refused with u114 exactly below 1000000 units and an sBTC deposit exactly below 10000 |
| Accounting.DepositStxIff | contracts/sovereignty-vault-v7.clar:356-373 | in balanced books, exactly which STX deposits go through, and that they mint one share per unit |
| Accounting.DepositSbtcIff | contracts/sovereignty-vault-v7.clar:375-394 | in balanced books, exactly which sBTC deposits go through |
| Accounting.OnlyHolderMovesShares | contracts/receipt-token-v7.clar:73-98 | a holder's shares move only by the holder's own deposits and redemptions in that pool |
| Accounting.HolderLedger | contracts/sovereignty-vault-v7.clar:356-440 | over any run, deposited minus redeemed is exactly the current share balance |
| Accounting.BystanderNeverDiluted | contracts/sovereignty-vault-v7.clar:183-199 | at any price, no step lowers anybody's claim except the holder's own redemption |
| Accounting.PositionFields | contracts/sovereignty-vault-v7.clar:183-199 | get-position in every state: its fields, the floored claim and share, and the lesser of claim and idle |
| Accounting.PositionIsHonest | contracts/sovereignty-vault-v7.clar:183-199 | get-position's claim is what redeeming all shares pays, and the redemption is refused for want of idle funds exactly when redeemable is below the claim |
| Directory.StepDirectory | contracts/sovereignty-vault-v7.clar:254-303 | a step adds at most one vault or one holder entry, and removes or rewrites nothing |
| Directory.ReachableDirectory | contracts/sovereignty-vault-v7.clar:254-299 | in every reachable state an owner's entries are strictly increasing and precisely the owner's vaults, and a holder's entries have no duplicates and are precisely the registered vaults |
| Directory.HolderIndexIsHistory | contracts/sovereignty-vault-v7.clar:254-261 | a holder's index lists precisely the vaults the holder ever deposited into |
| Directory.ReachableListed | contracts/sovereignty-vault-v7.clar:370-371 | every vault in which somebody holds shares is in that holder's index, exists and supports the asset |
| Solvency.HoldingsFollow | contracts/sovereignty-vault-v7.clar:367-368 | the vault's real holdings move by at least what the step does to the idle books |
| Solvency.ReachableStxSolvent | contracts/sovereignty-vault-v7.clar:367-369 | in every reachable state the vault contract's STX covers the idle STX of all vaults together, if strategies pull at most what they were called with |
| Solvency.ReachableSbtcSolvent | contracts/sovereignty-vault-v7.clar:388-390 | the same for sBTC while the approved token is not replaced |
| Solvency.ReachableNothingDeployed | contracts/risk-guard-v7.clar:129-135 | on a chain that is not mainnet the gate is never armed and nothing is ever allocated |
| Solvency.RedeemStxAnswer | contracts/sovereignty-vault-v7.clar:402-419 | redeeming own STX shares pays exactly one unit per share if so much is idle, and answers u105 otherwise |
| Solvency.RedeemSbtcAnswer | contracts/sovereignty-vault-v7.clar:421-440 | redeeming own sBTC shares: u105 exactly when too little is idle, u106 exactly when the vault holds too little of the token, otherwise one unit per share |
| Solvency.NeverTrappedStx | contracts/sovereignty-vault-v7.clar:396-419 | after any run off mainnet, under any pauses, any part of one's STX shares can be redeemed and pays exactly that much |
| Solvency.NeverTrappedSbtc | contracts/sovereignty-vault-v7.clar:421-440 | the same for sBTC while the approved token is not replaced |
| Leaving.RedeemsIff | contracts/sovereignty-vault-v7.clar:421-440 | off mainnet, whatever tokens were approved before: a redemption of own sBTC shares goes through exactly if the vault holds that much of the approved token and the pricing does not overflow, and pays one unit per share |
| Leaving.HolderCanLeaveIff | contracts/sovereignty-vault-v7.clar:421-440 | after any run off mainnet, a holder of b sBTC shares can redeem every part of them exactly if the vault holds b units of the approved token |
| Leaving.EverybodyLeavesIff | contracts/sovereignty-vault-v7.clar:421-440 | in whatever order they try, all sBTC holders get out with everything exactly if the holding of the approved token covers all idle sBTC |
| Leaving.ReplacingTokenIffCovered | contracts/risk-guard-v7.clar:147-152 | both, after any run off mainnet followed by the admin's replacement of the token, for the new token's holding |
| Solvency.ReplacingTokenCanTrap | contracts/risk-guard-v7.clar:147-152 | a complete run of four transactions after which a holder of 10000 sBTC shares can redeem none |
| Authority.OnlyAdminGoverns | contracts/risk-guard-v7.clar:147-179 | no transaction of anybody but the admin changes the registries, the protocol pause, the ceilings, the approved token or the gate |
| Authority.AdminSuccession | contracts/sovereignty-protocol-admin-v4.clar:36-53 | over any run the admin is the deployer or was nominated by the admin of the moment, and accepted |
| Authority.OnlyOwnerConfigures | contracts/sovereignty-vault-v7.clar:305-352 | only its owner changes a vault's configuration; owner, purpose, assets and creation height never change |
| Authority.ExecutionAuthority | contracts/execution-engine-v7.clar:59-67 | an intent executes only for the owner or, in an autonomous vault, a registered executor, with nothing paused, on armed mainnet, into the registered contract of an active strategy of the same asset |
| Authority.ProtocolPauseStopsInflows | contracts/sovereignty-vault-v7.clar:283 | while the protocol is paused no deposit, creation or execution succeeds |
| Authority.VaultPauseStopsInflows | contracts/sovereignty-vault-v7.clar:365 | while a vault is paused nothing flows in and nothing is invested |
| Authority.PausesNeverBlockRedemption | contracts/sovereignty-vault-v7.clar:396-440 | a redemption gets the same answer under any setting of both pauses |
| Gate.ReachableConfigured | contracts/sovereignty-vault-v7.clar:300-301 | in every reachable state exactly the existing vaults have a risk configuration, and all limits are shares |
| Gate.ReachableConfigs | contracts/risk-guard-v7.clar:205-257 | in every reachable state each configuration satisfied params-valid under the ceilings in force when it was last set, and still does exactly if it is within the four ceilings of now |
| Gate.SubmitRefinesEvaluate | contracts/execution-engine-v7.clar:93-125 | an error of evaluate comes back unchanged; a passing intent answers u208 exactly unless chain-id is 1 and the gate armed, and otherwise ok, u108 or u106; failure changes nothing |
| Gate.ExecutesOnlyArmedOnMainnet | contracts/risk-guard-v7.clar:129-135 | whatever executes does so with chain-id 1 and the gate armed |
| Gate.DeepLayersNeverSurface | contracts/execution-engine-v7.clar:93-125 | in reachable states the duplicate checks of vault and guard never show through the engine |
| Gate.CheckPassesIff | contracts/risk-guard-v7.clar:285-307 | check-intent passes exactly for an authorised, timely, fresh intent within its limits, stated without flooring |
| Traces.StepRecord | contracts/risk-guard-v7.clar:327-334 | only an execution writes a vault's nonce and height; configuration changes and autonomy toggles leave them alone |
| Traces.NoReplay | contracts/risk-guard-v7.clar:290 | over any run the nonces a vault executes strictly increase |
| Traces.NonceExhausted | contracts/risk-guard-v7.clar:290 | once a vault's nonce is UINT_MAX, no intent a call can carry is ever evaluated or submitted successfully again, in any continuation |
| Traces.CooldownBetweenExecutions | contracts/risk-guard-v7.clar:291-293 | two successive executions are at least the then-configured cooldown apart |
| Traces.LimitsPersist | contracts/risk-guard-v7.clar:299-306 | until somebody redeems, a strategy's share stays within the cap of its last execution, and the idle share above the floor of the pool's last execution |
| Traces.BystanderOverRuns | contracts/sovereignty-vault-v7.clar:183-199 | over any run at any price, the claim of a holder who does not redeem never falls |
| Extraction.GroupNeverExtracts | contracts/sovereignty-vault-v7.clar:356-440 | over any run of the whole protocol, from any state whose shares add up and at any price, a group that makes every move in a pool never gains: its cash plus the claim of its shares does not grow |
| Extraction.OutsiderKeepsPoolOpen | contracts/sovereignty-vault-v7.clar:396-440 | over any such run the pool stays open while somebody outside the group holds a share |
| Example.IntentsExecute | contracts/execution-engine-v7.clar:93-125 | a possible run from deployment in which a strategy is registered, a vault funded and two intents execute one cooldown apart |
| Example.LoweredCeilingDoesNotBind | contracts/risk-guard-v7.clar:154-169 | a possible run in which a vault goes to 20% exposure after the admin lowered the ceiling to 10% |
| Example.StalledAt2To53 | agent/src/intents/buildIntent.ts:40 | a possible run that executes nonce 2^53, after which the agent's next proposal repeats it and is refused with u308 |
| Example.FinishedAtUintMax | contracts/risk-guard-v7.clar:290 | a possible run that executes nonce UINT_MAX, after which the agent proposes 2^128 and no intent passes in any continuation |
| Numbers.NoDoubleBetween | agent/src/data/protocolState.ts:123-132 | rounding an integer to a double never jumps over another double |
| Numbers.NearestIsNearest | agent/src/data/protocolState.ts:123-132 | no double is nearer to an integer than the one it is rounded to |
| Numbers.TiesToEven | agent/src/data/protocolState.ts:123-132 | half-way between two doubles the even one is taken |
| Numbers.SuccessorAdvancesIff | agent/src/intents/buildIntent.ts:40 | exactly when the double `Number(nonce) + 1` is larger than the nonce |
| Agent.RunRecommendation | agent/src/pipeline.ts:33-135 | it evaluates as the executor exactly if the vault is autonomous and the configured executor's entry active, else as the owner; the status follows the on-chain verdict for that sender; an evaluation that could not be made never counts as passed, and VALIDATED needs both configured and armed mainnet |
| AgentTheorems.SizedAmountIsMaximal | agent/src/analysis/decisionEngine.ts:115-129 | a positive amount respects the unrounded limits exactly when it is at most the sized one |
| AgentTheorems.RebalanceIffSomethingFits | agent/src/analysis/decisionEngine.ts:60-137 | REBALANCE exactly when nothing forbids it and at least one unit fits the first active strategy |
| AgentTheorems.ReasonIsExact | agent/src/analysis/decisionEngine.ts:60-137 | which branch decides, in order and without rounding |
| AgentTheorems.RecommendationFields | agent/src/analysis/decisionEngine.ts:139-151 | strategy, amount, slippage and deadline of every recommendation |
| AgentTheorems.CandidatesAreExact | agent/src/data/protocolState.ts:37-53 | the strategies considered are exactly the active ones for the asset among the first 25, lowest id first, with the chain's caps and allocations |
| AgentTheorems.AllocationViewsAreExact | agent/src/analysis/decisionEngine.ts:154-198 | the current and the proposed allocation list every candidate with its amount and floored share, and differ by the proposed move alone |
| AgentTheorems.HoldHidesAllocationIff | agent/src/analysis/decisionEngine.ts:87-90 | exactly when a HOLD hides an allocation that fits another active strategy |
| AgentTheorems.HoldCanHideAllocation | agent/src/analysis/decisionEngine.ts:87-90 | two active strategies, the first at its cap: HOLD, though 1000 units fit the second |
| AgentTheorems.ReduceIffOverExposed | agent/src/analysis/decisionEngine.ts:95-109 | REDUCE_EXPOSURE exactly above the unrounded cap, with the least amount that cures it |
| AgentTheorems.SizeDeployableIsMaximal | agent/src/analysis/poolStrategyAnalysis.ts:160-169 | sizeDeployable is the largest amount within the idle floor, the owner's cap and the transaction limit |
| AgentTheorems.BuildIntentIsExact | agent/src/intents/buildIntent.ts:13-42 | from any recommendation: when an intent is built, and with which fields |
| AgentTheorems.SizeDeployableAgrees | agent/src/analysis/poolStrategyAnalysis.ts:160-169 | sizeDeployable equals the engine's sizing for an empty strategy with a 10000 basis point cap |
| AgentTheorems.ProposalsPass | agent/src/pipeline.ts:95-105 | a REBALANCE evaluated as the active executor of an autonomous vault, or else as the owner, passes every on-chain check except possibly the cooldown; it fails before that exactly if its nonce did not advance (u308) or is no uint (no call can carry it) |
| AgentTheorems.ReachableProposalsPass | contracts/risk-guard-v7.clar:285-307 | the same after every run of the deployed protocol |
| AgentTheorems.ProposedSharesAreChecked | agent/src/analysis/decisionEngine.ts:176-198 | the shares shown as the proposed allocation are the ones the contract computes, within the vault's limits |
| AgentTheorems.NonceCanStall | agent/src/intents/buildIntent.ts:40 | at nonce 2^53 the next nonce is 2^53 again |
| Amounts.ParseIsExact | apps/web/src/lib/amounts.ts:18-25 | exactly the plain numerals with at most the allowed fractional digits parse, each to its exact decimal value |
| Amounts.TooManyDigitsRefused | apps/web/src/lib/amounts.ts:22 | more fractional digits are refused, never rounded |
| Amounts.PrintThenParse | apps/web/src/lib/amounts.ts:28-38 | printing, dropping the separators and parsing gives the amount back, for every amount and every number of decimals |
| Amounts.PrintIsExact | apps/web/src/lib/amounts.ts:28-38 | the printed text: sign, digits without leading zero in groups of three, and a fraction no longer than needed with exactly the remainder's value |
| Amounts.PercentText | apps/web/src/lib/amounts.ts:59-62 | a percentage has exactly two digits after the point |
| Text.TrimIsExact | apps/web/src/lib/amounts.ts:19 | trimming takes off exactly the spaces at both ends |
| Amounts.NegativeIsRefused | apps/web/src/lib/amounts.ts:29 | a negative amount prints with a sign, which the parser refuses |
| Amounts.PercentRoundTrip | apps/web/src/lib/amounts.ts:59-68 | pctToBps(bpsToPct(b)) is b up to 2^53, and the nearest double beyond |
| RiskForm.ParseRisk | apps/web/src/components/vault/RiskFields.tsx:60-98 | accepts exactly when every field parses and params-valid holds of the numbers, and marks exactly the fields that are wrong |
| RiskForm.BlocksAreExact | apps/web/src/components/vault/RiskFields.tsx:67 | a cooldown is accepted exactly if it is digits between spaces, as the double nearest to its value |
| RiskForm.NeverRefusesValid | apps/web/src/components/vault/RiskFields.tsx:60-98 | numbers the contract would take are never refused |
| RiskForm.AcceptedIsTakenIff | contracts/risk-guard-v7.clar:183-199 | of the numbers the form lets through, a call can carry and params-valid accepts exactly those whose amounts and cooldown fit a uint and whose cooldown reaches the minimum |
| RiskForm.SoundIffCooldownDoesNotShrink | contracts/risk-guard-v7.clar:197 | the corollary about the cooldown: params-valid holds of all accepted numbers if and only if the minimum cooldown does not shrink as a double |
| RiskForm.OversizedFormsAreAccepted | apps/web/src/components/vault/RiskFields.tsx:65-67 | at any limits the form accepts a STX limit, an sBTC limit and a cooldown of 2^128 |
| RiskForm.ShrinkingMinimum | apps/web/src/components/vault/RiskFields.tsx:83 | with a minimum of 2^53 + 1 blocks the form accepts 2^53, which params-valid refuses |
| RiskForm.ShowThenRead | apps/web/src/components/vault/RiskFields.tsx:41-51 | a configuration within the limits survives form and parser exactly when its cooldown is below 10^21 |
| RiskForm.LongCooldownIsNotReadBack | apps/web/src/components/vault/RiskFields.tsx:48 | a configuration the contract takes, with a cooldown of 10^21, that the form cannot read back |
| Json.ParseStringify | agent/src/chat/chatHandler.ts:72 | JSON.parse reads back what JSON.stringify wrote, for the payloads the chat sends and every text in them |
| Json.StringifyIsPrintable | agent/src/chat/chatHandler.ts:72 | the JSON of any text is one line |
| ChatStream.SplitInTwoGoes | apps/web/src/lib/chat.ts:40-43 | splitting a text that arrives in two pieces keeps the complete parts and takes up only the last one again |
| ChatStream.SplitIsExact | apps/web/src/lib/chat.ts:42-46 | splitting loses nothing and leaves no separator inside a part |
| ChatStream.HandleIsExact | apps/web/src/lib/chat.ts:46-56 | what any complete block does: nothing without both lines or with data that is no JSON, otherwise what its first lines say |
| ChatStream.FiredIsExact | apps/web/src/lib/chat.ts:57-65 | which event calls which callback, and that unknown events call none |
| ChatStream.StreamChat | apps/web/src/lib/chat.ts:33-67 | with any reader of JSON, the client's loop delivers what it would deliver for the whole text, however it is cut into chunks |
| ChatStream.PrefixDeliversPrefix | apps/web/src/lib/chat.ts:37-39 | a stream that breaks off has delivered a prefix |
| ChatStream.StreamRoundTrip | apps/web/src/lib/chat.ts:45-66 | with any reader that gets back what JSON.stringify wrote, the client delivers exactly the framed events, once each and in order |
| ChatStream.WireFormat | agent/src/chat/chatHandler.ts:71-73 | the text of each kind of event |
| ChatStream.Send | agent/src/chat/chatHandler.ts:71-73 | one frame is appended to what was written |
| ChatStream.StreamReply | agent/src/chat/chatHandler.ts:58-119 | the response is always ended, starts with the note if the chain could not be read, and reads back as the reply: each emission in its place, then the error that ended it or else one end marker |
| ChatStream.ServeAndRead | apps/web/src/lib/chat.ts:20-68 | server and client together, for any way the response is cut up: each text and stream error in its place, and done exactly once, last, and only if nothing failed; one error if the server is not configured |

## Left out

- The network, signing, polling, clocks and storage: a snapshot is a faithful copy of the chain's state, and `reached` says whether an evaluation came back.
- executeValidatedIntent, the decision log and hashes: they repeat the modelled evaluation behind I/O.
- Language-model narration, prompts and sanitisation, and every wording: reasons are constructors, names are opaque.
- The React user interface, except parseRisk and valuesFromConfig.
- Analysis of external protocols in poolStrategyAnalysis.ts other than sizeDeployable.
- Width of arguments: transaction arguments are all natural numbers, more than can be sent, with every addition and multiplication checked against 2^128; what a client can put into a call is stated where it matters (`Encodable`). The length limits of strings are not modelled.
- Printed events of the contracts, and trivial reads.
- A strategy's deposit is an arbitrary change of the token ledgers or a failure. That it pulls at most its amount is assumed in the solvency theorems only. It cannot call back into the protocol; other calls it might make with the vault as tx-sender are not modelled.
- sBTC is a token that moves exactly the amount or fails; that it lets redemptions through is assumed in NeverTrappedSbtc only.
- Solvency.NeverTrappedStx: takes the vault's real STX below 2^64, which the supply of STX is, so that products fit 128 bits.
- AgentTheorems.ProposalsPass: a pool above 2^128/10000 units may make the evaluation abort instead.
- RiskForm.ShowThenRead: the text of a number below 10^21 is the digits of any integer that denotes it, where JavaScript picks the shortest; the digits after the point of an exponent text are left out.
- Json.ParseStringify: covers objects with at most one string member, which is what the chat sends; surrogate escapes, which only lone surrogates need, are neither written nor read.
- Numbers.SuccessorAdvancesIff: integers above the largest double are not treated as infinite.
- The refusal of numbers beyond 2^53 - 1 by the Stacks client library, which makes the evaluation of such a nonce unavailable before the chain sees it; `reached` covers it.
- ChatStream.StreamChat: starts from decoded text; decoding bytes across chunk borders and the HTTP error path before the loop are not part of this model. A parsed value is what the client looks at in it, the strings `text` and `message`: a `null` in an error event, on which the client throws, and a message that is no string are left out. The server sends neither.
- Leaving.ReplacingTokenIffCovered: takes every sBTC pool below 2^64 units, so that products fit 128 bits, and the token's contract to let the transfers through.
