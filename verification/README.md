# Procurement negotiation lab: a verified model

This project models the two halves of the procurement negotiation lab and proves what they promise.

**The negotiation mechanisms.** A scenario names participants with utility formulas over a quantity, a demand and a
capacity. Mechanisms search a quantity grid for a joint allocation: alternating best response, a price-only dual,
consensus averaging, ADMM, a weighted-Nash search in the clear and under two-party secret sharing, and a
transcript-exposure protocol. A ledger, a centralized oracle and a transfer rule then grade the result. Quantities and
money are exact reals, field elements are integers below the Mersenne prime 2^61 - 1, randomness is arbitrary input
(any draw, any blinding factor), and utilities are arbitrary functions except where a property is about the formulas
themselves.

**The factory pipeline.** A task is planned, implemented, gated, reviewed, committed and shipped, with pauses for human
approval, and each invocation leaves a ledger and a Run record that an independently written validator audits. Workers,
gates, clocks and git answer arbitrarily (`Env`, `Round`); the store is one row plus an append-only log; a history is any
list of run, resume and reject commands, each with its own task file and flags, each possibly killed after any number of
store writes.

Loops of the source are methods with loops, proved equal to a specification function of the inputs or of the old state;
the theorems are lemmas about those functions. One module per component:

| module | component |
|---|---|
| `Numeric`, `Grids`, `Orbits`, `Counting`, `UnitGrids`, `Concave`, `PiecewiseLinear` | arithmetic, grids and the mathematics the mechanisms rest on |
| `BestResponse`, `PriceDual`, `ConsensusAveraging`, `Admm`, `AdmmStops`, `Oracle` | the iterative mechanisms, when an ADMM stop is optimal, and the oracle |
| `Formula`, `FormulaMeaning`, `Sdk`, `Gap`, `Transfer` | the formula language and what its constructs mean, the shipped formulas, ledgers and gaps, transfers |
| `ShippedScenario`, `ShippedAdmm`, `ShippedRuns` | the shipped scenario and the figures reported for it |
| `Field`, `Beaver`, `SecureArgmax`, `WeightedNash`, `TranscriptProtocol` | secret sharing, the secure and plaintext Nash searches, the exposure protocol |
| `Reviews`, `Verdicts`, `Tasks`, `Stores`, `ImplementLoop`, `LoopOutcomes`, `Pipeline`, `Invocations` | reviewers, task files, the store, the loop, one invocation, and how they end |
| `RunEvidence`, `EvidenceRules` | what an invocation emits, the validator, and its rules case by case |
| `FactorySafety`, `FactoryHistory`, `Approvals`, `FactoryResults`, `RunReports` | invariants over every write, histories, human approval, and what invocations report |

## Where the code and its documentation part ways

Each of these is proved with the exact condition under which the documented claim holds.

- "A scored gap is never negative": the scorer admits quantities up to capacity + 1e-6, the oracle stops at capacity
  (`Gap.ScoredGapNeverNegativeIff`, with an input in `ShippedScenario.NegativeGap`).
- "ADMM finds the optimum": it does on the reported scenario (`ShippedAdmm.AdmmLandsOnTheOptimum`); at a tolerance of half a grid step a stop is the optimum exactly when its recorded residual is zero (`ShippedAdmm.StopIsDemandIff`), and with demand 235 the same run stops half a unit short (`ShippedAdmm.AdmmSettlesShort`).
- Oracle candidates lie in [0, upper] only if the 1e-9 nudge does not reach the next whole number (`Oracle.CandidatesWithinBoundIff`).
- Transfers are documented to sum to zero; the code pays the surplus on top (`Transfer.BudgetBalancedIff`).
- The infeasible-score sentinel does not fit the field (`Field.SentinelWrapsPositive`). Unmasked, an infeasible candidate would win or lose by the blinding factor: it wins exactly when the blinded difference lands in the lower half of the field, and both happen for every pair (`SecureArgmax.Problem.InfeasibleComparison`).
- `feasible=True` can come with a zero Nash product (`WeightedNash.FeasibleWithZeroProductIff`, with an input in `WeightedNash.TinyGainsKeepZero`).
- The review aggregation is called conservative; with several transcripts and unmarked prose it can be milder than its worst one (`Reviews.WorstVerdictIff`).
- "The implementer never reviews its own work" holds for the two swappable worker families only (`Reviews.NoSelfReviewIff`).
- A negative `review.max_patch_rounds`, which the loader accepts, skips the loop and reaches the commit or the diff_review pause unvetted, unless a fresh run pauses at plan_review first (`FactoryHistory.FreshRunSafeIff`, `FactoryHistory.ResumedPlanSafeIff`).
- A dry run that pauses after its stubbed loop can be resumed for real, and then commits (`FactoryHistory.MismatchedCommitIff`, `FactoryHistory.DryPauseRealCommit`).
- A done run resumed from diff_review or pre_pr always fails the validator (`FactoryResults.GatedDoneConformsIff`, `FactoryResults.GatelessDoneConformsIff`); a done run of a task without gates passes it only with a contract or after a round without changes.
- The HOLD triage that should keep a done branch from being pushed is unreachable (`FactoryResults.DoneIsNeverHeld`), and pausing at pre_pr loses an INVESTIGATE (`FactoryResults.TriageSurvivesPauseIff`, with an input in `FactoryResults.PauseLosesInvestigate`).
- A finished run's record can say that not all gates passed: it reports every round, the failures that a later round repaired included (`RunReports.DoneSummary`).
- A kill between the pause write and its log entry leaves a run that can be resumed without a logged pause, so approval is stated on the write the resume reads (`Approvals.GuardedByApproval`); without kills the log has the pause too (`Approvals.UnkilledPausesLogged`), with one it need not (`Invocations.KilledPauseIsResumed`).
- The stored status differs from the returned one exactly when the latter is "rejected" (`FactoryResults.StoredStatusIff`).

## Model

| member | source | states |
|---|---|---|
| Grids.Argmax | src/procurement_lab/algorithms/simple.py:263-271 | The scan with a strict comparison returns the grid point at the first index with the largest value |
| Grids.FirstMaxIsFirst | src/procurement_lab/algorithms/simple.py:263-271 | Nothing on the grid is larger than the value found, and everything before it is strictly smaller |
| Grids.GridCoversAndOvershoots | src/procurement_lab/algorithms/simple.py:274-278 | Every grid starts at lo, reaches hi and overshoots it by at most one step (plus rounding) |
| Grids.GridSeparation | src/procurement_lab/algorithms/simple.py:274-278 | Later points are larger and a full step apart, up to the six-decimal rounding, exactly for steps in whole millionths |
| Grids.GridSize | src/procurement_lab/algorithms/simple.py:274-278 | How many points a grid has, for bounds in either order |
| Grids.ScenarioUpperIs | src/procurement_lab/algorithms/simple.py:256-260 | The search goes to capacity, or twice the demand when none is declared, and at least to one and a half times the demand |
| BestResponse.Game.SweepOnce | src/procurement_lab/algorithms/simple.py:59-76 | One in-place pass moves each participant to its first best reply against the quantities already updated |
| BestResponse.Game.Run | src/procurement_lab/algorithms/simple.py:48-97 | The records are those of successive sweeps; it stops at the first residual within tolerance or after max_iter |
| BestResponse.Game.SweepClimbsOrRests | src/procurement_lab/algorithms/simple.py:59-81 | A sweep leaves the state alone or moves strictly ahead: the potential rises, or it is level and quantities fall |
| BestResponse.Game.RestIsMutualBestReply | src/procurement_lab/algorithms/simple.py:59-81 | At a resting state no participant can raise the potential by moving alone on the grid |
| BestResponse.ReachesMutualBestReply | src/procurement_lab/algorithms/simple.py:35-97 | For any utilities u and weight w the mechanism rests within the square of the grid size, and there no grid quantity gives either participant more of u(q) - w*(q - other)^2 |
| BestResponse.SweepsAreReplies | src/procurement_lab/algorithms/simple.py:59-76 | Every sweep is the first maximizer of u1(q) - w*(q - old q2)^2, then of u2(q) - w*(q - new q1)^2 |
| BestResponse.Game.RecordIs | src/procurement_lab/algorithms/simple.py:77-81 | A record holds the two quantities, their midpoint and half their distance |
| BestResponse.UnconvergedForever | src/procurement_lab/algorithms/simple.py:59-81 | A run unconverged after that many sweeps repeats one record for ever |
| ShippedRuns.BestResponseStalls | reports/mechanism-scorecard.md:7 | On the base scenario every record is (500, 600), for any limit and any tolerance below 50: not converged, worth 33100, scored 1900 |
| PriceDual.Market.Run | src/procurement_lab/algorithms/simple.py:123-157 | Each record holds the two first-best quantities at the price before it, their midpoint, half their distance, and a price moved by the rate times their difference; converged exactly when the last residual is within tolerance |
| PriceDual.Market.PriceFollowsGap | src/procurement_lab/algorithms/simple.py:147-153 | In such a round, with a positive rate, the price rises, falls or rests exactly as demand exceeds, trails or meets supply |
| PriceDual.Market.DemandFalls | src/procurement_lab/algorithms/simple.py:128-146 | The buyer's quantity never rises with the price, for arbitrary utilities |
| PriceDual.Market.SupplyRises | src/procurement_lab/algorithms/simple.py:128-146 | The supplier's quantity never falls with the price, for arbitrary utilities |
| PriceDual.Market.AdjustmentPointsToClearing | src/procurement_lab/algorithms/simple.py:147-153 | The price moves by the rate times demand less supply: never away from a clearing price, and with a positive rate at rest only where the two quantities meet |
| PriceDual.Market.PriceStaysInBand | src/procurement_lab/algorithms/simple.py:123-153 | Over a whole run the price stays within the larger of its first distance and one full-width step of every clearing price |
| PriceDual.ConvergedRunMaximizesWelfare | src/procurement_lab/algorithms/simple.py:126-157 | With tolerance below half the grid step, convergence means equal quantities that maximize joint utility over the grid |
| ShippedRuns.PriceSwings | reports/mechanism-scorecard.md:8 | On the base scenario the price swings between -113.75 and 175 for ever, for any limit past one and any tolerance below 162.5: residual 412.5, worth 21350, scored 13650 |
| ConsensusAveraging.Run | src/procurement_lab/algorithms/simple.py:198-219 | Every record is the first one again; the run converges at once or never, for any max_iter |
| ConsensusAveraging.RoundKeepsMean | src/procurement_lab/algorithms/simple.py:209-214 | A round started at the mean of the ideals stays there |
| ConsensusAveraging.RoundResidual | src/procurement_lab/algorithms/simple.py:209-219 | Every round's residual is (1 - inertia) times the largest distance of an ideal from the mean |
| ConsensusAveraging.ConvergesIff | src/procurement_lab/algorithms/simple.py:209-219 | Two participants converge exactly when the shrunken half-distance of their ideals meets the tolerance |
| Admm.Network.SolveSubproblems | src/procurement_lab/algorithms/admm.py:115-121 | Each participant's quantity is the first grid maximizer of its augmented Lagrangian |
| Admm.Network.UpdateDuals | src/procurement_lab/algorithms/admm.py:129-131 | Each dual moves by rho times that participant's distance from the new consensus |
| Admm.Network.Run | src/procurement_lab/algorithms/admm.py:87-154 | The records are the trace of the recurrence, it stops at the first state where both residuals meet the tolerance, and the three outcomes are told apart as coded |
| Admm.FlatIff | src/procurement_lab/algorithms/admm.py:147-154 | Unconverged residuals are flat exactly when the largest of the last five is above the tolerance and the smallest within it of the largest |
| Admm.Network.DualsSumToZero | src/procurement_lab/algorithms/admm.py:115-131 | The duals sum to zero after every round, for any number of participants |
| Admm.Network.PriceSignalIsZero | src/procurement_lab/algorithms/admm.py:133-141 | So the recorded price signal is always zero |
| Admm.Network.StopIsAgreement | src/procurement_lab/algorithms/admm.py:123-146 | On a grid spaced more than two tolerances apart, a stop means all quantities equal the consensus, a grid point, and the recorded residual is zero |
| Admm.Network.StopIsNearOptimal | src/procurement_lab/algorithms/admm.py:115-146 | At any stop on any grid, from any state whose duals cancel (every reached one, by `DualsSumToZero`), no grid quantity at distance d beats what the participants chose themselves by more than N*rho/2*d^2 + N*tolerance*d plus the recorded residual times the total size of the duals |
| Admm.Network.NoResidualIffAgree | src/procurement_lab/algorithms/admm.py:123-127 | A recorded residual of zero says exactly that everyone chose the consensus, a grid quantity worth its joint utility |
| Admm.Network.ConcaveStopIsOptimal | src/procurement_lab/algorithms/admm.py:115-146 | With joint utility concave along any ascending grid, an agreed stop trails every grid quantity by at most N*(rho/2*width + tolerance) per unit, and none when every non-zero step exceeds its slack |
| AdmmStops.StopCases | src/procurement_lab/algorithms/admm.py:123-146 | On a grid spaced at least two tolerances apart, a stop agrees exactly or straddles two neighbours exactly two tolerances apart, the consensus halfway between |
| AdmmStops.StopIsOptimalIff | src/procurement_lab/algorithms/admm.py:115-146 | There, with concave participants and steep joint steps, a stop is a grid optimum exactly when its recorded residual is zero; otherwise it misses the optimum, one of the two neighbours, by half their difference |
| Concave.NeighboursBound | src/procurement_lab/algorithms/admm.py:115-146 | What the two neighbours of a point gain per unit bounds every gain of values concave along a grid |
| Oracle.Candidates | src/procurement_lab/algorithms/oracle.py:120-137 | Errors exactly on a non-positive step or negative bound; otherwise the ascending list of exactly the collected candidates |
| Oracle.Search | src/procurement_lab/algorithms/oracle.py:69-90 | The smallest candidate with the largest joint utility |
| Oracle.BestCandidateIsExact | src/procurement_lab/algorithms/oracle.py:69-137 | For piecewise-linear utility bending only at whole units, demand or capacity, the best candidate is the maximum over all reals in [0, capacity]; concavity is not needed |
| Oracle.CandidatesWithinBoundIff | src/procurement_lab/algorithms/oracle.py:120-137 | For any step and breakpoints, the candidates stay in [0, upper] exactly when the last step point, nudged and rounded as coded, does |
| PiecewiseLinear.Pwl.EndsDominate | src/procurement_lab/algorithms/oracle.py:69-90 | Between kinks no value exceeds both ends |
| Formula.Compile | src/procurement_lab/engine/formula.py:157-216 | Compilation succeeds exactly when the tree is small enough, has no objectionable node and stays within the allowed names; the result is its free names |
| Formula.TakeNode | src/procurement_lab/engine/formula.py:170-210 | Each step of the breadth-first walk removes exactly one node of the tree from what is left |
| FormulaMeaning.SizeIs | src/procurement_lab/engine/formula.py:182-184 | The size a formula is held to, construct by construct, as Python's walk counts it |
| FormulaMeaning.ObjectionIs | src/procurement_lab/engine/formula.py:186-206 | What a node is refused for: its type or operator, a private name, a call that is not direct, not to one of the eight functions, or has keywords; nothing else |
| FormulaMeaning.PrivateIs | src/procurement_lab/engine/formula.py:194-197 | Private names start with an underscore or have two in a row, and no other name is private |
| FormulaMeaning.FreeVarsAre | src/procurement_lab/engine/formula.py:194-200 | The free names are those that appear, the eight functions aside |
| Formula.EvalDependsOnFreeVars | src/procurement_lab/engine/formula.py:219-310 | Namespaces agreeing on the free variables give the same value or the same error |
| Formula.UnknownIsMissing | src/procurement_lab/engine/formula.py:219-310 | The unknown-variable error always names a free variable the namespace lacks |
| Formula.UnknownVariableUnreachable | src/procurement_lab/engine/formula.py:157-310 | A namespace holding every free variable never meets that error |
| Formula.CompiledStaysWhitelisted | src/procurement_lab/engine/formula.py:157-310 | A tree the walk does not object to never evaluates to a disallowed operator, a callee off the list or keyword arguments |
| FormulaMeaning.ArithmeticMeans | src/procurement_lab/engine/formula.py:235-260 | What each arithmetic and unary operator makes of operands with values, division by zero and the power limit included |
| FormulaMeaning.ForeignOperators | src/procurement_lab/engine/formula.py:235-300 | Operators off the whitelist have no meaning, whatever their operands |
| FormulaMeaning.FloorAndRemainder | src/procurement_lab/engine/formula.py:238-246 | `//` is whole, and `%` has the sign of the divisor and makes up the difference |
| FormulaMeaning.ComparisonMeans | src/procurement_lab/engine/formula.py:279-300 | A single comparison is 1 or 0 by the order of its operands |
| FormulaMeaning.ChainIsConjunction | src/procurement_lab/engine/formula.py:279-300 | A chained comparison is the conjunction of its links |
| FormulaMeaning.FalseLinkStops | src/procurement_lab/engine/formula.py:279-300 | The first false link decides, and nothing to its right is evaluated |
| FormulaMeaning.ConditionalIsLazy | src/procurement_lab/engine/formula.py:273-277 | A conditional evaluates its test and one branch only |
| FormulaMeaning.BooleanMeans | src/procurement_lab/engine/formula.py:302-308 | `and` and `or` evaluate every operand, then ask whether all or any are non-zero |
| FormulaMeaning.ListMeans | src/procurement_lab/engine/formula.py:262-271 | A list of arguments evaluates one for one, or to the error of its first failing member |
| FormulaMeaning.CallMeans | src/procurement_lab/engine/formula.py:219-271 | A call evaluates its arguments one level deeper, and six levels deep nothing has a value |
| FormulaMeaning.ExtremaMean | src/procurement_lab/engine/formula.py:61-75 | `min` and `max` need two arguments and return the least and the greatest |
| FormulaMeaning.AtomsMean | src/procurement_lab/engine/formula.py:219-233 | Constants are themselves; a name is its value, unless it is a function or missing |
| FormulaMeaning.RefusedAtEvaluation | src/procurement_lab/engine/formula.py:262-310 | Indirect and unlisted calls, keywords and what is no expression fail as coded |
| FormulaMeaning.ClipMeans | src/procurement_lab/engine/formula.py:35-38 | `clip` keeps a value between its bounds, moves it to the nearer bound otherwise, and rejects crossed bounds |
| FormulaMeaning.FunctionsMean | src/procurement_lab/engine/formula.py:41-75 | `abs`, `sqrt`, `log`, `exp` and `pow`, with the domains they are cut off at |
| Sdk.BuyerValue | src/procurement_mechanism_sdk/api.py:154-171 | Evaluating the shipped buyer formula gives its arithmetic in the parameters, which is piecewise linear with one kink at demand |
| Sdk.SupplierValue | src/procurement_mechanism_sdk/api.py:172-191 | Likewise the supplier formula, risk term included |
| Sdk.PackagerValue | src/procurement_mechanism_sdk/api.py:227-246 | Likewise the packager formula, with its kink at its soft capacity |
| Sdk.NamespaceIs | src/procurement_lab/engine/utility.py:21-63 | A name means the quantity, else the participant's own parameter, else the scenario's constant |
| Gap.BuildLedger | src/procurement_lab/engine/utility.py:90-132 | Local utilities, outside options, their total and capacity feasibility, or the first evaluation error |
| Gap.ValueOf | src/procurement_lab/engine/utility.py:21-73 | A shipped participant in a scenario evaluates to its piecewise-linear form, whatever its parameter values |
| Gap.CommonLedger | src/procurement_lab/engine/utility.py:90-132 | The ledger of a common quantity is defined, totals the joint utility, and is feasible up to capacity + 1e-6 |
| Gap.RunOracle | src/procurement_lab/algorithms/oracle.py:54-117 | On shipped formulas the oracle's ledger is that of a candidate, worth at least every candidate and every real quantity in [0, capacity] |
| Gap.ScoreRun | src/procurement_mechanism_sdk/api.py:417-434 | A run is scored exactly when it is capacity-feasible; in [0, capacity] its gap is never negative, and anywhere it is negative exactly when the quantity beats every candidate of the oracle |
| Gap.ScoredGapNeverNegativeIff | src/procurement_mechanism_sdk/api.py:417-434 | For any capacity, a scored quantity's gap is non-negative for all covered utilities exactly when it is at most the capacity or itself a candidate |
| ShippedScenario.NegativeGap | src/procurement_mechanism_sdk/api.py:417-434 | With demand 800 and capacity 799.9999995 the feasible quantity 800 is scored -0.000078 |
| ShippedScenario.BuyerEvaluates | src/procurement_mechanism_sdk/api.py:154-171 | The shipped buyer, for any demand and capacity, evaluates to 130 per unit up to demand and -55 beyond |
| ShippedScenario.SupplierEvaluates | src/procurement_mechanism_sdk/api.py:172-191 | The shipped supplier evaluates to 26 per unit up to demand and 17 beyond |
| ShippedScenario.JointIsCurve | src/procurement_mechanism_sdk/api.py:129-202 | The two formulas sum to 156 per unit up to demand and -38 beyond |
| ShippedScenario.OracleTakesDemand | src/procurement_lab/algorithms/oracle.py:54-117 | With demand within capacity the oracle takes exactly the demand, worth 70 a unit, optimal over all real quantities |
| ShippedScenario.OracleTakes35000 | README.md:26-58 | The oracle takes 500 units and 35000, optimal over all real quantities up to capacity |
| ShippedScenario.IdealsOnGrid | src/procurement_lab/algorithms/simple.py:196-204 | On the 25-unit scenario grid the buyer's ideal is 500 and the supplier's 825, one step past capacity |
| ShippedScenario.AveragingNeverSettles | README.md:3-58 | On the scenario's own grid and evaluated formulas, for any iteration limit and tolerance below 56.875, averaging stays 56.875 short at 662.5; its ledger is worth 28825, scored 6175 below the oracle |
| ShippedAdmm.AdmmLandsOnTheOptimum | README.md:61 | The reported run, from 0.8 x demand on its own candidate grid and evaluated formulas: at any tolerance below 1.5 and any limit of at least 11 rounds ADMM converges in round 11 at 500, worth 35000, gap 0 |
| ShippedAdmm.AdmmSettlesShort | src/procurement_lab/algorithms/admm.py:115-146 | With demand 235 and the demo's tolerance 0.5 ADMM reports convergence in round 8 at 234.5, 78 short of the oracle |
| ShippedAdmm.StopIsDemandIff | src/procurement_lab/algorithms/admm.py:115-146 | For any whole demand, start and tolerance up to half a unit, a stop is the optimum exactly when its recorded residual is zero; otherwise it is half a unit off, 78 or 19 short |
| Field.DecodeEncode | src/procurement_lab/algorithms/weighted_nash_mpc.py:137-159 | Decoding undoes encoding within 2^-33 while the scaled value fits half the field |
| Field.SentinelWrapsPositive | src/procurement_lab/algorithms/weighted_nash_mpc.py:126-145 | The infeasible sentinel does not fit the field and decodes above 73 million |
| Field.ReconstructSplit | src/procurement_lab/algorithms/weighted_nash_mpc.py:162-185 | Reconstruction undoes splitting for any number of parties and any draws |
| Field.SplitIs | src/procurement_lab/algorithms/weighted_nash_mpc.py:162-176 | Splitting needs two parties; all shares but the last are the draws themselves |
| Field.EveryViewFromOneDraw | src/procurement_lab/algorithms/weighted_nash_mpc.py:162-176 | Whichever share is withheld, each view of the others arises from exactly one choice of draws, whatever the secret |
| Field.SecureAddIsHomomorphic | src/procurement_lab/algorithms/weighted_nash_mpc.py:212-216 | Adding share by share adds the secrets |
| Beaver.SecureMul | src/procurement_lab/algorithms/weighted_nash_mpc.py:219-262 | For every valid triple the result reconstructs to the product; errors exactly on lists that are not pairs |
| Beaver.CompareIff | src/procurement_lab/algorithms/weighted_nash_mpc.py:265-297 | For any scores and blinding factor, the comparison says greater exactly when the blinded difference lands in the lower half of the field |
| Beaver.CompareIsGreater | src/procurement_lab/algorithms/weighted_nash_mpc.py:265-297 | While the blinded difference fits half the field the comparison is the true one |
| SecureArgmax.Bookkeeping.AddChunk | src/procurement_lab/algorithms/weighted_nash_mpc.py:303-320 | Appends one chunk to the transcript and nothing else |
| SecureArgmax.ShareAll | src/procurement_lab/algorithms/weighted_nash_mpc.py:594-630 | Phase 1 yields the feasibility mask and two shares of every encoded score, one round each |
| SecureArgmax.SumChunksAre | src/procurement_lab/algorithms/weighted_nash_mpc.py:594-630 | Phase 1 leaves one sum per candidate in the transcript, in order |
| SecureArgmax.MaxTree | src/procurement_lab/algorithms/weighted_nash_mpc.py:632-673 | Phase 2 returns the first feasible maximum and records just who beat whom, for any blinding factors |
| SecureArgmax.Run | src/procurement_lab/algorithms/weighted_nash_mpc.py:567-673 | The secure search refines the plain one: smallest feasible index of maximal score, for all randomness |
| SecureArgmax.BestIsFirstMaximum | src/procurement_lab/algorithms/weighted_nash_mpc.py:632-673 | That index is feasible, maximal, strictly above earlier feasible ones, and -1 only when nothing is feasible |
| SecureArgmax.TranscriptReveals | src/procurement_lab/algorithms/weighted_nash_mpc.py:303-331 | What the transcript shows, chunk by chunk: the first feasible candidate, and whether each later feasible one beats the best before it |
| SecureArgmax.ComparisonsAreLogged | src/procurement_lab/algorithms/weighted_nash_mpc.py:632-673 | As many comparisons as the transcript shows: one per feasible candidate after the first |
| SecureArgmax.TranscriptShowsOrderOnly | src/procurement_lab/algorithms/weighted_nash_mpc.py:303-331 | Same mask and same order of feasible scores give the same transcript and winner: magnitudes never reach it |
| SecureArgmax.Problem.BlindingNeverWraps | src/procurement_lab/algorithms/weighted_nash_mpc.py:265-297 | With log-gains of magnitude at most 1000, no blinded difference of feasible scores wraps the field |
| SecureArgmax.Problem.InfeasibleComparison | src/procurement_lab/algorithms/weighted_nash_mpc.py:265-297 | A candidate infeasible to either party would win against a feasible one exactly when the blinded difference lands in the lower half; for every such pair one blinding factor makes it win and another makes it lose |
| SecureArgmax.Problem.WinnerWithinFixedPointError | src/procurement_lab/algorithms/weighted_nash_mpc.py:605-673 | The winner's log-Nash product trails no feasible candidate's by more than 2/2^32 |
| SecureArgmax.WinnerNashProduct | src/procurement_lab/algorithms/weighted_nash_mpc.py:605-673 | With a multiplicative log, the same about the log of the Nash product itself |
| WeightedNash.ComputeNashProduct | src/procurement_lab/algorithms/weighted_nash.py:77-98 | The product of gains, zero as soon as some party gains nothing; for two parties max(0, u0 - d0) * max(0, u1 - d1) |
| WeightedNash.ProductGrows | src/procurement_lab/algorithms/weighted_nash.py:77-98 | Each further party multiplies the product by its own gain, cut off at zero |
| WeightedNash.ProductPositiveIff | src/procurement_lab/algorithms/weighted_nash.py:77-98 | It is positive exactly when every party strictly beats its outside option |
| WeightedNash.PlaintextArgmax | src/procurement_lab/algorithms/weighted_nash.py:101-162 | The failure cases, and otherwise the quantity the tolerant scan keeps |
| WeightedNash.GridPointIs | src/procurement_lab/algorithms/weighted_nash.py:132-135 | The 64 quantities divide [0, upper] evenly and are those of the secure search |
| WeightedNash.TwoPartySearch | src/procurement_lab/algorithms/weighted_nash.py:101-162 | In the two parties' own utilities: feasible exactly when some quantity suits both; then no product of gains is larger by more than 1e-9 and every smaller quantity's is strictly smaller |
| WeightedNash.NearMaximalAndRational | src/procurement_lab/algorithms/weighted_nash.py:101-162 | Within 1e-9 of every grid product; if some product exceeds 1e-9 every party strictly gains |
| WeightedNash.FeasibleWithZeroProductIff | src/procurement_lab/algorithms/weighted_nash.py:101-162 | A feasible solution has product 0 exactly when quantity 0 has and no product exceeds 1e-9 |
| WeightedNash.TinyGainsKeepZero | src/procurement_lab/algorithms/weighted_nash.py:101-162 | An input on which that happens |
| WeightedNash.DominatingCandidateGainsLittle | src/procurement_lab/algorithms/weighted_nash.py:101-162 | A grid quantity better for everyone improves the product by at most 1e-9 |
| WeightedNash.SameFeasibleSet | src/procurement_lab/algorithms/weighted_nash_mpc.py:594-605 | The plaintext search and the secure mask agree on which quantities are feasible |
| WeightedNash.SearchesAgree | decisions/DEC-MPC-001-mpc-mechanism-path-and-contract.md:221-222 | A candidate ahead by more than 1e-9 in product and 2/2^32 in log-product is what both searches return |
| WeightedNash.LogOfProduct | src/procurement_lab/algorithms/weighted_nash_mpc.py:594-605 | The log of the plaintext product is the log-product the secure search compares |
| ShippedRuns.NashSettles | reports/mechanism-scorecard.md:10 | On the base scenario the plaintext search settles on candidate 40 of 64, 507.94 units, scored 19000/63, about 301.59 |
| ShippedRuns.SecureSearchAgrees | reports/mechanism-scorecard.md:12 | Under any log like the natural one the secure search reveals that candidate too |
| Transfer.ComputeTransfer | src/procurement_lab/engine/cbt.py:20-104 | Negative surplus pays nothing and is infeasible, an unknown rule errs after that, otherwise payments and verdicts are as stated |
| Transfer.TransfersSumToSurplus | src/procurement_lab/engine/cbt.py:52-83 | Under both rules the payments sum to the whole surplus |
| Transfer.SharesAre | src/procurement_lab/engine/cbt.py:52-83 | The equal rule pays everyone the same; the proportional rule pays in proportion to each shortfall, or everyone the same when there is none |
| Transfer.BudgetBalancedIff | src/procurement_lab/engine/cbt.py:85-104 | Settled utilities exceed the plan's total by the surplus, so they balance exactly when it is zero |
| Transfer.ProportionalFeasibleIff | src/procurement_lab/engine/cbt.py:52-104 | The exact feasibility condition d_i*(D - surplus) <= 1e-6*D for all parties, or D = 0 |
| Transfer.CoveringSurplusIsFeasible | src/procurement_lab/engine/cbt.py:52-104 | A surplus covering the total shortfall makes everyone whole |
| Transfer.GainsNonNegative | src/procurement_lab/engine/cbt.py:52-83 | With a non-negative surplus nobody pays |
| TranscriptProtocol.QuantizeToLevel | src/procurement_lab/engine/privacy.py:161-179 | A quantized step is one of 32 levels, within half a level of the clipped input |
| TranscriptProtocol.FullStepIsExact | src/procurement_lab/engine/privacy.py:161-243 | The full scheduled step survives quantization unchanged |
| TranscriptProtocol.Protocol.AggregateNext | src/procurement_lab/engine/privacy.py:246-266 | The next candidate is the clipped weighted sum of the proposals |
| TranscriptProtocol.Protocol.Run | src/procurement_lab/engine/privacy.py:283-369 | It stops at the first round that is all zeros or moves less than the tolerance, with the matching allocation and residual |
| TranscriptProtocol.Protocol.StopsIs | src/procurement_lab/engine/privacy.py:313-348 | A round stops the run exactly when no party wants to move or the candidate moves by less than a thousandth |
| TranscriptProtocol.Protocol.DirectionIs | src/procurement_lab/engine/privacy.py:182-213 | A party points to the side, a unit away and cut off at zero, that is worth more than a thousandth more to it |
| TranscriptProtocol.Protocol.CandidatesStayInRange | src/procurement_lab/engine/privacy.py:246-266 | Every candidate of every run lies in [0, upper] |
| TranscriptProtocol.Protocol.MoveBounded | src/procurement_lab/engine/privacy.py:216-266 | Each move is at most the sum of weights times the scheduled step |
| TranscriptProtocol.StopIsPareto | src/procurement_lab/engine/privacy.py:313-348 | For concave unit-weight parties, a stop by cancelling directions leaves no quantity a unit away that suits all at least as well |
| TranscriptProtocol.ZeroStopIsNearOptimal | src/procurement_lab/engine/privacy.py:182-213 | When all directions are zero nobody gains more than the tolerance per width of the finite-difference window by moving, cut off at zero as coded |
| Reviews.ResolveIs | scripts/factory/pipeline.py:1948-1955 | One reviewer per configured name that is not "none", in order |
| Reviews.CrossModelIs | scripts/factory/pipeline.py:2384-2395 | A reviewer of the implementer's own family is swapped for the other family, everyone else stays |
| Reviews.NoSelfReviewIff | scripts/factory/pipeline.py:1948-1955 | No resolved reviewer is the implementer exactly when it is in a swappable family or not configured |
| Reviews.RunReviewers | scripts/factory/pipeline.py:2460-2556 | The joined transcript of reviewers, then lensed personas, with a REJECT or NEEDS_PATCH note per failed worker; nobody is asked when reviews are off |
| Reviews.AnyCaseCounts | scripts/factory/pipeline.py:2421-2430 | Status lines are read in either case, with or without the blank |
| Reviews.UpperCharIs | scripts/factory/pipeline.py:2421-2430 | Upper-casing moves letters to the same place of the capital alphabet and changes nothing else |
| Reviews.JoinHasMarker | scripts/factory/pipeline.py:2421-2441 | A status marker is in the joined transcript exactly when it is in one chunk: none straddles a separator |
| Reviews.PanelVerdict | scripts/factory/pipeline.py:2421-2556 | With stubs or real workers, a failed reviewer combines to REJECT; CLEAN means everyone answered and no transcript is marked REJECT or NEEDS_PATCH |
| Verdicts.RepliesDecide | scripts/factory/pipeline.py:2421-2556 | For any names and output: a failed reviewer or one REJECT in any asked worker's own words rejects; CLEAN means none of them failed or said REJECT or NEEDS_PATCH |
| Verdicts.PanelVerdictIs | scripts/factory/pipeline.py:2421-2556 | Without colons in names and failed personas' errors, the verdict is the most severe status the workers give in their own words, failures counted, and without any status the prose reading, CLEAN when no blocker is named |
| Verdicts.DryPanelVerdict | scripts/factory/pipeline.py:2479-2490 | In a dry run nobody is asked and the verdict is the one the stubs were given |
| Reviews.WorstVerdictIff | scripts/factory/pipeline.py:2421-2441 | The aggregate is the most severe single verdict, for any reading of prose, exactly with one transcript, a marked REJECT, or all marked |
| Reviews.DisabledReviewIsClean | scripts/factory/pipeline.py:2474-2475 | With reviews off the verdict is CLEAN whatever the heuristics |
| Reviews.SentinelsUnambiguous | scripts/factory/pipeline.py:1941-1945 | No transcript can be mistaken for one of the loop's three sentinel strings |
| Tasks.RunGates | scripts/factory/workers.py:596-641 | One outcome per gate in order; the aggregate is true exactly when every must-pass gate is ok |
| Tasks.RunContractGates | scripts/factory/pipeline.py:569-672 | Every violation found, or else a pass for each declared part; ok exactly when no required one is violated |
| Tasks.PatchCapIsUnreachable | scripts/factory/pipeline.py:942-982 | Within the loop's own bound the patch-round budget is never the cap that is hit |
| Tasks.LimitHitIff | scripts/factory/pipeline.py:948-982 | A cap is hit exactly when some measure exceeds its cap, and it is the first of the four in order |
| Tasks.FailedCountAdds | scripts/factory/pipeline.py:2129 | Gate failures are counted one per must-pass outcome that is not ok |
| Tasks.TriageIs | scripts/factory/pipeline.py:1832-1842 | When a done run is held, investigated or passed, by policy, failed outcomes, caveat and ambiguity |
| Tasks.AmbiguousIs | scripts/factory/pipeline.py:2397-2418 | Ambiguous: forty characters once stripped, no status line, no prose verdict |
| Tasks.Stripped | scripts/factory/pipeline.py:2397-2410 | Stripping drops the blanks at both ends and nothing else |
| Stores.Store.UpsertTask | scripts/factory/state.py:141-158 | Creates a pending row or keeps the existing one, its status included |
| Stores.Store.UpdateAwaiting | scripts/factory/state.py:174-181 | Writes status and checkpoint together, or nothing when the row is missing |
| Stores.Store.AppendEvent | scripts/factory/state.py:185-202 | Appends one event and leaves the row alone |
| ImplementLoop.RunImplementLoop | scripts/factory/pipeline.py:1926-2298 | Every store write and ledger event of the loop in order, how it ends, and the outcomes it returns |
| LoopOutcomes.LoopEndsIff | scripts/factory/pipeline.py:1966-2298 | The loop ends in its first round that asks for no other, in the one way that round's answers call for, with the money and failures of the rounds before it; the log has one entry per stage and the ledger one check per outcome |
| LoopOutcomes.OutcomesAre | scripts/factory/pipeline.py:2050-2105 | A round without a diff is one failed outcome; otherwise each gate's own exit, then the contract's violations or passes |
| LoopOutcomes.ChecksAre | scripts/factory/pipeline.py:2180-2200 | Outcomes are emitted one for one as passed or failed, up to the first unnamed one |
| Pipeline.RunPipeline | scripts/factory/pipeline.py:1044-1920 | Every store write of an invocation, its end, its Run record and its whole ledger, on every path |
| Pipeline.FindingsNamed | scripts/factory/pipeline.py:686-715 | Each hard-gate finding becomes one failed must-pass outcome named after it; they pass exactly when there are none |
| Pipeline.DigestCoversGates | scripts/factory/pipeline.py:371-499 | The start event's digests cover the goal and the name of every gate, no other |
| Invocations.RunEndsIff | scripts/factory/pipeline.py:1044-1920 | When an invocation ends how, from its task, flags, environment and the end of its loop: it waits at a checkpoint exactly when the task names it, it is reached and it was not the one resumed from |
| Invocations.RunLogsIff | scripts/factory/pipeline.py:1044-1920 | Every event outside the loop is logged exactly when it should be: each pause, resume, commit and end |
| Invocations.RunStopsLast | scripts/factory/pipeline.py:924-940 | Unless the ledger raised, the last thing logged is the stop |
| Invocations.ExitCodeTells | scripts/factory/run.py:310-330 | Exit code 0 exactly when the log has a pipeline.done, 2 exactly when it has a checkpoint.paused, else 1 |
| Invocations.RecordTells | scripts/factory/pipeline.py:371-499 | The Run record says done, cancelled or failed exactly for a finished, a rejected and a planless run |
| Invocations.TriageSees | scripts/factory/pipeline.py:1655-1842 | Triage looks at the loop's review and outcomes, or at what a resume brings: the stored review, or nothing |
| RunReports.DoneSummary | scripts/factory/pipeline.py:371-499 | A finished run's record names every outcome of every round in order, so it says all gates passed exactly when nothing failed in any round |
| Approvals.GuardedByApproval | scripts/factory/pipeline.py:1769-1817 | Over any history whose tasks all pause at a checkpoint: no implementation before its plan, no commit before its diff and no finish before its pull request was paused at, resumed, and not voided since by new work, a new plan or a rejection |
| Approvals.UnkilledPausesLogged | scripts/factory/pipeline.py:1769-1785 | In a history without kills every pause in the row is in the log right after it |
| Invocations.KilledPauseIsResumed | scripts/factory/pipeline.py:1769-1785 | An input with a kill: the log has a resume from plan_review and no pause at plan_review |
| RunEvidence.Ledger.Emit | scripts/factory/pipeline.py:316-337 | An event is recorded exactly when it meets the schema; otherwise the emission fails and nothing is recorded |
| RunEvidence.AggregateGateResults | src/procurement_lab/run_evidence.py:437-469 | The emitter's summary: names per kind, unnamed checks filed under their type, none without a check |
| RunEvidence.ScanGateResults | scripts/validate_run_evidence.py:278-305 | The validator's scan: names per kind, unnamed checks skipped |
| RunEvidence.SummariesAgreeIff | scripts/validate_run_evidence.py:278-305 | The two summaries of any list with a check agree exactly when every passed or failed check is named |
| RunEvidence.CheckDoneRun | scripts/validate_run_evidence.py:308-409 | The violations reported for a done run are exactly those that hold |
| RunEvidence.CrossCheckDoneRuns | scripts/validate_run_evidence.py:308-409 | The cross-check is silent exactly when every done run conforms |
| RunEvidence.EmittedRunConformsIff | scripts/factory/pipeline.py:371-499 | A start event, a valid body and an evidence record always pass the four cross-checks, and pass overall exactly with a sandbox reference and a gate check |
| EvidenceRules.FinalRecordIs | scripts/factory/pipeline.py:371-499 | A final record has both digests, the pending sandbox exactly when the head is known and a summary exactly when there was a check, and reports just those fields populated |
| EvidenceRules.FiledUnder | src/procurement_lab/run_evidence.py:437-469 | The emitter files a named check under its name and an unnamed one under its event type |
| EvidenceRules.SchemaIs | scripts/factory/pipeline.py:316-337 | The schema rule: a passed or failed check carries a non-empty name |
| EvidenceRules.FirstStartDecides | scripts/validate_run_evidence.py:342-366 | The first start event is the one whose digests must be the record's; later ones do not count |
| EvidenceRules.LastEvidenceDecides | scripts/validate_run_evidence.py:368-389 | The last evidence event is the one whose fields must be the record's |
| EvidenceRules.AbsenceIsReported | scripts/validate_run_evidence.py:333-352 | A ledger without a start, or without evidence, violates just that and is compared no further |
| EvidenceRules.FieldsAre | scripts/validate_run_evidence.py:308-331 | A field is missing exactly when it is not populated, or is an empty sandbox reference or an empty summary |
| EvidenceRules.MissingIsReported | scripts/validate_run_evidence.py:322-331 | Of the six fields just the four required ones are reported when missing or empty |
| EvidenceRules.SummaryIsReported | scripts/validate_run_evidence.py:391-408 | A summary mismatches exactly when it differs from the ledger's named checks in some name, some count or the all-passed flag |
| FactorySafety.LoopSafe | scripts/factory/pipeline.py:1966-2298 | From any round within the bound the loop keeps the invariant after every write, and falling out means must-pass gates ok and a CLEAN review |
| FactorySafety.RunSafe | scripts/factory/pipeline.py:1044-1920 | Any entitled invocation keeps the invariant after every single write, commits only what is vetted, and leaves the stated status |
| FactoryHistory.RunCommand | scripts/factory/run.py:310-330 | Running a task makes the pipeline's writes and exits 2 when paused, 0 when done, else 1 |
| FactoryHistory.RunResume | scripts/factory/run.py:336-383 | Resuming writes nothing and exits 1 unless the row awaits approval at a checkpoint and the spec is found |
| FactoryHistory.RejectTask | scripts/factory/pipeline.py:2570-2584 | Rejection clears the checkpoint of any existing row, paused or not |
| FactoryHistory.VettedIff | scripts/factory/pipeline.py:2108-2263 | The tracked vetting is exactly: last gates run passed all must-pass gates, the review after it is CLEAN, nothing reworked since |
| FactoryHistory.HistorySafe | scripts/factory/run.py:336-383 | Every history of runs, resumes, rejections and kills keeps the invariant after every write |
| FactoryHistory.CommitsAreVetted | scripts/factory/pipeline.py:1759-1766 | At every commit of every history the latest loop had ended with must-pass gates ok and a CLEAN review, and this invocation's hard gates had passed |
| FactoryHistory.FixedModeCommits | scripts/factory/pipeline.py:1759-1766 | With one dry_run setting throughout, every commit was vetted in that setting |
| FactoryHistory.AwaitingNamesCheckpoint | scripts/factory/run.py:346-348 | In every history, whatever the task files say, a row awaiting approval names its checkpoint |
| FactoryHistory.FreshRunSafeIff | scripts/factory/pipeline.py:942-945 | A fresh run is safe from every state and in every environment exactly when the effective cap is not negative or it pauses at plan_review |
| FactoryHistory.ResumedPlanSafeIff | scripts/factory/pipeline.py:942-945 | A plan_review resume is, exactly when the effective cap is not negative |
| FactoryHistory.MismatchedCommitIff | scripts/factory/pipeline.py:1643-1766 | Resumed past the loop, a commit is made in another mode than its vetting exactly when the flag differs and the commit is reached |
| FactoryHistory.DryPauseRealCommit | scripts/factory/run.py:364-373 | A history whose real commit only dry-run stubs have vetted |
| FactoryResults.StoredStatusIff | scripts/factory/pipeline.py:2262-2277 | For any task, the stored status equals the returned one exactly when that is not "rejected", which is stored as blocked or failed |
| FactoryResults.DoneIsNeverHeld | scripts/factory/pipeline.py:1832-1851 | The terminal triage of a run that reaches it is never HOLD, for any task and any environment |
| FactoryResults.TriageSurvivesPauseIff | scripts/factory/pipeline.py:1832-1842 | A pre_pr resume triages like the uninterrupted run exactly when there was nothing to investigate |
| FactoryResults.PauseLosesInvestigate | scripts/factory/pipeline.py:1832-1842 | An input on which it does not: an advisory failure is INVESTIGATE uninterrupted and PASS when resumed |
| FactoryResults.DoneRunConformsIff | scripts/factory/pipeline.py:1871-1891 | Every done run passes the four cross-checks; overall exactly with a sandbox reference and a gate check from its own loop |
| FactoryResults.GatedDoneConformsIff | scripts/validate_run_evidence.py:308-409 | With gates, a done run conforms exactly when it ran the loop itself, its cap was not negative and the sandbox reference was derivable |
| FactoryResults.GatelessDoneConformsIff | scripts/validate_run_evidence.py:308-409 | Without gates, a done run conforms exactly when all that holds, it was not a dry run, and the task declares a contract or some earlier round came back without a material diff |

## Left out

- IEEE 754 rounding: all money, quantities and logs are exact reals; the code's own roundings and tolerances (1e-6, 1e-9, six decimals) are kept.
- Natural log is an arbitrary function with the properties a lemma names; the step schedule is an arbitrary positive non-increasing sequence.
- SecureArgmax.Run: assumes every feasible log-gain has magnitude at most 1000, which every finite positive double has but the code does not check.
- Probability: hiding is stated as a bijection between draws and views, not as a distribution.
- Information modes, multi-period scenarios, non-unit bargaining weights in the Nash search, and scenarios without a declared capacity in ledgers; the code refuses them or never uses them on these paths.
- The Python parser and the string-level checks of formula compilation: the model starts from the parsed tree.
- BestResponse.Game: stated for any symmetric penalty; `BestResponse.Negotiation` is the shipped quadratic one.
- ShippedAdmm.AdmmLandsOnTheOptimum: needs a tolerance below 1.5; at 1.5 the recorded residuals of round 9 already meet it, at a consensus of 498.5.
- RunEvidence.Ledger.Emit: of the event schema only the rule that gate checks carry a name is modelled; the other payload rules are not.
- Scenario tables, dictionaries keyed by participant id: sequences by position.
- Ranking and eligibility of mechanisms, participation reports and leakage reports: only easy members.
- The MPC run wrapper, its seed derivation and transcript hashing, and the two weighted-Nash wrappers around the search.
- Prose heuristics and caveat keywords of review texts: arbitrary functions of the text; upper-casing is ASCII; worker output is taken as already stripped.
- Worker resolution and its stub fallback, prompts, worker bookkeeping events, defect logs, handoff files, STATUS.md updates and stop reasons.
- The artifact store: whether a plan is stored and which review text is rehydrated are inputs of the invocation.
- Push and pull-request creation after triage; the push is decided by the triage the model computes.
- Exceptions other than the ledger's schema error and a kill between two store writes; a failing `git commit` is a kill before the commit event.
- SHA-256, UUIDs and timestamps: a digest is the canonical form itself, so equal digests mean equal forms.
- The validator's JSON, schema and URI checks, its in-progress check, and the copy of the summary in the pipeline.done event.
- Several tasks sharing one store: rows and events are keyed by task id, so one task is modelled.
