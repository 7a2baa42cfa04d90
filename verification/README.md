# Verification of the HORIZON-RIC benchmark loops

A Dafny model of the algorithms inside the repository's benchmark loops, of the
Decision Safety Shield and the environment they run behind, and of the script
that compares a reproduced result with the committed one. Every module is one
component of the repository:

| module | component |
|---|---|
| `Handover` | the A3 beam tracker, the greedy tracker and the mobility metrics |
| `Shield`, `ShieldedEnv` | the disposal loop (sanity, occupied bandwidth, EIRP) and the spectrum environment behind it |
| `CreditTables`, `CreditTraining`, `CreditReplay` | the four credit regimes: tables updated in place, the training loop, the replay from the evidence chain |
| `Exploration`, `LearnerSteps` | the optimistic batch bandit that learns only from the replayed chain, and its single draws and records |
| `ProjectionCapacity` | the learner with a limited value model behind the EIRP clamp |
| `EnvelopeGate`, `BlockGate` | the window gate that routes blocks between the neural and the certified receiver, and its exact reach on block errors of 0 and 1 |
| `Partition`, `EpsilonSearch` | the Lloyd partition of the receivers and the two bisections of the privacy audit |
| `LinearAlgebra`, `SuffStats`, `LocalSolve` | the FedProx local step from sufficient statistics |
| `StepResponse`, `MeanOfSteps`, `AffineSteps` | how one client's step, and the mean of all steps, answer a change of the global model |
| `Federation`, `TrainingRounds`, `OrderStatistics` | warm-started federated rounds, what each of them moves, the two aggregators, ranks, and how the median follows one value |
| `Erasure`, `LinearPatch`, `MedianPatch` | subject erasure, and when the linear shortcut is the retrain under the mean and under the median |
| `Unlearning`, `HonestMedian`, `ReplayExactness`, `ReplayEnd` | falsified training, stealthy or not, the norm a stealthy upload is sent at, and when the cheap replay is the honest-only retrain |
| `FalseReport`, `Containment`, `StealthContainment`, `StealthLeak` | what a falsified report does to one upload, which subbands it reaches, and when stealth changes that |
| `InterceptFederation`, `Elimination`, `Learners` | federations with closed-form steps for the instances, a linear solver, and learners with every assumed contract |
| `Reproduction` | the tolerance comparison of JSON documents |
| `Common` | options, raised errors, numpy's sum, mean, argmax, argmin and flatnonzero |

`dafny verify dfyconfig.toml` checks everything.

Modelling conventions. Floats are exact reals and a NaN table entry is `None`.
A raised exception is an `Err`. A random generator is an arbitrary stream of
draws, so a statement about a run holds for every seed. Code that updates
arrays or tables in loops is a method (or, for `_TabularRegime`, a class) proved
equal to a specification function or predicate; the properties are then lemmas
about that specification.

Where a documented or an expected statement does not hold of the code as it stands,
the model follows the code, and a lemma says exactly when the statement holds:

- `_serve_greedy` is documented as the 0 dB, TTT = 1 case of the tracker. That is
  so exactly on timelines where no change of best beam ties with the previous
  best beam (`GreedyIsZeroHysteresisUpToTies`, `GreedyDiffersOnATie`).
- `Shield.is_feasible` is documented as equivalent to `safe_action == action`. The
  two part only on a payload that arrives with `emit_blocked` already set
  (`Dispose`, `BlockedInputComesBackUnchanged`).
- The environment's `projected` flag is coarser than infeasibility
  (`ReportedProjectedIsCoarser`, `InfeasibleButNotReported`); on the 1 dB grid of
  the benchmarks they agree for every carrier that fits into the band (`ShieldOnGrid`, `PenaltyFallsOnInfeasible`).
- The envelope test adds 1e-9 to both rates before taking the ratio. "Satisfied
  implies measured <= alpha * baseline" therefore holds for all rates exactly when
  alpha <= 1 (`CleanContractExactly`), and the whole-run bound carries a slack of
  (alpha - 1) * 1e-9 per block (`GateBound`).
- The gate's factor 1 + alpha is not reached by block errors of 0 and 1 at the
  shipped settings. There the sharp factors are 9/4, 19/9 and 2 at 1.0, 0.5 and
  0.2 dB, with no slack left (`GateBoundInBlocks`, `SharpAtOneDecibel`,
  `SharpAtHalfADecibel`, `SharpAtAFifthOfADecibel`).
- The linear patch of the erasure suite is the retrain, under the mean and at any
  number of rounds, exactly when the models before the last round are the same with
  and without the subject (`PatchExactly`). Read off the shipped run alone, it is so at
  every number of rounds up to R exactly when at each earlier shipped model the target
  uploads the same from its full and its downdated statistics (`PatchExactlyUpTo`,
  `PatchExactlyAtTwoRounds`). Under the median at one round it is so exactly when, in
  every entry, the target's upload, confined to the middle of the other clients'
  uploads, moves by its share of its own move (`MedianPatchExactly`). Both conditions
  fail on small federations of the shipped size (`WarmStartBreaksThePatch`,
  `MedianBreaksThePatch`).
- The cheap unlearning replay follows the honest-only retrain round by round, under
  the mean and at any number of rounds, exactly as long as no subject of a kept client
  tells the attacked model from the replayed one, both read off the cached uploads
  (`ReplayExactly`, `ReplayExactlyAtTwoRounds`). Its last model alone is the retrain
  exactly when no such subject tells the mean of the attacked models from the mean of
  the honest ones (`ReplayEndsExactly`). The condition fails for two clients of the
  shipped size (`WarmStartKeepsTheAttack`).
- A falsified subband is contained under every entrywise aggregator as long as the
  uploads are not mixed on the way (`AttackStaysInItsSubband`). For any treatment of
  the uploads, any number of liars and rounds, another subband stays the honest one
  after every round exactly when in every round what is sent has, entry by entry, the
  summary of what was computed (`ContainedExactly`). For the stealthy attack that means:
  under the mean, the rescalings' changes cancel (`StealthUnderTheMean`; for one liar,
  the rescaling is void or the upload zero there, `OneStealthyLiarUnderTheMean`); under
  the median, one liar's rescaled upload stays on its side of the middle of the honest
  ones (`OneStealthyLiarUnderTheMedian`), so a rescaled outlier need not move anything.
  `StealthLeaks` is a federation of the shipped size where the mean leaks.

## Model

| member | source | states |
|---|---|---|
| Handover.ServeA3 | benchmarks/mobility_handover_loop.py:182-199 | The counter loop serves exactly what the counter-free window rule asks for: at k it switches to the best beam iff that beam was best and clear by more than hyst on the last ttt samples while the serving beam stayed the same |
| Handover.A3TraceUnique | benchmarks/mobility_handover_loop.py:182-199 | The window rule determines the whole trace, so the specification leaves the loop no freedom |
| Handover.A3Exactly | benchmarks/mobility_handover_loop.py:182-199 | The first sample serves the best beam; at every later one the trace moves to a beam if that beam was the best one and above the serving beam by more than hyst on each of the last ttt samples, served alike throughout, and stays where it is if no beam was |
| Handover.CounterStep | benchmarks/mobility_handover_loop.py:190-198 | The pair (candidate, count) always measures the longest current run of one contender; no other beam has a run |
| Handover.SwitchWindow | benchmarks/mobility_handover_loop.py:191-195 | A switch at k is never earlier than sample ttt and is preceded by ttt samples on one serving beam, on all of which the new beam won by more than hyst |
| Handover.EventsExact | benchmarks/mobility_handover_loop.py:206-210 | The event list is in order, contains only real beam changes and misses none |
| Handover.DwellTime | benchmarks/mobility_handover_loop.py:187-210 | The first handover is at sample ttt or later and consecutive handovers are at least ttt samples apart, on every timeline |
| Handover.HandoverCountBound | benchmarks/mobility_handover_loop.py:187-221 | handovers * ttt <= T - 1 |
| Handover.PingPongSwing | benchmarks/mobility_handover_loop.py:187-216 | If gain differences move by at most L per sample, A to B at k1 and back at k2 need (k2 - k1 - ttt + 1) * L > 2 * hyst |
| Handover.PingPongFree | benchmarks/mobility_handover_loop.py:211-216 | No ping-pong is counted when ttt exceeds the window or the fading is too slow to swing by twice the hysteresis within it |
| Handover.BoundedOutage | benchmarks/mobility_handover_loop.py:187-219 | With hyst within the outage margin no ttt consecutive samples under one best beam are all in outage |
| Handover.OutageEnds | benchmarks/mobility_handover_loop.py:187-219 | After ttt - 1 outage samples under one best beam the next sample is served without outage |
| Handover.ImmediateTriggerGain | benchmarks/mobility_handover_loop.py:177-199 | At ttt <= 1 the serving gain is within hyst of the greedy gain at every sample, and equal to it at hyst 0 |
| Handover.GreedyIsZeroHysteresisUpToTies | benchmarks/mobility_handover_loop.py:177-179 | The 0 dB, TTT = 1 trace is the greedy trace if and only if no change of best beam is a tie |
| Handover.GreedyDiffersOnATie | benchmarks/mobility_handover_loop.py:177-199 | A two-sample timeline on which the two trackers part |
| Handover.NoMoreHandoversThanGreedy | benchmarks/mobility_handover_loop.py:177-210 | On every prefix, for every hyst and ttt, A3 hands over at most as often as greedy |
| Handover.ReportsCompared | benchmarks/mobility_handover_loop.py:202-225 | What any two reports on one timeline have in common: handover order, handover bound, and which policies report no outage |
| Handover.MetricsExactly | benchmarks/mobility_handover_loop.py:202-225 | Every count of the report is a number of samples or events: handovers the samples whose beam is new, ping-pongs the handovers that return within five samples to the beam just left, outages the samples too far below the best beam; beams visited are exactly the beams that served |
| Shield.Dispose | src/horizon_ric/shield/shield.py:126-206 | Projects exactly the infeasible payloads, emits only feasible ones, blocks exactly those already blocked or without a legal placement, and leaves feasible ones untouched |
| Shield.PassSettles | src/horizon_ric/shield/shield.py:144-167 | One pass over the chain lands every placeable payload in the feasible set, is the identity on it and changes or blocks everything else |
| Shield.NearestLegal | src/horizon_ric/shield/invariants.py:189-269 | The corrected payload is at least as close, in frequency and in power, as any feasible payload of the same bandwidth and antenna |
| Shield.BlockedInputComesBackUnchanged | src/horizon_ric/shield/shield.py:100-118 | What disposal returns is the payload itself if and only if the payload was feasible or arrived blocked |
| ShieldedEnv.Step | src/horizon_ric/learning/shield_env.py:311-387 | Executes the two-axis clamp of the proposal and returns its reward, the counterfactual one and every flag; fails exactly for a non-positive centre frequency |
| ShieldedEnv.IllegalIsCoarser | src/horizon_ric/learning/shield_env.py:339-343 | The illegal-without-Shield flag implies infeasibility; up to the cap it misses exactly the carriers that spill over a band edge |
| ShieldedEnv.SubbandFor | src/horizon_ric/learning/shield_env.py:186-191 | Defined exactly on the band, edges included, and then a subband whose centre no other centre is nearer than |
| ShieldedEnv.Reward | src/horizon_ric/learning/shield_env.py:193-203 | Defined exactly for in-band centres; then the number of receivers that clear the threshold in the carrier's subband over the number of receivers |
| ShieldedEnv.ProjectIsTheShield | src/horizon_ric/learning/shield_env.py:322-328 | In this environment the Shield is the clamp: always possible, idempotent, feasible, and the identity exactly on the feasible actions |
| ShieldedEnv.ReportedProjectedIsCoarser | src/horizon_ric/learning/shield_env.py:335-338 | The reported flag implies infeasibility and is exactly a move of more than 1 Hz or an EIRP more than 1e-9 dB above the cap |
| ShieldedEnv.InfeasibleButNotReported | src/horizon_ric/learning/shield_env.py:335-338 | An infeasible action that is not reported as projected |
| ShieldedEnv.RewardMonotone | src/horizon_ric/learning/shield_env.py:193-203 | At a fixed in-band frequency more EIRP never serves fewer receivers |
| CreditTables.BinOfBinEirp | benchmarks/credit_assignment_loop.py:107-171 | Every grid level is read back as its own bin |
| CreditTables.TabularRegime.Create | benchmarks/credit_assignment_loop.py:196-218 | An empty mask raises; otherwise a new regime with its arguments, claiming nothing |
| CreditTables.TabularRegime.MeanUpdate | benchmarks/credit_assignment_loop.py:220-223 | In place: one count goes up, one entry takes the incremental step, nothing else changes |
| CreditTables.TabularRegime.UpdateQ | benchmarks/credit_assignment_loop.py:227-232 | Credits the value table only |
| CreditTables.TabularRegime.UpdateBehaviour | benchmarks/credit_assignment_loop.py:233-239 | Both behaviour tables advance under one shared visit count |
| CreditTables.TabularRegime.Update | benchmarks/credit_assignment_loop.py:225-245 | The regime's credit rule, and unchanged tables when the update raises |
| CreditTables.TiedIsProposable | benchmarks/credit_assignment_loop.py:252-259 | The greedy choice always has a candidate and never one outside the arm's mask |
| CreditTables.TiedExactly | benchmarks/credit_assignment_loop.py:252-259 | The tie set is, in ascending order, the proposable bins whose score no proposable bin exceeds, and all proposable bins as long as none has a score |
| CreditTraining.ShieldOnGrid | benchmarks/credit_assignment_loop.py:321-328 | On the 1 dB grid the Shield is the clamp to the cap bin on the power axis; at interior frequencies flag and infeasibility both mean "above the cap" |
| CreditTraining.CarrierKeepsSubband | src/horizon_ric/learning/shield_env.py:186-191 | Moving an in-band carrier inside the band never changes the subband it serves |
| CreditTraining.ShieldMask | benchmarks/credit_assignment_loop.py:42-60 | The Shield's own mask is the bins up to the cap at an interior frequency and empty at an edge; nothing it lets through is corrected |
| CreditTraining.EnvironmentIsAGrid | benchmarks/credit_assignment_loop.py:321-328 | At every in-band frequency, edges included, a proposal earns the reward of the clamped bin, rewards are monotone in the bin, and every execution is feasible, within the cap and worth at most the cap |
| CreditTraining.TrainRegime | benchmarks/credit_assignment_loop.py:290-332 | The loop ends with the specified tables, proposals and steps; it raises exactly for an empty mask |
| CreditTraining.ExplorationDecays | benchmarks/credit_assignment_loop.py:174-177 | The exploration rate is EPS_START right after the sweep, never rises, and is EPS_FLOOR from the middle of the remaining rounds on |
| CreditTraining.ExplorationIsLinear | benchmarks/credit_assignment_loop.py:174-177 | In between, the rate falls by the same amount every round: EPS_START over half of the rounds after the sweep, rounded down but at least one |
| CreditTraining.RoundAt | benchmarks/credit_assignment_loop.py:310-331 | What was proposed and executed in round i can be read off any later state |
| CreditTraining.ProposalExactly | benchmarks/credit_assignment_loop.py:310-321 | Round i proposes the next proposable bin of the sweep, without a draw; later a draw below the exploration rate proposes the bin a second draw names, any other draw a member of the tie set, named by a second draw only when there is a tie; and where each case leaves the random stream |
| CreditTraining.GreedyRunsStayInTheTieSet | benchmarks/credit_assignment_loop.py:310-321 | If every deciding draw after the sweep is at least the rate of its round, every later proposal is in the tie set of the tables it was made on |
| CreditTraining.Lockstep | benchmarks/credit_assignment_loop.py:42-48 | With only feasible bins proposable, every regime with any penalty keeps the proposals, table and random position of the naive one, and its penalty table is identically 0 |
| CreditTraining.MaskedEquivalence | benchmarks/credit_assignment_loop.py:42-48 | Any two regimes with any two penalties agree at every round on proposals, steps, value table, visits and tie set |
| CreditTraining.ClaimsAtEveryRound | benchmarks/credit_assignment_loop.py:225-245 | At every round of every run a bin is claimed exactly when it was credited, and always at the same value |
| CreditTraining.BehaviourAtEveryRound | benchmarks/credit_assignment_loop.py:233-239 | At every round the two behaviour tables hold, on exactly the proposed bins, that bin's reward and whether it was corrected |
| CreditTraining.NoClaimAboveTheCap | benchmarks/credit_assignment_loop.py:229-239 | The regimes that credit the executed bin never claim a bin above the cap, at any step |
| CreditTraining.EveryRunIsSafe | benchmarks/credit_assignment_loop.py:50-60 | In any arm under any regime, at every in-band frequency, every step executes a feasible action within the cap and earns at most what proposing the cap earns |
| CreditTraining.SweepIsComplete | benchmarks/credit_assignment_loop.py:311-316 | For every mask that proposes anything, the opening sweep proposes every proposable bin, in ascending order |
| CreditTraining.CensoredTie | benchmarks/credit_assignment_loop.py:225-259 | In the unmasked arm the naive table is R(min(b, cap)) on every bin at every round after the sweep; its tie set runs from the plateau below the cap to the grid top, and has top - cap + 1 members iff R(cap) > R(cap - 1) |
| CreditTraining.PenaltyBreaksTheTie | benchmarks/credit_assignment_loop.py:247-278 | In the unmasked arm the correction-aware tie set after the sweep is the plateau up to the cap for a positive penalty, the plateau up to the grid top for penalty 0, and the bins above the cap for a negative one |
| CreditTraining.MaskedTieCollapses | benchmarks/credit_assignment_loop.py:42-48 | In the masked arm every regime's tie set stops at the cap, and is the cap alone iff R(cap) > R(cap - 1) |
| CreditReplay.MeanStepIsMean | benchmarks/credit_assignment_loop.py:220-223 | The incremental update is the arithmetic mean of one more value |
| CreditReplay.TablesAreMeans | benchmarks/credit_assignment_loop.py:225-245 | After any log each entry is the arithmetic mean of the rewards credited to its bin, NaN exactly without credits; the same for both behaviour tables |
| CreditReplay.RebuildFromChain | benchmarks/credit_assignment_loop.py:335-364 | The replay loop rebuilds the folded tables, and raises exactly for an empty mask or when the fold does |
| CreditReplay.PrefixIdentifiesTheRun | benchmarks/credit_assignment_loop.py:669-671 | A decision id starts with a run's prefix iff it belongs to that run, for arms without a dash in their name |
| CreditReplay.ReplayIdentity | benchmarks/credit_assignment_loop.py:665-677 | However the runs interleave on the chain, filtering by prefix and replaying gives the run's online tables, failures included |
| CreditReplay.RebuiltTablesAreMeans | benchmarks/credit_assignment_loop.py:335-364 | Every rebuilt entry, behaviour tables included, is the mean over that run's own records; nothing leaks in from another run |
| CreditReplay.TrainingIsItsLog | benchmarks/credit_assignment_loop.py:310-332 | The tables of a training run are the online tables of the log it leaves |
| CreditReplay.ChainRebuildsTheRun | benchmarks/credit_assignment_loop.py:290-364 | From the environment to the replay: whatever else is on the chain, filtering it by a trained run's prefix and replaying gives the tables that run ended with |
| Exploration.ArmRoundTrip | benchmarks/exploration_truncation_loop.py:147-191 | Every arm's logged proposal is read back as that arm |
| Exploration.Batch | benchmarks/exploration_truncation_loop.py:237-242 | A batch proposes only allowed arms within 1e-12 of the best allowed value |
| Exploration.SweepProgress | benchmarks/exploration_truncation_loop.py:231-251 | If every signal is below the prior by more than 1e-12, exactly min(n, 24 r) of the n allowed arms have been tried after r rounds, for all draws |
| Exploration.GraduationExactly | benchmarks/exploration_truncation_loop.py:237-242 | Once all arms are tried, no draws propose an infeasible arm if and only if every infeasible arm is more than 1e-12 worse than some allowed arm |
| Exploration.Graduates | benchmarks/exploration_truncation_loop.py:235-264 | No round after the sweep proposes an infeasible arm, for a whole run under every tie-break |
| Exploration.SweepIsComplete | benchmarks/exploration_truncation_loop.py:235-251 | Enough rounds try every allowed arm |
| Exploration.ReplayIsQTable | benchmarks/exploration_truncation_loop.py:254-264 | Replaying a learner's own records, after any foreign chain, gives the signal of every tried arm over the prior |
| Exploration.Rebuild | benchmarks/exploration_truncation_loop.py:254-264 | The in-place rebuild of the table from the chain, failures included |
| Exploration.TrainLearner | benchmarks/exploration_truncation_loop.py:194-265 | The whole loop over any prior chain, records under the learner's own name included: proposals, final table and chain; it raises exactly when no arm is proposable or a replay does |
| Exploration.RunOnForeignChain | benchmarks/exploration_truncation_loop.py:194-265 | On a chain without records under its name a run never raises, and its proposals, table and records are those of the learner that sees only its own signals |
| Exploration.PlayRound | benchmarks/exploration_truncation_loop.py:231-251 | The acting half of a round: the batch drawn from the table as it stood, and one record per proposal |
| LearnerSteps.StepsDrawFromPools | benchmarks/exploration_truncation_loop.py:231-242 | Step j of round r takes the arm its own draw names from the allowed arms worth at most 1e-12 less than any other, leaving out those already proposed in this round while others are left |
| LearnerSteps.LastRecordWins | benchmarks/exploration_truncation_loop.py:254-264 | A chain can be replayed iff every record under the learner's name is readable; an arm then has the signal of its last record, and the prior iff it has none |
| LearnerSteps.ReadableExactly | benchmarks/exploration_truncation_loop.py:180-191 | A record is readable iff its frequency is within 1 Hz of a bin and its EIRP rounds onto the grid; the arm it is read as is within 1 Hz and half a dB of it |
| Exploration.PenaltyFallsOnInfeasible | benchmarks/exploration_truncation_loop.py:261-263 | The correction penalty is subtracted on exactly the arms the Shield finds infeasible |
| Exploration.CorrectionAwareGraduates | benchmarks/exploration_truncation_loop.py:207-264 | If one feasible arm beats every penalised infeasible one by more than 1e-12, every round from the fourteenth on is free of illegal proposals |
| Exploration.TwinIsCensored | benchmarks/exploration_truncation_loop.py:10-24 | For every arm there is an infeasible one that is served at least the same reward |
| Exploration.RewardOnlyNeverGraduates | benchmarks/exploration_truncation_loop.py:10-24 | In every environment, once every arm is tried, some draws make the unmasked reward-only learner propose an infeasible arm in the next round |
| Exploration.MaskedNeverIllegal | benchmarks/exploration_truncation_loop.py:217-228 | The masked learner never proposes an infeasible action |
| ProjectionCapacity.RunLearner | benchmarks/projection_capacity_2x2.py:111-134 | The in-place learning loop ends with the specified table and reports on it |
| ProjectionCapacity.ServedIsACount | benchmarks/projection_capacity_2x2.py:86-88 | The served share is the number of receivers whose gain clears the noise floor at this EIRP over their number |
| ProjectionCapacity.HarmExactly | benchmarks/projection_capacity_2x2.py:86-94 | For a positive weight the reward falls short of the served share by the weight times the square of the victims' mean overshoot, and equals it iff no victim receives more than the protection level |
| ProjectionCapacity.MorePowerHarmsMore | benchmarks/projection_capacity_2x2.py:86-94 | Where more EIRP serves no further receiver and a victim is over, it earns strictly less |
| ProjectionCapacity.OptimumIsFeasible | benchmarks/projection_capacity_2x2.py:98-99 | The optimum is the reward of some bin up to the cap, and no bin up to the cap earns more |
| ProjectionCapacity.StepExactly | benchmarks/projection_capacity_2x2.py:111-123 | Step t explores iff its draw is below max(0.05, 1 - t / (0.7 STEPS)) or nothing was seen, and otherwise proposes the first bin of largest value; the stream position and the credit after either |
| ProjectionCapacity.ValueExactly | benchmarks/projection_capacity_2x2.py:102-108 | A tabular learner, and a fitted one with fewer than degree + 2 bins seen, values seen bins at their means and no other; from degree + 2 on the fit to the seen bins values all of them |
| ProjectionCapacity.ReportExactly | benchmarks/projection_capacity_2x2.py:124-134 | What is proposed, executed and realised, the loss against the optimum, and that loss over the optimum iff the optimum is positive |
| ProjectionCapacity.ExecutedIsAFeasibleBin | benchmarks/projection_capacity_2x2.py:74-99 | Every proposal executes the clamped grid bin and realises at most the feasible optimum |
| ProjectionCapacity.LossIsNonnegative | benchmarks/projection_capacity_2x2.py:124-132 | For any value model and any learning state the reported loss is nonnegative and the executed EIRP within the cap |
| ProjectionCapacity.RunIsConsistent | benchmarks/projection_capacity_2x2.py:116-123 | Throughout a run each bin's sum is its count times its one realised reward |
| ProjectionCapacity.CreditInPlace | benchmarks/projection_capacity_2x2.py:122-123 | In place: one sum gains the reward, one count goes up, nothing else changes |
| ProjectionCapacity.CountedWhereProposed | benchmarks/projection_capacity_2x2.py:116-123 | A bin's count is the number of steps that proposed it, whatever was executed |
| ProjectionCapacity.TabularLoss | benchmarks/projection_capacity_2x2.py:102-106 | The table's loss is 0 if and only if it has seen a bin whose projection is optimal |
| ProjectionCapacity.FullSweepLosesNothing | benchmarks/projection_capacity_2x2.py:102-134 | The tabular learner loses nothing once every bin has been seen, for any reward |
| ProjectionCapacity.NoGainOverConstantCap | benchmarks/projection_capacity_2x2.py:86-99 | Without a harm term the constant cap policy is optimal and no learner beats it |
| EnvelopeGate.EnvelopeInDecibels | src/horizon_ric/shield/invariants.py:542-546 | The test in decibels is the test with the factor 10^(tolerance/10) |
| BlockGate.EnvelopeInCounts | src/horizon_ric/shield/invariants.py:542-546 | On counts: the test admits every neural count up to one whole number of blocks and none above it |
| EnvelopeGate.CleanContractExactly | src/horizon_ric/shield/invariants.py:542-546 | measured <= alpha * baseline follows for all rates if and only if alpha <= 1 |
| EnvelopeGate.ShieldGate | benchmarks/neural_rx_pgd_benchmark.py:310-341 | The loop serves block and symbols of the neural receiver exactly where the window test accepts, the certified ones elsewhere, and counts the fallbacks |
| EnvelopeGate.FallbacksAreRefusals | benchmarks/neural_rx_pgd_benchmark.py:335-341 | The fallbacks counted are the number of blocks the gate refuses, and with the number of accepted ones they are all blocks |
| EnvelopeGate.AcceptedExactly | benchmarks/neural_rx_pgd_benchmark.py:328-334 | The gate accepts iff over the block and up to one window of blocks before it the neural errors are at most alpha times the certified ones, each with 1e-9 per block added |
| EnvelopeGate.AcceptedWindow | benchmarks/neural_rx_pgd_benchmark.py:329-335 | An accepted block bounds the neural errors of its whole window |
| EnvelopeGate.GateBound | benchmarks/neural_rx_pgd_benchmark.py:328-341 | On every prefix, for any error sequences and window, served block errors <= (1 + alpha) * certified ones plus the 1e-9 slack |
| BlockGate.GateBoundInBlocks | benchmarks/neural_rx_pgd_benchmark.py:282-341 | On block errors of 0 and 1, on every prefix of every run, served errors are at most Factor times the certified ones without any slack; Factor is the largest bound on what one window can be served with, per certified error |
| BlockGate.GateBoundIsReached | benchmarks/neural_rx_pgd_benchmark.py:328-341 | A run of 0 and 1 with k certified errors is served with k plus all they buy, whenever these fit into one window together |
| BlockGate.SharpWhenItFits | benchmarks/neural_rx_pgd_benchmark.py:328-341 | Factor is reached by some run when a number of certified errors that attains it fits into one window with what it buys |
| BlockGate.FactorIsNotAlwaysReached | benchmarks/neural_rx_pgd_benchmark.py:328-341 | At window 1 and a tolerance of 5/4 Factor is 2, and no run reaches it: every served error has a certified one of its own |
| BlockGate.SharpAtOneDecibel | benchmarks/neural_rx_pgd_benchmark.py:105-111 | At the shipped window and 1.0 dB the factor is exactly 9/4 and reached |
| BlockGate.SharpAtHalfADecibel | benchmarks/neural_rx_pgd_benchmark.py:105-111 | At the shipped window and 0.5 dB the factor is exactly 19/9 and reached |
| BlockGate.SharpAtAFifthOfADecibel | benchmarks/neural_rx_pgd_benchmark.py:105-111 | At the shipped window and 0.2 dB the factor is exactly 2 and reached |
| EnvelopeGate.ErrorRowsAt | benchmarks/neural_rx_pgd_benchmark.py:282-284 | The reshape: row i, column j is symbol i * block + j of the prediction, and less than one block is dropped |
| EnvelopeGate.RowsCountMismatches | benchmarks/neural_rx_pgd_benchmark.py:282-284 | The rows hold every wrong symbol of the whole blocks once |
| EnvelopeGate.SymbolsPerBlock | benchmarks/neural_rx_pgd_benchmark.py:282-284 | A block error stands for at least one and at most a block of symbol errors |
| EnvelopeGate.SymbolErrorBound | benchmarks/neural_rx_pgd_benchmark.py:282-343 | The bound in symbols: served <= block * ((1 + alpha) * certified + slack) |
| EnvelopeGate.PredictionBound | benchmarks/neural_rx_pgd_benchmark.py:282-343 | From predictions to served symbols: the same bound against the certified receiver's wrong predictions |
| BlockGate.NoErrorsOutOfNothing | benchmarks/neural_rx_pgd_benchmark.py:328-341 | On runs of every length, a certified stream without errors is always served without errors if and only if the slack of one full window is less than a block |
| BlockGate.CleanRowsStayClean | benchmarks/neural_rx_pgd_benchmark.py:282-341 | A certified receiver without a wrong symbol is served without a block error, on runs of every length |
| Partition.PartitionGeographic | benchmarks/privacy_real_subjects.py:203-234 | Seeding, at most 50 Lloyd iterations and the early stop; raises exactly outside 1 <= n_sites <= receivers |
| Partition.FarthestIsFarthest | benchmarks/privacy_real_subjects.py:215-217 | Each further seed is a receiver farthest from the centres so far |
| Partition.SeedsAreFarthest | benchmarks/privacy_real_subjects.py:213-217 | The first seed is the drawn receiver, and each later one is a receiver at least as remote from the seeds before it as any other |
| Partition.CellsPartition | benchmarks/privacy_real_subjects.py:234-234 | The returned index sets are increasing, and i is in set k iff it is assigned to k |
| Partition.LloydIsNearest | benchmarks/privacy_real_subjects.py:219-234 | The assignment returned is the nearest-centre one of some centres, at a cost no higher than that of the starting centres |
| Partition.LloydTrajectory | benchmarks/privacy_real_subjects.py:219-234 | The answer is the assignment to the last of a chain of centres, each the recentring of the assignment to the one before; the chain goes on exactly while the centres move and iterations are left |
| Partition.PartitionTrajectory | benchmarks/privacy_real_subjects.py:219-234 | The same from the seeds with at most 50 iterations |
| Partition.EmptyCellKeepsItsCentre | benchmarks/privacy_real_subjects.py:224-229 | A cell without a receiver keeps its centre |
| Partition.EveryReceiverHasOneSite | benchmarks/privacy_real_subjects.py:219-234 | Every receiver is in exactly one of the returned sets |
| Partition.ReassignmentIsOptimal | benchmarks/privacy_real_subjects.py:221-223 | No assignment to the same centres is cheaper |
| Partition.RecentringIsOptimal | benchmarks/privacy_real_subjects.py:224-229 | No centres are cheaper for the same assignment, empty cells keeping theirs |
| Partition.LloydDescends | benchmarks/privacy_real_subjects.py:220-233 | Neither half of an iteration raises the total squared distance |
| EpsilonSearch.AnalyticGaussianEpsilon | benchmarks/privacy_real_subjects.py:337-350 | For any delta function: infinite iff every doubling up to 2^19 fails; otherwise valid, with an end that is 0 or invalid exactly 2^k / 2^200 below, 2^k the first valid doubling |
| EpsilonSearch.BracketsTheLeast | benchmarks/privacy_real_subjects.py:337-350 | For a decreasing delta no valid epsilon is more than 2^19 / 2^200 smaller |
| EpsilonSearch.InfiniteIsRight | benchmarks/privacy_real_subjects.py:340-343 | For a decreasing delta the infinite answer means no epsilon up to 2^19 is valid |
| EpsilonSearch.BetaPpf | benchmarks/privacy_real_subjects.py:397-406 | The midpoint of a bracket of width 2^-60 whose ends straddle p |
| EpsilonSearch.QuantileError | benchmarks/privacy_real_subjects.py:397-406 | For an increasing distribution function the answer is within 2^-61 of the quantile |
| SuffStats.DowndateIsDeletion | benchmarks/subject_erasure_suite.py:126-133 | Subtracting the rank-1 term of the subject at any position gives exactly the statistics of the remaining rows |
| SuffStats.GramForm | benchmarks/privacy_real_subjects.py:240-247 | z.(D'D)u is the sum over the subjects of (d.z)(d.u) |
| SuffStats.CrossForm | benchmarks/privacy_real_subjects.py:240-247 | z.(D'T)[c] is the sum over the subjects of (d.z) t[c] |
| LocalSolve.SystemIsWellPosed | benchmarks/privacy_real_subjects.py:260-265 | For the statistics of any n >= 1 subjects gram/n + lambda I is symmetric, x.Hx is at least lambda times the squared norm of x, and the system has at most one solution |
| LocalSolve.LocalStepSucceeds | benchmarks/privacy_real_subjects.py:250-271 | The local step succeeds if and only if the client holds a subject |
| LocalSolve.StepAimsAtTheMinimiser | benchmarks/privacy_real_subjects.py:250-265 | The upload is eta times the way to the minimiser of the proximal ridge objective over the client's rows; any other model costs at least half lambda times its squared distance more |
| Elimination.EliminateSolves | benchmarks/privacy_real_subjects.py:264-265 | What Gaussian elimination returns solves the system |
| Elimination.GaussianSolverIsSolver | benchmarks/privacy_real_subjects.py:264-265 | The contract assumed of the linear solver is met, for every number of features and subbands |
| Learners.LearnersExist | src/horizon_ric/federated/robust.py:73-90 | Learners with every contract assumed of them exist, for the mean and for the coordinate median |
| StepResponse.StepsAnswer | benchmarks/privacy_real_subjects.py:250-271 | Two steps of one client from two global models differ by eta times the y with Hy = G delta / n, delta the change of the model |
| StepResponse.AnswerBounds | benchmarks/privacy_real_subjects.py:250-265 | That answer never overshoots: y.y is at most delta.y, and delta.y at most delta.delta |
| StepResponse.AnswersNothingExactly | benchmarks/privacy_real_subjects.py:250-265 | It is zero if and only if no subject of the client predicts differently under the change |
| MeanOfSteps.RoundIsInjective | benchmarks/subject_erasure_suite.py:96-110 | A round under the mean maps different global models to different ones |
| MeanOfSteps.MeansAgreeExactly | benchmarks/subject_erasure_suite.py:96-110 | The uploads of a federation average alike from two models if and only if no subject of any client tells the models apart |
| Federation.TrainFromStats | benchmarks/subject_erasure_suite.py:113-123 | The rounds and client loops compute the specified model, trace or first failure |
| TrainingRounds.MeanTraining | benchmarks/subject_erasure_suite.py:113-123 | Under the mean a run goes from the zero model through one model per round; its trace is what every client's own step sends from the model of that round, and as many times the movement of an entry as there are clients is the sum of what was sent for it |
| TrainingRounds.MedianTraining | benchmarks/subject_erasure_suite.py:113-123 | Under the coordinate median every entry moves by the middle one of the values sent for it, or by half the sum of the two middle ones |
| Federation.FailureIsFinal | benchmarks/subject_erasure_suite.py:119-123 | A failing round ends every longer run with the same failure |
| Federation.UploadIsLocal | benchmarks/subject_erasure_suite.py:120-120 | Upload k depends on the model and on client k alone |
| Federation.AggregateIsAggregator | src/horizon_ric/federated/robust.py:73-90 | The mean and the median keep the model's shape and refuse only an empty federation |
| Federation.SortedIsOrdered | src/horizon_ric/federated/robust.py:88-90 | What the median is taken of: the uploaded values, in ascending order |
| OrderStatistics.MedianIsMiddle | src/horizon_ric/federated/robust.py:88-90 | The median is a value of the middle rank r (at most r values smaller, more than r no larger), or half the sum of values of the two middle ranks |
| OrderStatistics.MedianSplits | src/horizon_ric/federated/robust.py:88-90 | At least half of the values are no larger than the median and at least half are no smaller |
| Erasure.TrainFromRows | benchmarks/subject_erasure_suite.py:96-110 | Training from raw rows computes what training from their statistics is specified to compute |
| Erasure.LocalProxUpdate | benchmarks/privacy_real_subjects.py:268-271 | The step from raw rows, failing exactly without rows |
| Erasure.ErasureExactly | benchmarks/subject_erasure_suite.py:210-222 | The downdated statistics are those of the client without the subject if and only if the client holds the subject once |
| Erasure.ClientsHoldSubjectsOnce | benchmarks/privacy_real_subjects.py:183-234 | A client looked up from a partition cell in the private pool holds no subject twice |
| Erasure.ReplayIsRetrain | benchmarks/subject_erasure_suite.py:207-225 | Replaying any number of warm-started rounds from downdated statistics equals retraining with the row deleted: model, trace and failures, for any aggregator |
| Erasure.NothingOfTheSubjectRemains | benchmarks/subject_erasure_suite.py:126-133 | After erasure the upload still exists and aims at the minimiser of the objective over the kept rows, at every global model |
| Erasure.ErasedSystemIsWellPosed | benchmarks/subject_erasure_suite.py:126-133 | The downdated system is still symmetric, bounded below by lambda and uniquely solvable |
| Erasure.TrainingSucceeds | benchmarks/subject_erasure_suite.py:96-123 | A federation whose clients all hold subjects trains without failure at any number of rounds |
| Erasure.RunOnce | benchmarks/subject_erasure_suite.py:197-236 | The audited erasure: what each reported model is, that the replayed one is the retrained one, and when the audit succeeds or fails |
| LinearPatch.PatchIsOneRound | benchmarks/subject_erasure_suite.py:227-235 | Under the mean, at any number of rounds, the correction is one round of the erased federation started from the penultimate shipped model |
| LinearPatch.PatchIsReplay | benchmarks/subject_erasure_suite.py:227-235 | With the mean and one round the linear correction is the replay from the erased statistics |
| LinearPatch.PatchIsRetrain | benchmarks/subject_erasure_suite.py:227-236 | With the mean and one round the linear correction is the retrain, for every federation and subject |
| LinearPatch.PatchExactly | benchmarks/subject_erasure_suite.py:227-236 | With the mean, at any number of rounds, the linear correction is the retrain if and only if the models before the last round are the same with and without the subject |
| LinearPatch.PatchExactlyAtTwoRounds | benchmarks/subject_erasure_suite.py:227-236 | At two rounds it is so if and only if the subject's client uploads the same in round one from its downdated statistics as from the full ones |
| LinearPatch.PatchExactlyUpTo | benchmarks/subject_erasure_suite.py:227-236 | The linear correction is the retrain at every number of rounds up to R if and only if, at every shipped model but the last two, the target uploads the same from its full and its downdated statistics |
| OrderStatistics.SortedReplaced | src/horizon_ric/federated/robust.py:88-90 | Sorting after replacing one value is inserting the new one into the others, sorted |
| OrderStatistics.MedianReplaced | src/horizon_ric/federated/robust.py:88-90 | For odd and even numbers of values, the median as a function of one of them: that value confined to the two middle ones of the others, or its average with the value between these |
| OrderStatistics.MedianUnmovedExactly | src/horizon_ric/federated/robust.py:88-90 | Replacing a value leaves the median if and only if it stays on its side of the middle of the others |
| MedianPatch.MedianPatchExactly | benchmarks/subject_erasure_suite.py:227-236 | Under the coordinate median at one round, for any number of clients, the correction is the retrain if and only if in every entry the target's upload, confined to the middle of the others, moves by one share of its own move, two for an even number |
| MedianPatch.ShareNeedsACrossing | benchmarks/subject_erasure_suite.py:227-231 | With three clients or more a changed upload can meet that condition only by moving into or out of the middle |
| LinearPatch.WarmStartBreaksThePatch | benchmarks/subject_erasure_suite.py:227-231 | A two-round federation of six features and six subbands where the patch differs from the retrain under the mean, for every solver |
| MedianPatch.MedianBreaksThePatch | benchmarks/subject_erasure_suite.py:227-231 | A one-round federation of the same size where the patch differs from the retrain under the coordinate median |
| InterceptFederation.InterceptStep | benchmarks/privacy_real_subjects.py:250-265 | For subjects with nothing but the intercept the upload is a fifth of the way to the client's mean target in every subband, for every solver and any number of features and subbands |
| Unlearning.TrainFederation | benchmarks/federated_unlearning_suite.py:91-122 | Training in which malicious clients falsify one subband and, with stealth, rescale their uploads in place to the honest median norm; an unknown malicious index raises in the first round, and a nonzero upload rescaled to the norm of nobody turns the model into NaNs |
| Unlearning.MatchNorms | benchmarks/federated_unlearning_suite.py:112-119 | The in-place rescaling, in any order of the malicious set, and its index error |
| Unlearning.StealthMatchesTheHonestNorm | benchmarks/federated_unlearning_suite.py:112-119 | A rescaled nonzero upload has exactly the honest median norm |
| HonestMedian.SentAtTheHonestMedian | benchmarks/federated_unlearning_suite.py:112-119 | At least half of the honest norms are no larger than the norm a nonzero malicious upload is sent at, and at least half no smaller; for an odd number it is one of them, for an even number half the sum of the two middle ones |
| HonestMedian.NobodyHonestExactly | benchmarks/federated_unlearning_suite.py:112-119 | The case with nobody to match is the one in which the malicious clients are exactly all clients, at least one |
| HonestMedian.AnyPositiveExactly | benchmarks/federated_unlearning_suite.py:112-119 | Such a round becomes NaNs iff some upload is not the zero matrix |
| Unlearning.SenderLeavesHonestUploads | benchmarks/federated_unlearning_suite.py:112-119 | Stealthy or not, honest uploads go out as computed |
| Unlearning.EfficientUnlearn | benchmarks/federated_unlearning_suite.py:125-133 | The loop re-aggregates the kept uploads of every round, or stops at the first failure |
| Unlearning.HonestStats | benchmarks/federated_unlearning_suite.py:77-111 | The statistics of the kept clients do not depend on who lies |
| Unlearning.OneRoundUnlearns | benchmarks/federated_unlearning_suite.py:86-133 | At one round the replay without the malicious clients is the honest-only retrain, for any aggregator, stealthy or not, failures included |
| Unlearning.ReplayOfEverything | benchmarks/federated_unlearning_suite.py:125-133 | With nothing removed the replay reproduces training at any number of rounds |
| ReplayExactness.ReplayExactly | benchmarks/federated_unlearning_suite.py:91-133 | Under the mean, stealthy attack or not, the replay is the honest-only retrain after every round if and only if, before every replayed round, no subject of a kept client tells the attacked model from the replayed one; both are read off the trace |
| ReplayExactness.ReplayExactlyAtTwoRounds | benchmarks/federated_unlearning_suite.py:91-133 | At two rounds: if and only if the mean of the first cached uploads and the mean of the kept ones predict every subject of the kept clients alike |
| ReplayEnd.ReplayEndsExactly | benchmarks/federated_unlearning_suite.py:91-133 | Under the mean, at any number of rounds, stealthy attack or not, the last replayed model is the honest-only retrain if and only if the mean of the attacked models and the mean of the honest ones, over all rounds, predict every subject of the kept clients alike |
| AffineSteps.StepOfPart | benchmarks/privacy_real_subjects.py:250-271 | One client's step is affine: from a model part of the way between two models it uploads that part of the way between their uploads |
| AffineSteps.TotalIsScaled | benchmarks/federated_unlearning_suite.py:125-133 | What several rounds under the mean add up to is as many rounds from the mean of their models |
| ReplayExactness.WarmStartKeepsTheAttack | benchmarks/federated_unlearning_suite.py:125-133 | A two-round federation of six features and six subbands whose replay keeps a trace of the removed client under the mean |
| FalseReport.LieIsALoweredModel | benchmarks/federated_unlearning_suite.py:77-111 | A falsifying client uploads exactly what the honest client would from a global model whose intercept is lower by boost / scale in the falsified subband |
| FalseReport.LieIsBoundedAndFelt | benchmarks/federated_unlearning_suite.py:77-111 | Against the truthful upload the lie shifts its subband towards itself by at most eta * boost / scale in norm, and the uploads are the same if and only if boost is 0 |
| Containment.LieKeepsOtherStats | benchmarks/federated_unlearning_suite.py:77-111 | The statistics of a lie differ from the true ones in one column of D'T only |
| Containment.StepBySubband | benchmarks/privacy_real_subjects.py:250-265 | Subband c of an upload depends on subband c of the global model and of the targets only |
| Containment.AttackStaysInItsSubband | benchmarks/federated_unlearning_suite.py:91-122 | Under any entrywise aggregator and any treatment of the uploads that does not mix other subbands into c, after any number of rounds, whoever lies and however much, subband c is exactly the one of honest training |
| Containment.AsUploadedPreserves | benchmarks/federated_unlearning_suite.py:105-122 | Without stealth no subband is mixed into another |
| StealthContainment.ContainedExactly | benchmarks/federated_unlearning_suite.py:91-122 | Any number of liars and rounds, any entrywise aggregator, any treatment of the uploads: another subband is the honest one after every round if and only if in every round, in every entry of it, the uploads sent have the summary of the uploads computed |
| StealthContainment.StealthUnderTheMean | benchmarks/federated_unlearning_suite.py:112-122 | Stealth under the mean, any number of liars and rounds: if and only if in every round the rescalings' changes of that subband add up to zero in every entry |
| StealthContainment.OneStealthyLiarUnderTheMean | benchmarks/federated_unlearning_suite.py:112-122 | One liar under the mean, any number of rounds: if and only if in every round the lying upload is zero, has the honest median norm already, or is zero in that subband |
| StealthContainment.OneStealthyLiarUnderTheMedian | benchmarks/federated_unlearning_suite.py:276-284 | The setting the suite runs, one stealthy liar under the coordinate median over several rounds: if and only if in every round, in every entry of that subband, the rescaled upload stays on its side of the middle of the honest ones |
| StealthLeak.StealthLeaks | benchmarks/federated_unlearning_suite.py:112-122 | Two clients of the shipped size: a stealthy lie about the first subband leaves the second at 0.9 of what the honest federation learns |
| Reproduction.AcceptanceComposes | scripts/verify_deepmimo_reproduction.py:45-103 | accept(a,b,t1) and accept(b,c,t2) imply accept(a,c,t1+t2) on arbitrarily nested documents |
| Reproduction.AcceptanceIsMonotone | scripts/verify_deepmimo_reproduction.py:45-103 | A larger tolerance accepts more |
| Reproduction.AcceptsItself | scripts/verify_deepmimo_reproduction.py:87-100 | A document accepts itself if and only if every compared float is finite |
| Reproduction.SymmetryExactly | scripts/verify_deepmimo_reproduction.py:82-100 | Acceptance can be turned around if and only if no float was matched by an int |
| Reproduction.AcceptanceIsNotSymmetric | scripts/verify_deepmimo_reproduction.py:82-100 | A float accepts an int that does not accept it back |
| Reproduction.AcceptsByPosition | scripts/verify_deepmimo_reproduction.py:45-103 | The recursion accepts exactly the documents that match at every path outside the exempt keys |
| Reproduction.VerificationComposes | scripts/verify_deepmimo_reproduction.py:106-130 | Verification composes over hosts with added tolerances |
| Reproduction.SelfVerification | scripts/verify_deepmimo_reproduction.py:106-130 | A pair verifies against itself iff the tolerance is usable, it is bound and its compared floats are finite |
| Reproduction.HashIsFree | scripts/verify_deepmimo_reproduction.py:30-42 | Rebinding both files to another feature hash is accepted at every tolerance |
| Reproduction.VerificationExactly | scripts/verify_deepmimo_reproduction.py:106-130 | Verification succeeds iff the tolerance is finite and at least 0, manifest and result of either host carry one lowercase hash of 64 digits, and both documents match at every compared path |
| Reproduction.ChangedValuePasses | scripts/verify_deepmimo_reproduction.py:45-103 | Changing one value anywhere in a document that accepts itself is accepted iff the path goes through the feature hash or the runtime block, or the new value is accepted for the old one |
| Reproduction.DriftPassesExactly | scripts/verify_deepmimo_reproduction.py:87-100 | A float may become exactly the floats and ints within the tolerance |
| Reproduction.OtherScalarsAreFixed | scripts/verify_deepmimo_reproduction.py:82-103 | Outside the exempt keys text, flags, ints and nulls may not change at all |
| Reproduction.KeysAreDemanded | scripts/verify_deepmimo_reproduction.py:54-58 | An accepted document has exactly the expected keys, exempt ones included |

## Left out

- Floating-point rounding: all arithmetic is over exact reals. JSON rounding and number formatting are not modelled; a round's formatted index is an arbitrary string.
- Random number generators: every statement quantifies over an arbitrary stream of draws instead.
- The evidence store: hashing, chain verification and file access; the chain enters as a list that has already verified. Timestamps, signatures, certificates and norms of differences are not modelled.
- The other invariants of the Shield (neural receiver, constellation, slices, NTN): they do not apply to a spectrum-reservation payload. The guard chain enters through its blocking effect alone.
- Error messages: an `Err` carries one text per raise site; the per-path messages of the document comparison are not modelled.
- `gaussian_delta`, the incomplete beta function and `np.polyfit` are arbitrary functions; `numpy.linalg.solve` is any function that solves and refuses only singular systems.
- Models are p-by-s matrices throughout; `ravel` and `reshape` are not modelled. The training loops over a list of clients are modelled on sequences, not on numpy buffers.
- Unlearning.TrainFederation: malicious clients are natural numbers, so Python's negative indices are not modelled. When nobody is honest the aggregator must accept every nonempty list of uploads, as both of the suite's do, since the model has no NaN upload to hand it. The Euclidean norm enters as a function whose square is the sum of squares.
- StealthContainment.ContainedExactly: speaks of every round. That the deviations of several rounds cancel in the last model alone is not excluded.
- Krum, trimmed mean and FLTrust: no modelled loop uses them.
- Channel physics: beam gains, served receivers and block errors are inputs. The neural receiver, the attacks on it and the tumbling-window gate of other benchmarks are not modelled.
- Training from a chain that does not verify: no run takes place, so there is nothing to state.
- Command lines, reports, plots and quarter rates.
