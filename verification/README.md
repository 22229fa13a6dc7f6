# PokerAI core in Dafny

This project models the decision and learning core of PokerAI, a poker-playing agent. It proves properties of that model. The parts covered are:

- **Post-flop hand evaluator.** Card strings such as `"9H"` and `"10H"` go through rank and suit counting predicates and a strongest-first category cascade. The model keeps the evaluator's quirks:
  - rank counts must match exactly;
  - a "straight flush" is any flush plus any straight;
  - two pair never fires;
  - the ace is never low.
- **Pot and implied odds, the call decision, and the bluff probability.** Floats are exact `real`s here.
- **Pre-flop rules.** An additive hand, position and opponent score is compared with two thresholds.
- **Opponent profiler.** Per-opponent counters, a ratio classifier, and a table of profiles keyed by player id.
- **Pre-flop Monte Carlo simulator.** It builds the deck, removes known cards, deals disjoint hands, judges the winner strictly, and computes the win share.
- **Reinforcement-learning table.** It covers:
  - the deck, deal, betting state machine and reward of the environment;
  - the state-vector encoder;
  - reward shaping;
  - epsilon-greedy and decaying exploration, and the upper-confidence-bound (UCB) count bookkeeping;
  - the tabular Q-learning agent;
  - the memory and reward discounting of the policy-gradient agent.
- **Counters.** The training metrics logger, and the chat-log analysis with its merge over a directory of logs.

Each source file is one module. `Cards` holds the shared card type, the text format each module writes, distinctness, and the Fisher-Yates shuffle. `Vectors` holds `sum`, `max`, `np.zeros`, `np.argmax` and Python's negative indexing. `Wrappers` holds `Option` and `Result`.

Anything the source raises becomes an `Err` value of a per-module error type. Examples are a `list.remove` of a missing card, a `pop` from an empty deck, and a failed dictionary lookup. Every random draw is a parameter of the operation that uses it, together with the requirement that it lies in the range the random generator would produce.

## Model

| member | source | states |
|---|---|---|
| PotOdds.PotOddsCharacterized | strategy_engine/post_flop_strategy/pot_odds_calculator.py:14-18 | the pot odds fail exactly on a non-positive bet (ValueError) or a zero divisor; otherwise the percentage p satisfies p * (pot + bet) = 100 * bet |
| PotOdds.PotOddsRange | strategy_engine/post_flop_strategy/pot_odds_calculator.py:14-18 | with a non-negative pot and a positive bet the odds exist, lie in (0, 100], and equal 100 exactly when the pot is empty |
| PotOdds.PotOddsFallWithPot | strategy_engine/post_flop_strategy/pot_odds_calculator.py:17-18 | the same bet into a strictly larger pot has strictly lower pot odds |
| PotOdds.ShouldCallIsBreakEven | strategy_engine/post_flop_strategy/pot_odds_calculator.py:20-35 | for a positive pot plus bet (the case where the pot odds divide without error), should_call fails exactly when the bet is not positive; otherwise it calls exactly when equity * (pot + bet) >= 100 * bet |
| PotOdds.ShouldCallMonotone | strategy_engine/post_flop_strategy/pot_odds_calculator.py:32-35 | more equity never turns a call into a fold, and never changes whether the decision fails |
| PotOdds.ImpliedOddsAreGrownPotOdds | strategy_engine/post_flop_strategy/pot_odds_calculator.py:37-51 | for a positive bet the implied odds are the pot odds of the pot grown by the estimate, and with no estimate they are the pot odds |
| PotOdds.ImpliedOddsAtMostPotOdds | strategy_engine/post_flop_strategy/pot_odds_calculator.py:49-51 | non-negative expected future winnings never raise the price of a call above the pot odds |
| PotOdds.WorkedExample | strategy_engine/post_flop_strategy/pot_odds_calculator.py:56-70 | pot 100 and bet 25 give 20% pot odds; 35% equity calls, 10% folds; a future estimate of 50 gives 100/7 % implied odds |
| PotOdds.ZeroBetRefusedOnlyByPotOdds | strategy_engine/post_flop_strategy/pot_odds_calculator.py:14-15 | a zero bet is refused by calculate_pot_odds, while calculate_implied_odds, which has no such check, returns 0 |
| Rewards.DefaultCalculator | rl_module/training/rewards.py:10-23 | the default rewards order the outcomes: lose < fold < 0 < bluff < win |
| Rewards.RewardCharacterized | rl_module/training/rewards.py:36-45 | the base reward for win, lose and fold is the configured value; a bluff earns only when bluff_success is set; any other action earns 0 |
| Rewards.AdjustIsInvertible | rl_module/training/rewards.py:47-58 | dividing the adjusted reward by 1 + pot/100 gives back the reward whenever that factor is non-zero |
| Rewards.AdjustKeepsSign | rl_module/training/rewards.py:58 | an empty pot keeps the reward, a zero reward stays zero, and above a pot of -100 the sign of the reward is kept |
| Rewards.LargerPotMagnifies | rl_module/training/rewards.py:58 | a larger pot grows a non-negative reward and deepens a non-positive penalty |
| Rewards.NoPotMeansBaseReward | rl_module/training/rewards.py:71-74 | with no pot_size in the game state the final reward is the base reward |
| Rewards.WorkedExamples | rl_module/training/rewards.py:81-88 | with the defaults, a win in a pot of 100 pays 2.0, a successful bluff in 50 pays 0.75, and a loss in 80 costs -1.8 |
| ExplorationStrategies.GetActionCharacterized | rl_module/training/exploration_strategies.py:31-37 | a draw below epsilon returns the picked available action, failing only on an empty action list; otherwise the result is the first position of the largest q-value, failing only on an empty q-value list |
| ExplorationStrategies.EpsilonExtremes | rl_module/training/exploration_strategies.py:33-37 | epsilon at or below 0 always exploits and epsilon at or above 1 always explores |
| ExplorationStrategies.DefaultSchedules | rl_module/training/exploration_strategies.py:25-29 | both fresh strategies start fully exploring, and the self-decaying one has the lower floor (0.05 against 0.1) and the slower rate (0.995 against 0.99) |
| ExplorationStrategies.DecayIsMaximum | rl_module/training/exploration_strategies.py:39-43 | decay sets epsilon to the larger of epsilon_end and epsilon * decay_rate and keeps the floor and the rate |
| ExplorationStrategies.DecayNonIncreasing | rl_module/training/exploration_strategies.py:43 | from at or above a non-negative floor, with a rate in [0, 1], decay never raises epsilon and never drops it below the floor |
| ExplorationStrategies.DecayKeepsSchedule | rl_module/training/exploration_strategies.py:43 | any number of decays keeps the floor and the rate |
| ExplorationStrategies.DecayClosedForm | rl_module/training/exploration_strategies.py:43 | after n >= 1 decays epsilon is max(epsilon_end, epsilon * rate^n): clamping at every step equals clamping once |
| ExplorationStrategies.DecayingChoosesThenDecays | rl_module/training/exploration_strategies.py:92-95 | the self-decaying variant chooses with the epsilon it had before the call, then decays exactly once; a failed choice changes nothing |
| ExplorationStrategies.DecayingRunDecaysOncePerCall | rl_module/training/exploration_strategies.py:92-95 | a run of n successful calls makes n choices and leaves the strategy decayed exactly n times |
| ExplorationStrategies.DecayTimesShift | rl_module/training/exploration_strategies.py:43 | decaying once and then n times is decaying n + 1 times |
| ExplorationStrategies.UcbBookkeeping | rl_module/training/exploration_strategies.py:74-81 | the first call starts one zero count per action; a successful call returns the first maximal score and adds one to that action's count only, so the counts total the successful calls; a failed call keeps the counts |
| QLearningAgent.NewAgent | rl_module/agents/q_learning_agent.py:9-41 | a new agent has a state_size by action_size table of zeros and all five configured rates: learning, discount, exploration, exploration decay and minimum exploration |
| QLearningAgent.ChooseActionInRange | rl_module/agents/q_learning_agent.py:43-56 | below the exploration rate the picked action is returned, failing only with no actions; otherwise the first column of the row's maximum is returned, failing only on an empty row or a state outside numpy's index range |
| QLearningAgent.TdTargetUsesRowMaximum | rl_module/agents/q_learning_agent.py:68-69 | the target is the reward plus the discount times the largest value in the next state's row |
| QLearningAgent.UpdateTouchesOneCell | rl_module/agents/q_learning_agent.py:58-72 | the update fails exactly on an out-of-range index or an empty table row; otherwise only the (state, action) cell changes, by learning_rate * (target - current), and the table keeps its shape |
| QLearningAgent.BlendApproachesTarget | rl_module/agents/q_learning_agent.py:70-72 | learning rate 1 sets the cell to the target, rate 0 keeps it, and a rate in [0, 1] shrinks the distance to the target by the factor 1 - rate |
| QLearningAgent.DecayExplorationEffect | rl_module/agents/q_learning_agent.py:74-78 | decay sets only the exploration rate, to the larger of the floor and rate * decay, and never raises it from at or above a non-negative floor with a decay in [0, 1] |
| QLearningAgent.ResetIsFresh | rl_module/agents/q_learning_agent.py:96-101 | reset gives a fresh agent's zero table and full exploration, keeps every other setting, and afterwards any draw below 1 explores |
| QLearningAgent.MissingFileKeepsTable | rl_module/agents/q_learning_agent.py:88-94 | with no saved file the agent is unchanged; a saved table replaces the table and nothing else |
| PolicyGradientAgent.RememberAppendsOneStep | rl_module/agents/policy_gradient_agent.py:48-59 | remember appends the state, action and reward at the end of their lists, keeps every earlier entry, and keeps aligned lists aligned |
| PolicyGradientAgent.RememberAllRecordsSteps | rl_module/agents/policy_gradient_agent.py:57-59 | remembering a sequence of steps keeps the lists aligned, keeps the old rewards, and stores the i-th step's action and reward at the i-th new position |
| PolicyGradientAgent.AlignedPrefix | rl_module/agents/policy_gradient_agent.py:58 | remembering more steps adds one action per step and keeps the actions already there |
| PolicyGradientAgent.DiscountRewards | rl_module/agents/policy_gradient_agent.py:75-90 | the backwards loop yields one value per reward, each the discounted return from its step, and the last value is the last reward |
| PolicyGradientAgent.ReturnRecurrence | rl_module/agents/policy_gradient_agent.py:87-89 | the return from the last step is its reward, and each return is the reward plus gamma times the next return |
| PolicyGradientAgent.DiscountedRecurrence | rl_module/agents/policy_gradient_agent.py:87-89 | any list of the returns satisfies d[t] = rewards[t] + gamma * d[t + 1], the recurrence the loop computes |
| PolicyGradientAgent.NoDiscountIsIdentity | rl_module/agents/policy_gradient_agent.py:88 | with gamma 0 each step's discounted reward is its own reward |
| PolicyGradientAgent.FullDiscountIsSuffixSum | rl_module/agents/policy_gradient_agent.py:88 | with gamma 1 the discounted reward at t is the sum of the rewards from t on |
| PolicyGradientAgent.ReturnIsLinear | rl_module/agents/policy_gradient_agent.py:88 | scaling every reward by c scales every discounted reward by c |
| MetricsLogger.NewLoggerIsEmpty | rl_module/evaluation/metrics_logger.py:20-34 | a new logger has five empty lists, is consistent, and has nothing to display |
| MetricsLogger.LogEpisodeAppends | rl_module/evaluation/metrics_logger.py:36-52 | logging appends the arguments to their lists and the previous reward sum plus the new reward to the cumulative list, keeping every earlier entry |
| MetricsLogger.LogEpisodeKeepsConsistent | rl_module/evaluation/metrics_logger.py:48-52 | logging keeps the five lists of equal length with each cumulative entry the sum of the rewards so far |
| MetricsLogger.LogAllKeepsConsistent | rl_module/evaluation/metrics_logger.py:48-52 | a run of log_episode calls keeps the logger consistent, adds one entry per call and records each call's episode and reward in order |
| MetricsLogger.EpisodesPrefix | rl_module/evaluation/metrics_logger.py:48 | more logging keeps the episode numbers already logged |
| MetricsLogger.CumulativeIsRunningTotal | rl_module/evaluation/metrics_logger.py:51 | in a consistent logger the cumulative list starts at the first reward and each entry is the previous one plus that episode's reward |
| MetricsLogger.LatestIsLastLogged | rl_module/evaluation/metrics_logger.py:76-88 | after logging, the latest metrics are the values just logged, with the sum of all rewards as the cumulative value |
| MetricsLogger.DisplayGuard | rl_module/evaluation/metrics_logger.py:76-88 | the display shows nothing exactly when no episode is logged, never fails on a consistent logger, and fails only when some other list is empty |
| MetricsLogger.MissingFileKeepsMetrics | rl_module/evaluation/metrics_logger.py:64-70 | loading without a file keeps the metrics, and a file replaces them |
| MetricsLogger.ExampleRun | rl_module/evaluation/metrics_logger.py:127-135 | episode 10 with reward 100, win rate 0.75 and average Q-value 5.2 logged into a new logger displays a cumulative reward of 100 |
| LogAnalysis.WordBoundaryExamples | nlp_chat/chat_testing/log_analysis_tool.py:13-15 | the patterns match whole words only: "bluff" is found in "i bluff now" but not in "bluffing", and a lowered "I WIN" mentions "win" |
| LogAnalysis.SearchFromFindsAnyOccurrence | nlp_chat/chat_testing/log_analysis_tool.py:65 | the word search succeeds exactly when the word occurs between two word boundaries somewhere in the message |
| LogAnalysis.LowerIsPointwise | nlp_chat/chat_testing/log_analysis_tool.py:60 | lowering keeps the length, lowers each ASCII capital, keeps every other character, and leaves no capital behind |
| LogAnalysis.BumpEffect | nlp_chat/chat_testing/log_analysis_tool.py:75-78 | adding to a minute's count raises that count by n, leaves every other count, adds the minute to the keys, raises the total by n and keeps the keys distinct |
| LogAnalysis.MergeEffect | nlp_chat/chat_testing/log_analysis_tool.py:140-144 | merging two frequency dictionaries adds the counts key by key, takes the union of the keys, adds the totals and keeps the keys distinct |
| LogAnalysis.AnalyzeEntryEffect | nlp_chat/chat_testing/log_analysis_tool.py:59-78 | one entry adds one message, one bluff exactly when "bluff" occurs as a word, one win exactly when "win" does, one loss exactly when "lost" does but "win" does not, and one to its minute only |
| LogAnalysis.AnalyzeCounters | nlp_chat/chat_testing/log_analysis_tool.py:51-80 | the message count is the number of entries, the bluffs are at most that many, and so are the wins and losses together |
| LogAnalysis.AnalyzeFrequencyShape | nlp_chat/chat_testing/log_analysis_tool.py:74-78 | the minute counts add up to the number of messages and each minute is a key once |
| LogAnalysis.AnalyzeFrequencyKeys | nlp_chat/chat_testing/log_analysis_tool.py:74-78 | the frequency keys are exactly the minutes of the entries |
| LogAnalysis.AnalyzeFrequencyCounts | nlp_chat/chat_testing/log_analysis_tool.py:74-78 | each minute's count is the number of entries in that minute |
| LogAnalysis.AnalyzeConcatCounters | nlp_chat/chat_testing/log_analysis_tool.py:59-72 | analysing two lists in turn adds their message, bluff, win and loss counters |
| LogAnalysis.AnalyzeConcatCounts | nlp_chat/chat_testing/log_analysis_tool.py:74-78 | analysing two lists in turn adds their counts minute by minute |
| LogAnalysis.AnalyzeConcatKeys | nlp_chat/chat_testing/log_analysis_tool.py:74-78 | analysing two lists in turn takes the union of their minutes |
| LogAnalysis.AnalyzeLogsIsAnalysisOfAllEntries | nlp_chat/chat_testing/log_analysis_tool.py:119-145 | the directory totals equal the analysis of all ".log" files' entries together, counter by counter and minute by minute, with each minute kept once |
| LogAnalysis.OtherFilesAreSkipped | nlp_chat/chat_testing/log_analysis_tool.py:127-128 | a file whose name does not end in ".log" changes nothing |
| PreFlopSimulations.DeckNameInjective | strategy_engine/pre_flop_strategy/pre_flop_simulations.py:14-16 | two cards with the same "rank_of_suit" name are the same card |
| PreFlopSimulations.DeckHasEveryCardOnce | strategy_engine/pre_flop_strategy/pre_flop_simulations.py:12-17 | the deck has 52 distinct names, suit-major with ranks 2 to A inside each suit, and a name is in the deck exactly when it names a card |
| PreFlopSimulations.RemoveFirstEffect | strategy_engine/pre_flop_strategy/pre_flop_simulations.py:55 | list.remove fails exactly on a card not in the deck and otherwise takes away one copy of it |
| PreFlopSimulations.RemoveHandEffect | strategy_engine/pre_flop_strategy/pre_flop_simulations.py:54-55 | removing the hand succeeds exactly when the hand is a sub-multiset of the deck, and then leaves the deck minus the hand |
| PreFlopSimulations.RemovedHandLeavesDistinctDeck | strategy_engine/pre_flop_strategy/pre_flop_simulations.py:51-55 | from a deck without repeats, a successful removal leaves |hand| fewer cards, none of the hand's, all from the deck, still without repeats |
| PreFlopSimulations.FullDeckRemovalSucceedsIff | strategy_engine/pre_flop_strategy/pre_flop_simulations.py:51-55 | removal from the simulator's deck succeeds exactly when the hand has no repeated card and every card is in the deck |
| PreFlopSimulations.WithoutMembers | strategy_engine/pre_flop_strategy/pre_flop_simulations.py:63 | the filtered deck holds exactly the deck's cards that are not in the dealt hand, keeps distinctness and never grows |
| PreFlopSimulations.SampleOfTwoShrinksDeck | strategy_engine/pre_flop_strategy/pre_flop_simulations.py:60-63 | two cards sampled from a deck without repeats are two different cards of it, and filtering them out leaves two fewer cards, still without repeats |
| PreFlopSimulations.DealOpponentsEffect | strategy_engine/pre_flop_strategy/pre_flop_simulations.py:58-63 | dealing fails only when too few cards are left; otherwise every opponent gets two different cards of the deck, no card twice, and the remaining deck is two cards shorter per opponent and holds none of them |
| PreFlopSimulations.JudgeIsStrict | strategy_engine/pre_flop_strategy/pre_flop_simulations.py:72-74 | with no opponents max() fails; otherwise the player wins exactly when beating every opponent's score, so a tie loses |
| PreFlopSimulations.DealIsDisjoint | strategy_engine/pre_flop_strategy/pre_flop_simulations.py:50-66 | a successful round deals two cards per opponent and five to the board, all different from each other and from the player's hand |
| PreFlopSimulations.RoundErrors | strategy_engine/pre_flop_strategy/pre_flop_simulations.py:39-74 | a round succeeds exactly when the hand is distinct cards of the deck, at least one opponent plays and five cards are left for the board; it is won exactly when the player's score beats every opponent's |
| PreFlopSimulations.WinCountBounded | strategy_engine/pre_flop_strategy/pre_flop_simulations.py:30-35 | no more rounds are won than were played |
| PreFlopSimulations.SimulateIsAShare | strategy_engine/pre_flop_strategy/pre_flop_simulations.py:30-37 | zero simulations divide by zero, a negative count gives 0, and otherwise the estimate lies in [0, 1] |
| PreFlopSimulations.ExampleHandIsInDeck | strategy_engine/pre_flop_strategy/pre_flop_simulations.py:110 | the example hand "A_of_hearts", "K_of_spades" names the ace of hearts and the king of spades, both in the deck |
| PreFlopRules.HandTableQuirks | strategy_engine/pre_flop_strategy/pre_flop_rules.py:11-15 | the repeated 'AJs' key keeps its later value 5, 'A2s-A5s' is a literal key worth 4, and hands such as 'A3s' or 'JTs' are unlisted and score 0 |
| PreFlopRules.HandStrengthRange | strategy_engine/pre_flop_strategy/pre_flop_rules.py:31-40 | every listed hand scores between 3 and 10, and every unlisted one scores 0 |
| PreFlopRules.AdjustmentTables | strategy_engine/pre_flop_strategy/pre_flop_rules.py:18-29 | the position and opponent lookups give -1, 0 or 1 as their tables say, and 0 for anything unlisted |
| PreFlopRules.AdjustedStrengthRange | strategy_engine/pre_flop_strategy/pre_flop_rules.py:77-82 | the adjusted strength lies between -2 and 12 |
| PreFlopRules.DecideCharacterized | strategy_engine/pre_flop_strategy/pre_flop_rules.py:84-90 | raise exactly at 9 or more; call exactly from 5 to 8 with pot odds above 1.5; fold otherwise |
| PreFlopRules.DecideIsMonotone | strategy_engine/pre_flop_strategy/pre_flop_rules.py:84-90 | a higher score or better pot odds never give a more passive action |
| PreFlopRules.LaterPositionPlaysLooser | strategy_engine/pre_flop_strategy/pre_flop_rules.py:64-90 | for the same hand, a later seat or a more passive opponent never gives a more passive action |
| PreFlopRules.WorkedExample | strategy_engine/pre_flop_strategy/pre_flop_rules.py:94-101 | 'AK' in late position against a passive opponent scores 8, and pot odds of 2.0 make it a call |
| BluffProbability.BaseIsClampedAggression | strategy_engine/bluffing_engine/bluff_probability.py:45-52 | the base chance is 0.4 + aggression clamped to [0.1, 0.8], with each clamp taking effect exactly beyond its bound |
| BluffProbability.ModifierSumRange | strategy_engine/bluffing_engine/bluff_probability.py:54-116 | each modifier takes only its listed values, so the four modifiers add up to between 3.0 and 5.4 |
| BluffProbability.ProbabilityIsClamped | strategy_engine/bluffing_engine/bluff_probability.py:23-43 | the probability lies in [0.05, 0.95]; it is the unclipped product inside that range and the bound it exceeds outside it |
| BluffProbability.LowerClipNeverBinds | strategy_engine/bluffing_engine/bluff_probability.py:38-41 | the unclipped product is always at least 0.3, so the lower clip at 0.05 never takes effect |
| BluffProbability.CombineIsMonotone | strategy_engine/bluffing_engine/bluff_probability.py:38 | a larger base and a larger modifier sum never give a smaller product |
| BluffProbability.MoreAggressionBluffsMore | strategy_engine/bluffing_engine/bluff_probability.py:38-52 | raising the aggression level never lowers the bluff probability |
| BluffProbability.MoreAggressionRaisesBase | strategy_engine/bluffing_engine/bluff_probability.py:52 | raising the aggression level never lowers the base chance and leaves the modifiers unchanged |
| BluffProbability.StrongerHandBluffsLess | strategy_engine/bluffing_engine/bluff_probability.py:38-41 | a stronger hand never raises the bluff probability |
| BluffProbability.StrongerHandLowersModifiers | strategy_engine/bluffing_engine/bluff_probability.py:72-84 | a stronger hand never raises the modifier sum and leaves the base chance unchanged |
| BluffProbability.CapitalisedProfilesAreNeutral | strategy_engine/bluffing_engine/bluff_probability.py:61-70 | labels are matched case-sensitively, so the capitalised opponent types of the profiler all get the neutral modifier 1.0 |
| BluffProbability.WorkedExample | strategy_engine/bluffing_engine/bluff_probability.py:121-129 | an aggressive opponent, hand 0.2, pot odds 0.3, aggression 0.7 on the river give base 0.8, modifier sum 4.7, product 3.76, clipped to 0.95 |
| OpponentProfiling.NewProfileIsEmpty | strategy_engine/opponent_profiling/opponent_profiling.py:11-19 | a fresh profile has no hands, no counts, no bets, type "Unknown", and is valid |
| OpponentProfiling.ExceedsIsIntegerTest | strategy_engine/opponent_profiling/opponent_profiling.py:55-63 | a ratio count / hands is above 0.6 exactly when 5 * count > 3 * hands |
| OpponentProfiling.ClassifyCharacterized | strategy_engine/opponent_profiling/opponent_profiling.py:44-66 | with no hands classification changes nothing; otherwise it sets only the type, to the first of Aggressive, Tight, Passive whose ratio is above 0.6, else Loose |
| OpponentProfiling.ClassifyIsIdempotent | strategy_engine/opponent_profiling/opponent_profiling.py:44-66 | classifying twice is classifying once |
| OpponentProfiling.AtMostOneRatioExceeds | strategy_engine/opponent_profiling/opponent_profiling.py:59-66 | when the counted actions never outnumber the hands, at most one ratio exceeds 0.6, so the order of the tests never decides the label |
| OpponentProfiling.UpdateProfileEffect | strategy_engine/opponent_profiling/opponent_profiling.py:21-42 | an update adds one hand, bumps only the counter the action names, records a bet size only for "bet" with a truthy size, reclassifies to one of the four labels, and keeps the profile valid |
| OpponentProfiling.UpdateAllKeepsValid | strategy_engine/opponent_profiling/opponent_profiling.py:21-42 | n updates add n hands, keep the player id and validity, and after at least one leave a label |
| OpponentProfiling.UpdateOpponentEffect | strategy_engine/opponent_profiling/opponent_profiling.py:113-131 | update_opponent adds a missing id with a fresh profile, replaces that id's profile by update_profile of the stored (or fresh) one, so it gains one hand, leaves every other id's profile as it was and leaves a label, for any stored table; a table of valid profiles stays valid |
| OpponentProfiling.GetOpponentTypeTotal | strategy_engine/opponent_profiling/opponent_profiling.py:143-155 | an unknown id reads "Unknown" and a known one its stored type |
| OpponentProfiling.ClassifyAllKeepsCounters | strategy_engine/opponent_profiling/opponent_profiling.py:133-141 | reclassifying all opponents keeps the ids, changes only the types, and doing it twice is doing it once |
| OpponentProfiling.WorkedExample | strategy_engine/opponent_profiling/opponent_profiling.py:159-177 | after "raise" alone the opponent is Aggressive; after raise, fold and bluff every ratio is 1/3 and the opponent is Loose |
| Cards.Shuffle | rl_module/environment/poker_environment.py:37 | shuffling with any valid sequence of draws returns a permutation of the deck |
| Cards.RankMajorDeckComplete | rl_module/environment/poker_environment.py:34-36 | the rank-major deck holds every card exactly once, at position 4 * (rank - 2) + suit index |
| PokerEnvironment.PopCardsEffect | rl_module/environment/poker_environment.py:62 | k pops succeed exactly when the deck holds k cards; they take the last k cards, last first, and lose none |
| PokerEnvironment.DealHands | rl_module/environment/poker_environment.py:57-62 | dealing n hands succeeds exactly when the deck holds 2n cards; it takes them off the end, two per seat, and loses none |
| PokerEnvironment.NewEnvironmentIsValid | rl_module/environment/poker_environment.py:10-25 | a new table fails only with no seats; otherwise it is valid, with the full shuffled deck, an empty board and the first seat to act |
| PokerEnvironment.ResetEffect | rl_module/environment/poker_environment.py:40-55 | reset succeeds exactly when the deck covers two cards per seat; it leaves a valid table with 52 - 2n cards in the deck, two per hand, an empty board, zero pot, round and bets, and keeps the current player and the agent's seat |
| PokerEnvironment.StepBets | rl_module/environment/poker_environment.py:104-114 | a call brings the seat's bet up to the highest bet, a raise adds the drawn amount, a fold moves no chips; the pot grows by what the seat put in and other seats' bets stay |
| PokerEnvironment.StepAdvances | rl_module/environment/poker_environment.py:118-131 | the turn passes to the next seat, wrapping to 0; the round advances exactly when it wraps; and 3, 1, 1 or 0 cards move from the end of the deck to the board according to the new round |
| PokerEnvironment.StepErrors | rl_module/environment/poker_environment.py:104-131 | an unknown action raises; a known one fails only when the deck cannot supply the cards the new round deals |
| PokerEnvironment.StepReward | rl_module/environment/poker_environment.py:100-153 | past round 3 the hand is done and the agent gets the pot if the drawn seat is its own and minus the pot otherwise; before that a fold ends the hand with -1 and anything else pays 0 |
| PokerEnvironment.StepKeepsPotIsSumOfBets | rl_module/environment/poker_environment.py:107-114 | a step keeps the pot equal to the sum of the bets, with no bet negative |
| PokerEnvironment.StepKeepsCards | rl_module/environment/poker_environment.py:125-131 | a step keeps the hands and only moves cards from the deck to the board |
| PokerEnvironment.StepPreservesValid | rl_module/environment/poker_environment.py:90-139 | every step keeps the table valid |
| PokerEnvironment.ValidHasNoDuplicateCards | rl_module/environment/poker_environment.py:27-38 | in a valid table the deck, the board and the hands together hold the 52 cards with no card twice |
| PokerEnvironment.GameStateOfValidTable | rl_module/environment/poker_environment.py:74-88 | get_game_state of a valid table shows the agent's own hand and the board, one bet per seat with none negative and their sum as the pot, a current player who has a seat, and no card of the agent's hand on the board |
| StateRepresentation.EncodeDecodeRoundTrip | rl_module/environment/state_representation.py:46-61 | every card written as rank character and suit letter encodes as rank * 10 + suit code, and decoding that number gives the card back |
| StateRepresentation.EncodeCardInjective | rl_module/environment/state_representation.py:56-61 | equal codes come from the same rank character and the same suit character |
| StateRepresentation.EncodeCardErrors | rl_module/environment/state_representation.py:56-61 | encode_card fails exactly on a string shorter than two characters or a character missing from a lookup table, and the error says which |
| StateRepresentation.TableCardNamesDoNotEncode | rl_module/environment/state_representation.py:56-60 | the environment's own card names ("10 of Hearts") never encode: a ten starts with '1' and every other rank is followed by a space |
| StateRepresentation.EncodeCardsPointwise | rl_module/environment/state_representation.py:33-44 | encoding a list succeeds exactly when every card encodes, and then encodes each card in place |
| StateRepresentation.PadToFiveEffect | rl_module/environment/state_representation.py:73-76 | padding keeps the codes as a prefix and appends zeros up to five entries, adding nothing to five or more |
| StateRepresentation.EncodePlayersLayout | rl_module/environment/state_representation.py:78-93 | each player contributes three numbers in order: stack, current bet, and 1 or 0 for active |
| StateRepresentation.StateVectorLayout | rl_module/environment/state_representation.py:16-31 | with two hole cards, at most five community cards and one entry per player, the vector has exactly get_state_size() entries: hand, padded board, pot, current bet, players |
| HandEvaluation.DecimalRoundTrip | strategy_engine/post_flop_strategy/hand_evaluation.py:152 | int() of the decimal text of n gives n back |
| HandEvaluation.CardValueOfNumber | strategy_engine/post_flop_strategy/hand_evaluation.py:133-152 | every decimal rank string is read as the number it spells |
| HandEvaluation.CardValueOfRankText | strategy_engine/post_flop_strategy/hand_evaluation.py:133-152 | the rank text written by every module is read back as its rank: J, Q, K, A as 11 to 14, and "2" to "10" as numbers |
| HandEvaluation.TenAsLetterIsRejected | strategy_engine/post_flop_strategy/hand_evaluation.py:151-152 | the letter "T" for ten is not a rank here: int("T") raises |
| HandEvaluation.ReadCardTexts | strategy_engine/post_flop_strategy/hand_evaluation.py:65-78 | cards written as rank text plus suit letter are read back with their ranks and suits, in order |
| HandEvaluation.ReadingIsPermutationInvariant | strategy_engine/post_flop_strategy/hand_evaluation.py:65-78 | reordering the cards reorders their ranks and suits and nothing more |
| HandEvaluation.CountIsMultiplicity | strategy_engine/post_flop_strategy/hand_evaluation.py:120-122 | list.count(x) is the multiplicity of x |
| HandEvaluation.IsFlushIff | strategy_engine/post_flop_strategy/hand_evaluation.py:55-66 | the hand is a flush exactly when some suit occurs at least five times |
| HandEvaluation.InsertIsSorted | strategy_engine/post_flop_strategy/hand_evaluation.py:78 | inserting into an ascending list keeps it ascending and adds exactly the new element |
| HandEvaluation.SortIsSorted | strategy_engine/post_flop_strategy/hand_evaluation.py:78 | sorted() returns the same ranks in ascending order |
| HandEvaluation.SortedUnique | strategy_engine/post_flop_strategy/hand_evaluation.py:78 | two ascending arrangements of the same ranks are equal, so sorted() is the only one |
| HandEvaluation.SortDesc | strategy_engine/post_flop_strategy/hand_evaluation.py:128 | sorted(reverse=True) returns the same ranks in descending order |
| HandEvaluation.StraightHasRun | strategy_engine/post_flop_strategy/hand_evaluation.py:68-79 | a detected straight is five consecutive ranks that all occur among the cards |
| HandEvaluation.WheelIsNotStraight | strategy_engine/post_flop_strategy/hand_evaluation.py:78-79 | A-2-3-4-5 is not a straight: the ace only counts as 14 |
| HandEvaluation.PairInsideRunHidesStraight | strategy_engine/post_flop_strategy/hand_evaluation.py:78-79 | 5,6,7,7,8,9 holds five consecutive ranks, yet the window test misses it because of the paired 7 |
| HandEvaluation.FirstRun | strategy_engine/post_flop_strategy/hand_evaluation.py:166-170 | the search from index i returns a window of five consecutive ascending ranks with no such window before it, or None when there is none |
| HandEvaluation.StraightRanks | strategy_engine/post_flop_strategy/hand_evaluation.py:162-170 | get_straight returns a run exactly when is_straight holds, and then five consecutive ranks that all occur, starting no higher than any run among the sorted ranks |
| HandEvaluation.QuadsAreNotTripsOrPair | strategy_engine/post_flop_strategy/hand_evaluation.py:120-122 | four of a kind alone counts neither as three of a kind nor as a pair, since the count must be exact |
| HandEvaluation.TwoTriplesAreNotFullHouse | strategy_engine/post_flop_strategy/hand_evaluation.py:108-122 | two triples are not a full house, because no rank occurs exactly twice |
| HandEvaluation.TwoPairNeverFires | strategy_engine/post_flop_strategy/hand_evaluation.py:114-115 | is_two_pair never holds: it counts integer ranks in a list of strings |
| HandEvaluation.GetHandTakesTopRanks | strategy_engine/post_flop_strategy/hand_evaluation.py:124-131 | get_hand starts with the min(primary, len) highest ranks, in descending order, each at least as large as any rank left out |
| HandEvaluation.FirstMax | strategy_engine/post_flop_strategy/hand_evaluation.py:159 | the chosen flush suit is a suit of the cards with the highest count |
| HandEvaluation.FlushCards | strategy_engine/post_flop_strategy/hand_evaluation.py:154-160 | on a flush, get_flush_cards returns at least five of the cards, all of one suit |
| HandEvaluation.FlushIgnoresOrder | strategy_engine/post_flop_strategy/hand_evaluation.py:55-66 | the flush test depends only on which suits occur, not on their order |
| HandEvaluation.StraightIgnoresOrder | strategy_engine/post_flop_strategy/hand_evaluation.py:68-79 | sorting, and so the straight test, depends only on which ranks occur |
| HandEvaluation.SameRankIgnoresOrder | strategy_engine/post_flop_strategy/hand_evaluation.py:120-122 | has_same_rank depends only on which ranks occur |
| HandEvaluation.CategoryIgnoresOrder | strategy_engine/post_flop_strategy/hand_evaluation.py:19-53 | the category depends only on which cards are held, not on their order |
| HandEvaluation.EvaluateHandIgnoresSides | strategy_engine/post_flop_strategy/hand_evaluation.py:30 | swapping the hole cards and the board changes neither success nor category |
| HandEvaluation.CategoryIsStrongestMatch | strategy_engine/post_flop_strategy/hand_evaluation.py:33-51 | the cascade reports a category whose test holds, and no stronger category's test holds |
| HandEvaluation.EvaluateIsStrongestMatch | strategy_engine/post_flop_strategy/hand_evaluation.py:19-53 | evaluation fails exactly on no cards or a malformed card; otherwise it reports the strongest category whose test holds, never Two Pair |
| HandEvaluation.StraightFlushNeedNotBeSameFive | strategy_engine/post_flop_strategy/hand_evaluation.py:81-91 | 4-6-8-10-Q of hearts with a 5 of diamonds and a 7 of clubs is called a straight flush: the flush and the straight need not be the same five cards |
| HandEvaluation.FourHeartsIsNoFlush | strategy_engine/post_flop_strategy/hand_evaluation.py:65-66 | four hearts among seven cards are not a flush |
| HandEvaluation.PairExampleIsOnePairOfKings | strategy_engine/post_flop_strategy/hand_evaluation.py:172-177 | 9H KD with 3H 4S 5D 8H KH is one pair, reported as the two highest ranks, the kings [13, 13] |
| HandEvaluation.EvaluateReportsCards | strategy_engine/post_flop_strategy/hand_evaluation.py:31-51 | a successful evaluation is of well-formed cards and reports: all the cards for a royal or straight flush, get_hand(ranks, 4) for four of a kind, get_hand(ranks, 3, 2) for a full house, five consecutive ranks that all occur for a straight, get_hand(ranks, 3) and get_hand(ranks, 2) for three of a kind and a pair, and nothing for a high card |
| HandEvaluation.EvaluateReportsFlushCards | strategy_engine/post_flop_strategy/hand_evaluation.py:42-43 | a flush reports get_flush_cards: at least five of the evaluated cards, all of the same suit |
| HandEvaluation.EvaluateOnePair | strategy_engine/post_flop_strategy/hand_evaluation.py:50-51 | cards whose category is one pair are reported as get_hand(ranks, 2) |
| Vectors.ArgMax | rl_module/agents/q_learning_agent.py:56 | np.argmax gives a position holding the row's largest value, with every earlier entry strictly smaller |
| Vectors.ArgMaxIsFirstMaximum | rl_module/agents/q_learning_agent.py:56 | the first position of the maximum is unique, so argmax is determined by the row |
| Vectors.ZeroMatrix | rl_module/agents/q_learning_agent.py:20 | np.zeros((rows, cols)) has rows rows, each of cols zeros |
| Vectors.PyIndex | rl_module/agents/q_learning_agent.py:56 | an index works exactly in [-n, n), negative ones counting from the end |

## Left out

- Floating-point rounding. Every float is an exact `real`. This covers the float32 array in `discount_rewards` and the comparisons at exact thresholds.
- File, JSON and YAML I/O is not modelled. This covers `save_metrics`/`load_metrics`, `save_q_table`/`load_q_table`, the config loader, the profiler's `load_profiles`/`save_profiles`, and logging. A file's contents arrive as an `Option` argument, where `None` means the file is missing.
- The softmax strategy is left out because it is floating `exp` arithmetic.
- The UCB score (`sqrt`/`log`) is not computed. The scores are a parameter, and only the argmax choice and the count bookkeeping are modelled.
- The policy network's `act`, `train` and `build_model` are TensorFlow calls. Return normalisation with the standard deviation is also left out. Only `remember` and `discount_rewards` are modelled.
- `visualize_metrics` and `visualize_chat_data` are left out because they only plot.
- `parse_chat_logs` is not modelled. It reads files and parses timestamps with `strptime`. A log arrives as its list of (message, "HH:MM") entries.
- Regular expressions are modelled only as the whole-word search `\bword\b` that the analysis uses. `\w` and `lower()` are modelled on ASCII only.
- `os.listdir` order is taken as given: the directory is a sequence of files.
- The `random` module is not modelled. Shuffles, choices, samples, uniform draws, the raise amount, the agent's seat and the winner are all parameters.
- `calculate_hand_strength` in the simulator is a placeholder that returns `random.randint(1, 100)`. Its scores are parameters, each required to lie in [1, 100].
- HandEvaluation.CardValueOfNumber: Python's `int()` also accepts a sign, surrounding whitespace, underscores between digits, and non-ASCII Unicode decimal digits (Arabic-Indic or full-width digits, for example). The model reads plain ASCII decimal digits only; any other rank text is an error.
- HandEvaluation.FirstMax: `max(set(suits), key=suits.count)` breaks ties in set iteration order, which Python does not fix. The model takes the first suit in card order. For at most nine cards, a flush's most frequent suit has at least five of them and so is unique, and the choice matters only on a tie, which needs ten or more cards.
- The hand evaluator's Two Pair branch calls `get_two_pair`, which is not defined anywhere. Since `is_two_pair` never holds, that branch is unreachable and is modelled as an error value.
- `run_pre_flop_simulation`'s printing and the `__main__` printouts are left out. Their values are stated as worked-example lemmas.
- PokerEnvironment.Step: `step` updates the bets, the pot, the current player and the betting round in place before it pops the community cards. When a pop then raises IndexError, the Python object keeps those changes and the cards already moved to the board, but the model's `Err` carries no table, so the partly updated state is not modelled (rl_module/environment/poker_environment.py:104-131). An unknown action raises before any change (rl_module/environment/poker_environment.py:116), so that error loses nothing.
- PokerEnvironment.Reset: `reset` replaces the deck with a fresh shuffle and pops hole cards one seat at a time. When a pop raises IndexError, the Python object keeps the emptied deck, the cleared board, pot, round and bets, and the hands dealt so far, but the model's `Err` carries no table, so that partial state is not modelled (rl_module/environment/poker_environment.py:47-62).
- `calculate_reward` returns `lose_penalty` for "lose" and `fold_penalty` for "fold" as configured (defaults -1.0 and -0.5), and the model does the same.
- Left out as outside this core:
  - the browser automation;
  - NLP chat generation and fine-tuning;
  - the DQN agent;
  - the evaluation and training harnesses and `main.py`;
  - `PokerBot/`, whose bodies are all `pass`;
  - the tests.
