# Verification of the baseball platform's core

A Dafny model of the parts of the platform whose correctness is hardest to see by reading:
the replay of a live game feed, the run-job registry, three statistics algorithms, two
crash-safe stores, the rate limiter and the session token, the SQL out labels, and the odds,
bet-signal and box-score arithmetic. `dafny verify dfyconfig.toml` checks everything.

Code that works by changing things step by step is a method with loops, or a class, proved
against a specification function; what the program promises is proved about that function.
The two protocols that interleave with a database or with crashes are state machines whose
steps are one stretch of code between two awaits, or one SQL statement, and their theorems are
about every state of every run. Python floats are reals. SQL tables are maps, sets and
sequences. The clock, the MAC, the JSON codec, the worker thread's reports and the failures
of a game's load are parameters or nondeterministic steps.

## Files

| file | models |
|---|---|
| Helpers | optional values, facts about finite sets and filtered lists |
| Feed, FeedPlays, FeedRoster, FeedReplay | the feed's data, `finished_flags`, `parse_plays`, `_roster`, `state_at_pa` |
| FeedSituation | the two loops over one feed compared: exactly when they agree |
| FeedConservation | the linescore grid, the pitch counts and the batters faced |
| FeedPlayers, FeedDefense, FeedPitches | who is used, who bats next, who stands where, who threw what |
| FeedStart | the rosters, the state before the first pitch, the grids' entries, the eligible players, the refusals |
| SimJobs, SimJobsSafety, SimJobsRuns, SimJobRegistry | the run-job registry: steps, invariant, theorems over runs, the object |
| SimJobsOutcomes, SimJobsHistory, SimJobsProgress | how its runs end and why, what its fields say of the events behind, what can still happen |
| Isotonic, IsotonicOptimal | pool-adjacent-violators and its least-squares optimality |
| Auc | the rank-sum area under the curve |
| AliasGroups | the alias groups of a two-level design |
| ReplayStore | the replay file: run ids, stores, prunes, crashes |
| DoneFile | the loader's done-file: append, torn line, resume |
| RateLimit, SessionToken, SessionDecode | the sliding-window limiter; base64url and the signed token; the decoder on any text |
| OutLabels | the SQL out labels and base destinations under three-valued logic |
| Boxscore, BoxscoreStats, BoxscoreLaws, BoxscoreChunks | player totals from pitch rows, each stat as a count, their identities, the chunked run |
| Odds, BetSignals, LineMovement | prices, the de-vig and the CLV; the gate, stake and rank; the line series |

## Model

| member | source | states |
|---|---|---|
| Feed.ReadReplaced | pipeline/mlb_game_feed.py:314-323 | the loop over a play's leading actions collects exactly the men a pinch hitter replaced before the first pitch |
| Feed.ReplacedMeans | pipeline/mlb_game_feed.py:314-323 | a man is in that set exactly when some action before the first pitch pinch-hits for him |
| Feed.FinishedFlags | pipeline/mlb_game_feed.py:293-325 | the backward scan flags each play exactly as the forward rule does, for every feed |
| Feed.TurnEndedByNextPlay | pipeline/mlb_game_feed.py:296-299 | a play is unfinished exactly when the same side's next play has the same batter or a pre-pitch pinch hitter for him |
| Feed.TurnEndedByEvent | pipeline/mlb_game_feed.py:286-290 | a side's latest play falls back to its event: its turn is open exactly when the event's text is "caught_stealing" or "pickoff" with anything behind it |
| FeedPlays.FirstPitch | pipeline/mlb_game_feed.py:369 | the first event that is a pitch, or none |
| FeedPlays.ParsePlays | pipeline/mlb_game_feed.py:347-414 | the loop with its carried score, half, outs and bases emits the record list of the specification |
| FeedPlays.RecordMeans | pipeline/mlb_game_feed.py:363-410 | every field of record j, from the feed and record j-1: whose plate appearance it is, the score and the outs carried on, the runners of its first pitch, and its pitches in the order thrown |
| FeedPlays.PitchesInOrder | pipeline/mlb_game_feed.py:378-407 | a play's pitches stand at strictly rising positions of its events, and every pitch event's position is among them |
| FeedPlays.KeptMeans | pipeline/mlb_game_feed.py:365-366 | the recorded plays are exactly those that are complete or have an event, in order |
| FeedPlays.PreviousKept | pipeline/mlb_game_feed.py:411-413 | the record before a record is that of the latest recorded play before its own |
| FeedPlays.KeptAll | pipeline/mlb_game_feed.py:365-366 | with no placeholder before n, the records before n are the plays themselves |
| FeedPlays.RecordsPrefix | pipeline/mlb_game_feed.py:388-413 | records are never revised by later plays |
| FeedRoster.StartersMean | pipeline/mlb_game_feed.py:422-429 | a slot's starter is the latest listed player with its whole-hundred order, and a slot no one holds is empty |
| FeedRoster.StarterIsListed | pipeline/mlb_game_feed.py:427-429 | each man whose order is 100, 200, ... or 900 is listed at the position of his latest entry, at DH when that names none |
| FeedRoster.StartingDefenseMeans | pipeline/mlb_game_feed.py:497-503 | the starting defense holds exactly the listed fielding positions, no man at two |
| FeedRoster.HittersAmong | pipeline/mlb_game_feed.py:441-445 | an arm is a hitter only when he held a batting-order spot |
| FeedRoster.DedupeKeepsFirstSeen | pipeline/mlb_game_feed.py:450-451 | each name once, the same names, each before those first seen after it |
| FeedRoster.ReadRoster | pipeline/mlb_game_feed.py:417-452 | the loops over the box score build the roster of the specification |
| FeedStart.RosterMeans | pipeline/mlb_game_feed.py:430-452 | the arms are the pitchers then the bullpen, the hitters the batters then the bench less the arms without a batting-order spot, each once in that order, and the starting pitcher is the first listed |
| FeedStart.HittersInOrder | pipeline/mlb_game_feed.py:441-450 | the hitters keep the order of the batters and the bench |
| FeedStart.BeforeFirstPitch | pipeline/mlb_game_feed.py:491-632 | with no target: the top of the first, nothing counted, both starting nines in the order and the field, the visitors' lead-off hitter up |
| FeedStart.WhenRefused | pipeline/mlb_game_feed.py:491-626 | each of the three refusals is given exactly in its case, and the replay answers in no other |
| FeedReplay.DefenseOf | pipeline/mlb_game_feed.py:472-473 | a pitch that carries nine fielders carries a pitcher |
| FeedReplay.IndexOf | pipeline/mlb_game_feed.py:613 | the batter's first slot in the order |
| FeedReplay.Find | pipeline/mlb_game_feed.py:556-574 | the target is the first play with the index, or no play has it |
| FeedConservation.TurnKeepsSettled | pipeline/mlb_game_feed.py:561-571 | a change of half leaves both clubs' runs in balance: what a grid leaves out of its side's settled runs stays the same |
| FeedReplay.ReplayEvents | pipeline/mlb_game_feed.py:593-604 | the event loop of a completed play: defense, charged pitches and substitutions |
| FeedSituation.Situation | pipeline/mlb_game_feed.py:616-621 | whatever plays came before, the half, the outs and the bases are those of the latest play and the score is its own or the one before it |
| FeedPlayers.UsedByPlay | pipeline/mlb_game_feed.py:593-624 | after a completed play a man is used exactly when he was before, pitched in it, stood on base at its end or came in during it |
| FeedReplay.EnterTarget | pipeline/mlb_game_feed.py:575-589 | the events before the target's first pitch belong to it |
| FeedReplay.Fresh | pipeline/mlb_game_feed.py:638-647 | the eligible are exactly the listed players neither used nor in the game |
| FeedStart.FreshInOrder | pipeline/mlb_game_feed.py:638-647 | the eligible are the list without the used and the present, in the list's order |
| FeedStart.EligibleExactly | pipeline/mlb_game_feed.py:637-647 | at every target, each listed man neither used nor in the game is offered, in the roster's order, and no other; the men out of the game are the used who are not in it |
| FeedReplay.StateAtPa | pipeline/mlb_game_feed.py:480-681 | the whole replay answers as the specification does, its three errors included |
| FeedSituation.ReplayAgreesWithRecords | pipeline/mlb_game_feed.py:347-637 | with no placeholder just before it, both loops agree on a play's inning, half and runners; on outs exactly when no third out stands before a play of the same half; on each score exactly when that score stands |
| FeedSituation.AgreementOnSituation | pipeline/mlb_game_feed.py:347-637 | for every feed, placeholders included: they agree on the outs, the runners and each score exactly when the play just before and the latest recorded play hand over the same |
| FeedSituation.StateAtTarget | pipeline/mlb_game_feed.py:555-637 | what the replay answers at a target, from the feed alone |
| FeedSituation.RecordAtTarget | pipeline/mlb_game_feed.py:363-413 | what the records answer at the same play |
| FeedSituation.RunningScoreMeans | pipeline/mlb_game_feed.py:616-617 | a score stands exactly when the replay's fallback score is the latest play's own |
| FeedSituation.RisingScoresStand | pipeline/mlb_game_feed.py:616-617 | present scores that never fall always stand |
| FeedSituation.PlaceholderBreaksSituation | pipeline/mlb_game_feed.py:365-366 | a placeholder between two plays makes the two loops disagree on the outs and the runners |
| FeedSituation.ThirdOutBreaksOuts | pipeline/mlb_game_feed.py:636-637 | a third out before a play of the same half reads as none in the replay and as three in the record |
| FeedSituation.FallingScoreBreaksScore | pipeline/mlb_game_feed.py:616-617 | a score corrected back to zero makes them disagree on the score |
| FeedConservation.GridLaw | pipeline/mlb_game_feed.py:561-571 | for every feed, what a side's grid leaves out is exactly the runs it gained while in the field |
| FeedConservation.GridAddsUp | pipeline/mlb_game_feed.py:561-571 | when only the side at bat scores, each grid adds up to the side's score at the start of the half |
| FeedConservation.OneEntryPerInning | pipeline/mlb_game_feed.py:561-565 | with the halves in order, each grid has one entry per half its side finished batting |
| FeedStart.GridEntries | pipeline/mlb_game_feed.py:561-571 | entry i of a side's grid is the runs of the i-th half it has finished, whatever the order of the halves; the half's start score and its plate appearances are counted from its first play |
| FeedConservation.PitchCountsAddUp | pipeline/mlb_game_feed.py:600-602 | the pitch counts total exactly the pitches of the records before the target |
| FeedPitches.PitchCountsExact | pipeline/mlb_game_feed.py:593-602 | each man's count at a target is the number of earlier pitches he threw: those whose fielders name him at P, and those that name no such man while he was the fielding club's pitcher after the pitch; he has a count exactly when that is positive |
| FeedPitches.PitchCountsOfFeed | pipeline/mlb_game_feed.py:600-602 | when every earlier pitch names its pitcher, the counts are those of the feed alone |
| FeedConservation.BattersFacedExact | pipeline/mlb_game_feed.py:605-609 | each pitcher's count is exactly the finished turns against him |
| FeedPlayers.UsedExactly | pipeline/mlb_game_feed.py:504-624 | a man is used exactly when he started, pitched first, took part in an earlier play or came in before the target's first pitch |
| FeedPlayers.NoReentry | pipeline/mlb_game_feed.py:638-647 | the eligible lists name no one twice and no one who was in the game before |
| FeedPlayers.HittersAreBatters | pipeline/mlb_game_feed.py:432-445 | an arm is offered as a hitter only when he held a batting-order spot |
| FeedPlayers.LineupIsUsed | pipeline/mlb_game_feed.py:504-624 | every man who ever held a slot stays used |
| FeedPlayers.SlotLaw | pipeline/mlb_game_feed.py:605-635 | the next slot is the latest batter's own when his turn was left open and the following one mod 9 when it ended |
| FeedPlayers.OpenTurnSlot | pipeline/mlb_game_feed.py:605-635 | when a turn is left open, the next slot at its side's next play is the batter's own |
| FeedPlayers.LeadsOffAgain | pipeline/mlb_game_feed.py:296-299 | a batter whose half ended on the bases is in the next slot when his side bats again, unless a substitution up to the first pitch gave his slot away |
| FeedPlayers.PinchHitterLeadsOff | pipeline/mlb_game_feed.py:300-323 | when a pinch hitter for him goes on with the turn, the pinch hitter is in the next slot |
| FeedDefense.StartsOneSpotEach | pipeline/mlb_game_feed.py:497-503 | a club starts with one man at each position exactly when its starting pitcher is not listed at another |
| FeedDefense.OneClubChanges | pipeline/mlb_game_feed.py:518-553 | a substitution changes one club and adds the man to its used |
| FeedDefense.SubSideMeans | pipeline/mlb_game_feed.py:519-522 | a pinch hitter or runner belongs to the side at bat, every other substitute to the side in the field |
| FeedDefense.SubstitutionMeans | pipeline/mlb_game_feed.py:524-553 | what each kind of substitution does to the slot, the pitcher and every position |
| FeedDefense.SlotTaken | pipeline/mlb_game_feed.py:528-531 | the man takes the named slot, eight others stay, and the order repeats no one exactly when he held no other slot |
| FeedDefense.PositionTaken | pipeline/mlb_game_feed.py:539-552 | a fielding substitution puts the man at his position, takes him and the man he replaces off every other, and leaves the rest |
| FeedDefense.SpotsKept | pipeline/mlb_game_feed.py:528-552 | one man at each position survives a substitution exactly when no fielder is called to pitch and no pinch hitter is already in the field |
| FeedDefense.MoundKept | pipeline/mlb_game_feed.py:528-552 | the pitcher stays at P exactly when the substitution is none of the three that part them |
| FeedDefense.LawThroughout | pipeline/mlb_game_feed.py:504-604 | either law of the field holds at every point up to the start state exactly when it held at the first pitch of the game and no event on the way broke it |
| FeedDefense.PitchersStandAtP | pipeline/mlb_game_feed.py:504-604 | both pitchers stand at P at every point up to the start state exactly when no substitution on the way parts one from it |
| FeedDefense.NoManStandsTwice | pipeline/mlb_game_feed.py:497-604 | no man stands at two positions at any point up to the start state exactly when each club started so, no substitution on the way doubles a man and no pitch with nine fielders names one twice |
| FeedDefense.FielderCalledToPitch | pipeline/mlb_game_feed.py:537-539 | for any box scores, a fielder of the starting nine who is called to pitch stands at his position and at P |
| FeedDefense.PinchHitForPitcher | pipeline/mlb_game_feed.py:528-536 | for any box scores, another man who pinch-hits for a pitcher stands at P while the man he replaced is still the club's pitcher |
| FeedDefense.SampleBoxBreaksBoth | pipeline/mlb_game_feed.py:417-452 | a box score of nine players on which both happen |
| FeedDefense.FirstPitchDecides | pipeline/mlb_game_feed.py:583-587 | a first pitch with the whole nine decides the fielding side's defense and pitcher, whatever came before |
| FeedDefense.PitchSets | pipeline/mlb_game_feed.py:593-599 | a pitch that shows all nine fielders sets the fielding side to them and its pitcher to the man at P, and any other pitch changes no one |
| FeedDefense.WholeNine | pipeline/mlb_game_feed.py:472-473 | nine fielders shown are all nine positions, each with its man |
| SimJobsSafety.InvKept | api/sim_jobs.py:226-365 | every step keeps the invariant of runs, keys, cancels, progress writes, queue order and semaphore |
| SimJobsSafety.RunKept | api/sim_jobs.py:226-365 | every step moves every run's row forward and never takes back its withdrawal |
| SimJobsSafety.OrderKept | api/sim_jobs.py:282-314 | every step keeps the queue the submitted order without the withdrawn and entered runs |
| SimJobsSafety.HoldersKept | api/sim_jobs.py:310-319 | no step puts more than the limit inside the semaphore |
| SimJobsRuns.UnguardedWritesAreSafe | api/sim_jobs.py:76-88 | the two UPDATEs without a status guard only ever meet a queued row and a running row whose progress they do not lower |
| SimJobsRuns.RowHistory | api/sim_jobs.py:76-92 | over any run, a row's progress never falls, its key never changes, a running row is never queued again and a finished row never changes |
| SimJobsRuns.TerminalForever | api/sim_jobs.py:76-92 | in every interleaving, a run that reached done, failed or cancelled never changes again |
| SimJobsRuns.ProgressNeverFalls | api/sim_jobs.py:77-88 | the progress bar never moves backwards, late writes and the final count included |
| SimJobsRuns.AtMostLimitPlay | api/sim_jobs.py:310-319 | at most `concurrency` jobs are inside the semaphore, from the drop or start to the last write |
| SimJobsRuns.OneActiveRunPerKey | api/sim_jobs.py:249-271 | two active rows never share a key |
| SimJobsRuns.PositionMeans | api/sim_jobs.py:198-203 | the position is the 1-based place of the run's first entry, or none |
| SimJobsRuns.PositionsAreExact | api/sim_jobs.py:198-210 | the waiting runs hold positions 1 to n, one each, and are queued in the table |
| SimJobsRuns.EntersInSubmitOrder | api/sim_jobs.py:282-314 | jobs enter the semaphore in submit order once the runs cancelled while waiting are taken out |
| SimJobsRuns.HeadIsNext | api/sim_jobs.py:198-203 | the next run admitted from the queue is the first entry that no cancel withdrew meanwhile; it starts exactly when it is not flagged, and none starts from elsewhere |
| SimJobsRuns.ActiveRowsAreCounted | api/sim_jobs.py:194-196 | an active row has a live task, a submit about to start one, or a lost write |
| SimJobsRuns.NothingLost | api/sim_jobs.py:324-329 | no run is lost while row writes succeed |
| SimJobsRuns.ZeroMeansIdle | api/sim_jobs.py:194-196 | while row writes succeed, an active count of zero means no active row exactly when no INSERT is in flight |
| SimJobsRuns.InsertIsNotCounted | api/sim_jobs.py:255-284 | after the first INSERT there is a queued row and a count of zero |
| SimJobsRuns.WithdrawnNeverPlays | api/sim_jobs.py:296-302 | a run withdrawn from the queue never plays |
| SimJobsOutcomes.StepFrom | api/sim_jobs.py:226-365 | which events alone can move a run's task, row, flag, withdrawal and entry, and to what |
| SimJobsOutcomes.EndsForAReason | api/sim_jobs.py:310-365 | over every run: a row is done only after an uncancelled play with that count, cancelled only after a cancel acted on it, failed only after its job raised |
| SimJobsOutcomes.ResultIsWritten | api/sim_jobs.py:355-365 | when a play has ended and its result is written, in whatever interleaving, the row holds the play's count and is cancelled if the play was and done if not |
| SimJobsOutcomes.ProgressIsWritten | api/sim_jobs.py:77-81 | a running row's progress is the greatest written so far, and a queued row has none nor one to come |
| SimJobsOutcomes.CancelledNeverEnters | api/sim_jobs.py:296-306 | once a cancel has reached the task of a waiting run, the run never enters the semaphore |
| SimJobsHistory.PendingExact | api/sim_jobs.py:334-340 | each count reported is scheduled, written or lost, once |
| SimJobsHistory.FlagMeans | api/sim_jobs.py:294-295 | until its task ends, a run is flagged exactly when some cancel has acted on it |
| SimJobsHistory.TasksExact | api/sim_jobs.py:194-196 | the count the restart waits for holds exactly the started tasks that have not ended and that no cancel has reached |
| SimJobsHistory.CancelMeans | api/sim_jobs.py:291-306 | whatever happens between a cancel's read and its act, it flags the run, and withdraws it exactly when the row read was queued and the run still stands in the queue |
| SimJobsHistory.LostSubmitNeverStarts | api/sim_jobs.py:255-284 | the row of a submit whose INSERT's answer was lost stays queued for good |
| SimJobsHistory.KeyIsFree | api/sim_jobs.py:249-271 | a key can be submitted exactly while every run submitted with it before has ended |
| SimJobsHistory.ReportedMeans | api/sim_jobs.py:334-340 | a playing task's count is the largest it has reported |
| SimJobsHistory.PlayEndsIff | api/sim_jobs.py:342-350 | a play may end with any count from the largest reported on, and as cancelled only when a cancel has acted on the run |
| SimJobsHistory.RecordsBeforeFinish | api/sim_jobs.py:351-365 | the game is recorded between the end of the play and the final UPDATE exactly when there is a recorder and the play was not cancelled |
| SimJobsProgress.HeadCanEnter | api/sim_jobs.py:310-314 | with a place free, the longest waiting run enters, or leaves if a cancel has reached it |
| SimJobsProgress.CancelReaches | api/sim_jobs.py:286-295 | any active run can be cancelled at any moment, started or not |
| SimJobsProgress.MayFail | api/sim_jobs.py:320-332 | a run may fail anywhere inside the semaphore; the failure's write ends an active row, and a lost write leaves the row as it was with no task |
| SimJobsProgress.MayLose | api/sim_jobs.py:255-340 | a playing run may report any count; a scheduled write and the answers of an INSERT and of a cancel's UPDATE may be lost, and the table stays as it is |
| SimJobsProgress.EverythingCanEnd | api/sim_jobs.py:226-365 | nothing hangs: from every reachable state, with no new request and no failure, steps lead to a state where every task has ended and no row is active but those whose writes were already lost |
| SimJobRegistry.Jobs.constructor | api/sim_jobs.py:146-151 | an empty registry is the machine's first state |
| SimJobRegistry.Jobs.StartTask | api/sim_jobs.py:282-284 | submit's code after its INSERT is the machine's start step |
| SimJobRegistry.Jobs.FlagAndWithdraw | api/sim_jobs.py:295-297 | cancel's code before its UPDATE is the machine's withdrawal step, and withdraws exactly a queued run still waiting |
| SimJobRegistry.Jobs.CancelTask | api/sim_jobs.py:299-301 | cancel's code after its UPDATE is the machine's cancel step |
| SimJobRegistry.Jobs.EnterSlot | api/sim_jobs.py:312-317 | the code on entering the semaphore is the machine's entry step, and drops exactly the flagged run |
| SimJobRegistry.Jobs.Finally | api/sim_jobs.py:330-332 | the finally block ends the job in each of the ways a job ends |
| SimJobRegistry.Jobs.PositionOf | api/sim_jobs.py:198-203 | the scan returns the queue position |
| Isotonic.UniqueKeys | scripts/calibrate_markets.py:277 | the distinct predictions, strictly rising |
| Isotonic.GroupRecords | scripts/calibrate_markets.py:277-281 | each group holds the outcome sum and the count of its prediction |
| Isotonic.PoolAdjacent | scripts/calibrate_markets.py:283-298 | the in-place pooling loop ends with contiguous blocks, their means non-decreasing, each conserving its sum and count, and no proper start of a block below its mean |
| Isotonic.FitIsotonic | scripts/calibrate_markets.py:268-298 | the fit of any records is such a pooling of their groups |
| IsotonicOptimal.FitRises | scripts/calibrate_markets.py:301-304 | the fitted step map is non-decreasing |
| IsotonicOptimal.ApplyAtKey | scripts/calibrate_markets.py:301-304 | at every fitted prediction it returns the mean of its block |
| IsotonicOptimal.ApplyMeans | scripts/calibrate_markets.py:301-304 | at any prediction the step map returns the value of the last block that starts at or below it, and the first block's below them all |
| IsotonicOptimal.CutIffZero | scripts/calibrate_markets.py:283-298 | the residuals balance exactly at the block ends and are nowhere negative |
| IsotonicOptimal.FitIsLeastSquares | scripts/calibrate_markets.py:268-298 | among all non-decreasing maps the fit has the least squared error, and by how much at least any other loses |
| IsotonicOptimal.PoolingIsUnique | scripts/calibrate_markets.py:268-298 | the groups determine the pooling, its blocks, edges and values |
| IsotonicOptimal.FitIgnoresOrder | scripts/calibrate_markets.py:272-275 | the fit does not depend on the order of the records |
| IsotonicOptimal.PredictionsAddUp | scripts/calibrate_markets.py:268-304 | the fitted rates add up to the observed outcomes |
| Auc.TieEnd | scripts/market_skill.py:207-209 | the inner loop finds the end of a block of equal values |
| Auc.AverageRanks | scripts/market_skill.py:202-211 | the nested loops give every value its averaged rank, whatever order the sort gives ties |
| Auc.TieRank | scripts/market_skill.py:210 | the averaged rank of a block is the number of values below it, half its size and one half |
| Auc.RankSum | scripts/market_skill.py:212 | the positives' rank sum counts the pairs they win plus a fixed amount |
| Auc.SelfPairs | scripts/market_skill.py:212 | the fixed amount is half the square of the number of positives |
| Auc.ArgsortSorts | scripts/market_skill.py:201 | every list has an argsort that sorts it and keeps its ties in order |
| Auc.PickKeepsScore | scripts/market_skill.py:201-204 | reading the values in sorted order changes no count of values below |
| Auc.RankSumShare | scripts/market_skill.py:200-212 | for any argsort the formula is the pairs a positive wins, ties half, over all pairs |
| Auc.AreaUnderCurve | scripts/market_skill.py:196-212 | for every input: the pairs of a positive and a negative row that the prediction orders correctly, level ones half, over all such pairs; undefined when a class is empty |
| Auc.PairsWonCounts | scripts/market_skill.py:212 | the pairs won are a number of pairs: those ordered correctly and half of those level |
| Auc.WithMeans | scripts/market_skill.py:196-199 | each class is exactly the predictions of its label's rows, in order |
| Auc.PairsShared | scripts/market_skill.py:212 | every pair is won by one side or shared |
| Auc.SharesAddUp | scripts/market_skill.py:196-212 | swapping the classes reverses the result |
| AliasGroups.DotTellsAliases | scripts/designed_experiment.py:259-270 | a dot product reaches the number of rows exactly on equal columns and its negative exactly on negated ones |
| AliasGroups.AliasedTransitive | scripts/designed_experiment.py:246-248 | aliasing is an equivalence |
| AliasGroups.IsConfounded | scripts/designed_experiment.py:259-262 | the drop test holds exactly when the product aliases the intercept or a main effect |
| AliasGroups.FindGroup | scripts/designed_experiment.py:263-273 | the scan finds the first group whose column is equal or negated, and which |
| AliasGroups.PlaceProduct | scripts/designed_experiment.py:256-276 | one turn of the double loop on the three lists |
| AliasGroups.AliasGroups | scripts/designed_experiment.py:244-277 | the returned names, columns and dropped names are those of the specification |
| AliasGroups.PlacedExactlyOnce | scripts/designed_experiment.py:256-276 | every two-way product is dropped exactly when confounded and otherwise stands at exactly one place of one group |
| AliasGroups.ShareGroupIffAliased | scripts/designed_experiment.py:246-248 | two kept products share a group exactly when their columns are equal or negated |
| AliasGroups.SignMarksNegated | scripts/designed_experiment.py:264-273 | a member carries the minus sign exactly when its column is the negative of the first member's |
| AliasGroups.GroupColumnMultiplies | scripts/designed_experiment.py:256-276 | row by row, the group's column is the product of each member's two factors, up to the member's sign |
| AliasGroups.ListedInOrder | scripts/designed_experiment.py:256-276 | groups, members and dropped products come in the order of the combinations |
| AliasGroups.NameMeans | scripts/designed_experiment.py:264-276 | a group's name joins its products by an equals sign, with a minus sign before a negated one |
| AliasGroups.GroupColumnsSeparate | scripts/designed_experiment.py:259-277 | no two group columns alias each other, the intercept or a main effect |
| ReplayStore.HighestStays | db/sim_store.py:846-859 | no statement, a delete included, takes the highest run id out of the file |
| ReplayStore.InvKept | db/sim_store.py:846-896 | every statement and every crash keeps the newest card of each game complete |
| ReplayStore.HighestNeverFalls | db/sim_store.py:846-859 | over any stores, prunes and crashes the highest stored run id never falls |
| ReplayStore.LatestIsComplete | db/sim_store.py:862-872 | at every moment, between a prune's deletes too, the run the page reads holds exactly the rows its store was given |
| ReplayStore.StoresNeverShareIds | db/sim_store.py:846-851 | a store that wrote after another has a greater run id |
| ReplayStore.StoreCanFinish | db/sim_store.py:862-867 | whatever a store is given, it can write its plays, its snapshots and its card, one after the other |
| ReplayStore.StoreIsRead | db/sim_store.py:846-872 | what is stored is what is read back: the new run is the game's latest, with exactly the rows it was given, and no other run changed |
| ReplayStore.PlaysComeFirst | db/sim_store.py:862-867 | a store cut off anywhere has written no snapshot before its last play |
| ReplayStore.NewestSize | db/sim_store.py:882-887 | the kept runs are `keep`, or all when there are fewer |
| ReplayStore.NewestAreNewer | db/sim_store.py:882-887 | nothing left out is newer than anything kept |
| ReplayStore.PruneSteps | db/sim_store.py:890-896 | an uninterrupted prune passes through its three deletes to the pruned tables |
| ReplayStore.PruneKeepsNewest | db/sim_store.py:875-896 | a finished prune leaves exactly the game's `keep` newest cards and no row older than all of them |
| ReplayStore.PruneMeetsItsPromise | db/sim_store.py:875-889 | it leaves the `keep` newest exactly when `keep` is at least 1 or there is nothing to delete |
| ReplayStore.PruneTouchesOneGame | db/sim_store.py:891-895 | a prune touches no other game and no row of a run whose card it leaves |
| ReplayStore.PruneExactly | db/sim_store.py:875-896 | which rows and cards a prune leaves: of the game, those at or above some kept card; of every other game, all |
| ReplayStore.Connection.NextReplayRunId | db/sim_store.py:846-859 | the next id is one above the greatest stored run of any game, 1 in an empty file |
| ReplayStore.Connection.LatestReplayRunId | db/sim_store.py:862-872 | the newest run of the game with a card, or none |
| ReplayStore.Connection.PruneReplayRuns | db/sim_store.py:875-896 | the deletes leave the pruned tables, and the result counts the cards that went |
| DoneFile.WideIffLong | scripts/load_historical_odds.py:584-586 | digits without a leading zero spell an id of the width exactly when they are that long |
| DoneFile.IdOnMeans | scripts/load_historical_odds.py:584-586 | a line counts exactly when it is one run of digits with nothing but blanks around it |
| DoneFile.ReadsLines | scripts/load_historical_odds.py:582-587 | the file gives back exactly the ids on its lines, the open last one included |
| DoneFile.ReadsExactly | scripts/load_historical_odds.py:572-587 | the ids of the width read back are exactly those appended whole on a line of their own, and the open rest when it is as long as an id |
| DoneFile.TruthfulIff | scripts/load_historical_odds.py:572-587 | everything read back was appended exactly when an open rest as long as an id is an appended id |
| DoneFile.LoneTearIsTruthful | scripts/load_historical_odds.py:575-577 | a torn line is harmless when the append before it was whole |
| DoneFile.TwoTearsCanLie | scripts/load_historical_odds.py:575-577 | two torn appends behind each other can spell a game no run finished |
| DoneFile.LoadedAgainIff | scripts/load_historical_odds.py:572-599 | over every history of runs and crashes, a game that never ended cleanly is loaded again exactly when the open rest of the file does not spell it |
| DoneFile.HistoryTurns | scripts/load_historical_odds.py:1044-1107 | over every history of runs, the appends are exactly those of the turns that ended with nothing counted, no crash of their run before them, in order, whole or torn as they reached the disk |
| DoneFile.SkippedIff | scripts/load_historical_odds.py:572-603 | the next run skips a game exactly when some turn's append recorded it on a line of its own, or the open rest of the file spells it |
| DoneFile.TodoInOrder | scripts/load_historical_odds.py:1012-1023 | a run loads the games that are not done, in the list's order |
| DoneFile.AlwaysLoadedAgain | scripts/load_historical_odds.py:590-599 | so it always is when the last two appends were not both torn |
| DoneFile.TwoCrashesSkipAGame | scripts/load_historical_odds.py:1012-1023 | two runs, each cut off in an append, after which the next run skips a game that no run ended cleanly |
| DoneFile.FinishedStaysFinished | scripts/load_historical_odds.py:1012-1023 | a game appended whole on a line of its own is never loaded again |
| DoneFile.Disk.constructor | scripts/load_historical_odds.py:579-580 | a missing file reads as an empty one |
| DoneFile.Disk.ReadDoneFile | scripts/load_historical_odds.py:572-587 | the line loop returns the ids the file gives back |
| DoneFile.Disk.AppendDone | scripts/load_historical_odds.py:590-603 | an append adds a whole line, or the part of it that reaches the disk |
| DoneFile.Disk.Load | scripts/load_historical_odds.py:1044-1107 | the loop appends exactly the games whose reads, fetches and writes counted no failure, up to the crash, and lists exactly the games that failed before it |
| RateLimit.Limiter.WindowBound | api/auth.py:526-554 | in every state of the limiter, every closed window of the window's length contains at most `limit` accepted requests of a bucket |
| RateLimit.SpacedBound | api/auth.py:537-553 | a log whose entries `limit` apart are more than a window apart has at most `limit` in any window |
| RateLimit.AcceptKeepsSpaced | api/auth.py:537-553 | accepting a request keeps requests `limit` apart more than a window apart |
| RateLimit.AcceptsMeans | api/auth.py:541-551 | a request is refused exactly when the window behind it already holds `limit` accepted ones |
| RateLimit.RetryAdviceSuffices | api/auth.py:542 | waiting the advised whole seconds frees a place exactly when less than one second was left: the advice rounds down |
| RateLimit.Evict | api/auth.py:537-539 | the eviction loop drops exactly the stamps before the window |
| RateLimit.Limiter.constructor | api/auth.py:526-528 | a new limiter has accepted nothing |
| RateLimit.Limiter.Decide | api/auth.py:537-553 | the deque, which forgets, answers as the full log of accepted requests would: by the count in the window that ends now, and with the whole seconds until the oldest of them leaves it, at least 1 |
| RateLimit.Limiter.Admit | api/auth.py:533-554 | a counted request passes exactly when fewer than `limit` accepted ones of its bucket lie in the window that ends now, a refusal carries that advice, and only its own bucket changes |
| RateLimit.Limiter.Dispatch | api/auth.py:526-554 | exempt requests and a limiter that is off pass and count nothing; every other is admitted as above |
| SessionToken.RoundTrip | api/auth.py:170-180 | decoding the encoding of any bytes gives them back (RFC 4648, sections 5 and 3.2) |
| SessionToken.EncodeInjective | api/auth.py:170-172 | different bytes never share an encoding |
| SessionToken.EncodeShape | api/auth.py:170-172 | the encoding holds alphabet characters only, and its length fixes its padding |
| SessionToken.EncodeSpells | api/auth.py:170-172 | character by character: the bytes' bits, six at a time, in the URL-safe alphabet of section 5 of RFC 4648 |
| SessionToken.StripPadding | api/auth.py:172 | the right strip removes exactly the padding |
| SessionDecode.DecodesBits | api/auth.py:175-180 | a text of alphabet characters decodes to its bits, eight to a byte, and only one character too many is refused |
| SessionDecode.JunkIsSkipped | api/auth.py:175-180 | the decoder sees only a text's length and its alphabet and padding characters, the standard alphabet's two included |
| SessionToken.EncodeHasNoDot | api/auth.py:170-172 | no encoding contains a dot |
| SessionToken.LastDot | api/auth.py:206 | the right split is at the last dot, or there is none |
| SessionToken.MintedTokenVerifies | api/auth.py:183-217 | a minted token verifies to its own payload at every time up to its expiry, under the same key |
| SessionToken.AcceptedTokenIsSigned | api/auth.py:199-217 | an accepted token is a body with its own MAC under the key, unexpired |
| SessionToken.AcceptsExactly | api/auth.py:199-217 | a token is accepted with a payload exactly when it is a body and its own MAC, decodes to that payload and has not expired |
| SessionToken.OtherKeyRefuses | api/auth.py:207-211 | a token minted under a key whose MAC differs is refused |
| OutLabels.FieldingOutsOf | pipeline/statcast_events.py:99 | the fielding-out events are exactly those of the table with a positive count |
| OutLabels.OutsGroups | pipeline/statcast_events.py:252-258 | the dict loop and its sort list the positive out counts ascending, each with exactly its events |
| OutLabels.SortedItems | pipeline/statcast_events.py:258 | the listing of the dict is ascending and complete |
| OutLabels.EventOutsMeans | pipeline/statcast_events.py:261-271 | the CASE over the groups reads the table's positive counts, 0 on NULL |
| OutLabels.HiddenRunnerOutMeans | pipeline/statcast_events.py:274-289 | 1 exactly on an X-typed row whose event counts no out, an unknown or NULL event included |
| OutLabels.PlayOutsAgree | pipeline/statcast_events.py:292-299 | for any table, the SQL and the Python count the same outs on an event and type, NULLs included, exactly when the event's count is not negative |
| OutLabels.PlayOutsInRange | pipeline/statcast_events.py:478-488 | with the measured vocabulary they always agree, within 0 to 3 |
| OutLabels.StealOutsCount | pipeline/statcast_events.py:205-213 | every event that stands for a steal out counts one or two outs |
| OutLabels.CsOutMeans | pipeline/statcast_events.py:302-321 | 1 exactly on an attempt with no success whose event counts no steal out, else 0 and never NULL |
| OutLabels.StealOutsCountedOnce | pipeline/statcast_events.py:302-334 | on a row whose event counts a steal out the total is the event's own count, whatever the steal columns say |
| OutLabels.StealAttemptMeans | pipeline/statcast_events.py:446-457 | never NULL, and true exactly when the column or the event says so |
| OutLabels.RunnerDestMeans | pipeline/statcast_events.py:368-385 | a runner's destination, branch by branch |
| OutLabels.BatterDestMeans | pipeline/statcast_events.py:388-407 | a batter's destination, branch by branch |
| OutLabels.DestinationsRebuildBases | pipeline/statcast_events.py:348-407 | with four distinct bodies, the destinations rebuild the post-play bases exactly when every occupant is one of them, on one base, and no scored runner is on one |
| Boxscore.CreditHit | scripts/boxscore_audit.py:184-195 | the hit branch adds one hit, its bases and its own kind to the batter |
| Boxscore.CreditRuns | scripts/boxscore_audit.py:205-214 | the flagged runners' runs and the batter's own |
| Boxscore.CreditSteals | scripts/boxscore_audit.py:215-221 | the steals and the RBI |
| Boxscore.CreditPitcher | scripts/boxscore_audit.py:185-224 | hits allowed, strikeouts, walks, earned runs and outs of one row |
| Boxscore.CreditPlay | scripts/boxscore_audit.py:226-234 | pickoff outs and intentional walks; a play with no pitcher is skipped |
| Boxscore.DeriveTotals | scripts/boxscore_audit.py:159-236 | the loops leave the totals of the specification |
| Boxscore.ApplyHolds | scripts/boxscore_audit.py:174-178 | totals hold exactly the players named, every stat of their kind, and the sums of their credits |
| BoxscoreStats.PitcherLine | scripts/boxscore_audit.py:184-234 | a pitcher's K, BB, hits allowed, outs and earned runs, each as a count over the game's rows by their literal labels and over its plays |
| BoxscoreStats.BatterLine | scripts/boxscore_audit.py:184-221 | a batter's nine stats, each as a count over the game's rows by their literal labels, flags and bases |
| BoxscoreStats.PitchersListed | scripts/boxscore_audit.py:174-234 | a pitcher has a line exactly when a row or a play of the game names him |
| BoxscoreStats.BattersListed | scripts/boxscore_audit.py:174-221 | a man has a batter's line exactly when a row of the game has him bat, score or steal |
| BoxscoreLaws.BatterIdentities | scripts/boxscore_audit.py:190-195 | every batter's line keeps H = 1B + 2B + 3B + HR and TB = 1B + 2*2B + 3*3B + 4*HR |
| BoxscoreLaws.PlayersAddUp | scripts/boxscore_audit.py:159-236 | a game's players add up to the game's credits, however they are listed |
| BoxscoreLaws.HitsBalance | scripts/boxscore_audit.py:190-197 | per game, batters' hits are the hit rows naming a batter and pitchers' hits allowed those naming a pitcher; equal when every hit row names both |
| BoxscoreLaws.RunsBalance | scripts/boxscore_audit.py:205-214 | per game, batters' runs are the rows' runs when every row accounts for its own |
| BoxscoreChunks.DeriveSomeGames | scripts/boxscore_audit.py:421-428 | deriving over some games' rows gives exactly those games' totals |
| BoxscoreChunks.OrderIsIrrelevant | scripts/boxscore_audit.py:159-236 | no batter's and no pitcher's total depends on the order of the rows of either query |
| BoxscoreChunks.ChunkedTotals | scripts/boxscore_audit.py:421-431 | the chunked run leaves what deriving over all the games at once leaves |
| Odds.DecimalIsReciprocal | betting/clv_engine.py:88-133 | a price implies a probability strictly between 0 and 1, the reciprocal of its decimal price |
| Odds.FairPriceImplies | betting/clv_engine.py:140-154 | the fair price of a probability implies it back |
| Odds.FairPriceRoundTrip | betting/clv_engine.py:140-154 | the fair price gives an American price back exactly when it is at least +100 or below -100 |
| Odds.DevigNormalizes | betting/clv_engine.py:164-184 | no-vig probabilities add up to 1, lie strictly between 0 and 1 and keep the proportions |
| Odds.DevigTwoWayMeans | betting/clv_engine.py:188-207 | two prices de-vig to the two sides, symmetrically; only a price of 0 fails |
| Odds.PositiveEvIff | betting/clv_engine.py:225-236 | the expected value is positive exactly when the simulator rates the side above the price's implied probability |
| Odds.EvImpliesEdgeIffMargin | betting/clv_engine.py:215-236 | a positive expected value always means a positive edge exactly when the implied probabilities add up to at least 1 |
| Odds.ClvSidesCancel | betting/clv_engine.py:275-316 | the two sides' closing line values add up to zero |
| Odds.ClvMeans | betting/clv_engine.py:275-316 | the closing line value is the side's share of the two implied probabilities at the close less that at the entry: positive exactly when the close rates the side higher |
| Odds.DevigOneSidedMeans | betting/clv_engine.py:788-794 | over a margin of at least 1 the cap at 1 never binds |
| BetSignals.KellyIsEvOverProfit | betting/bet_signal.py:71-82 | the full-Kelly fraction is the expected value over the profit per unit |
| BetSignals.StakeMeans | betting/bet_signal.py:85-107 | a stake is the Kelly share held between 0 and the cap, positive exactly when the EV, the multiplier and the cap are |
| BetSignals.StakesOfSignals | betting/bet_signal.py:206-253 | every signal clears both floors and carries that stake, in (0, cap] and within the Kelly share under a positive config |
| BetSignals.SurvivorsRaise | betting/bet_signal.py:206-223 | it raises exactly when a report with a positive edge that clears both floors is priced at 0 or the config is one the constructor refuses |
| BetSignals.NoStakeOnLosingBet | betting/bet_signal.py:98-107 | an expected value of zero or less stakes nothing |
| BetSignals.SortSized | betting/bet_signal.py:236 | the sort is a stable descending arrangement by (EV, edge, stake) |
| BetSignals.ArrangementIsUnique | betting/bet_signal.py:236 | there is only one such arrangement |
| BetSignals.BetSignalsFromEdges | betting/bet_signal.py:206-253 | the signals are the survivors along it, ranked from 0; it raises exactly when a survivor's stake does |
| BetSignals.SignalsDescend | betting/bet_signal.py:206-253 | the signals descend by EV, then edge, then stake, and equal ones keep the order of the reports |
| BetSignals.SignalsAreTheSurvivors | betting/bet_signal.py:193-223 | the signals' reports are exactly those with a positive edge at or above the least edge and an EV above the least EV |
| LineMovement.SortedIsStable | betting/line_movement.py:430-438 | the series is in time order, missing stamps first, and each stamp's quotes stay in their order |
| LineMovement.JoinedMeans | betting/line_movement.py:343-377 | the series holds one quote for each row with a price other than 0, in order: that price, what it implies, the other price and the market's lines |
| LineMovement.StepsMean | betting/line_movement.py:452-456 | the series are the quotes' own values, and each step is one value less the one before it |
| LineMovement.StepsAddUp | betting/line_movement.py:452-459 | the step deltas add up to the opening-to-closing delta |
| LineMovement.LineMovementFromQuotes | betting/line_movement.py:390-516 | the series with its single steps, its deltas, direction and closing line value; a moneyline or total raises exactly when both ends carry the other price and one of those is 0 |
| LineMovement.SeriesRaises | betting/line_movement.py:480-491 | the same raise, for any rows in any order |
| LineMovement.SidesCancel | betting/line_movement.py:480-491 | with both prices on every row, the two sides of a moneyline or total have values that cancel, in any row order |
| LineMovement.RunLineSidesCancel | betting/line_movement.py:526-553 | on a run line whose ends are pairs the sides cancel when the spread is unmoved, and neither has a value when it moved |
| LineMovement.PairMeans | betting/line_movement.py:480-491 | a series whose ends carry both prices is worth the close's fair share less the opening's, and nothing is said when an end lacks the other price |
| LineMovement.RunLineMeans | betting/line_movement.py:526-561 | what a run line is worth, case by case: a missing or moved spread, a pair at both ends, two bets over their margins |
| LineMovement.RunLineRaises | betting/line_movement.py:526-561 | with a reference margin of at least 1 a run line raises exactly when its ends are one unmoved pair and one other price is 0; two separate bets never raise |
| LineMovement.ReferenceMarginFromPrices | betting/clv_engine.py:767-785 | the first candidate whose margin lies in the band, else the flat margin |
| LineMovement.GroupByBook | betting/line_movement.py:745-748 | the groups partition the rows: one per book, each with exactly its rows in order |
| LineMovement.OfBookInOrder | betting/line_movement.py:745-748 | a book's group is exactly its rows, in the order of the whole |
| LineMovement.SeriesOfOneBook | betting/line_movement.py:761-774 | a book's series reads exactly that book's quotes among all the quotes, in order |
| LineMovement.QuotesInOrder | betting/line_movement.py:761-774 | a book's quotes among all are exactly those of its name, in their order |

## Where the code and its documentation differ

The model follows the code.

- `parse_plays` and `state_at_pa` replay the same feed but differ on it when a placeholder
  play, a third out before a same-half play or a score that falls back to zero comes before
  the target. The exact conditions are proved, with an input for each.
- `prune_replay_runs` promises to delete all but the `keep` newest runs. With `keep` of zero
  or less it deletes nothing.
- The done-file calls a torn line harmless. Two torn appends behind each other are not:
  after two cut-off runs the next one can skip a game that neither has loaded.
- The limiter's `Retry-After` rounds the remaining time down, so waiting it out can end
  within a second of the place that frees.
- `active_count` counts the tasks, and the restart waits for 0. Between a submit's INSERT and
  the start of its task the row is queued and the count can be 0.
- `_outs_groups` says descending and returns ascending; nothing depends on it.
- `state_at_pa`'s defense can hold one man at two positions after a fielder is called to
  pitch, and its pitcher need not stand at P after a pinch hitter for him. The exact events
  are proved, with a box score and a feed for each.

## Left out

- The pitch simulator, the API routes and wiring, the schema files and the report printing: no part of this model.
- `parse_plays`: the names map and the event, description, RBI and pitch text of a record, which are copied through.
- `state_at_pa`: the hands, the names and the sorting of the used list, which is a set here.
- Malformed feeds: a value of the wrong type raises in the source; here a feed is well typed, and a missing field is an absent value.
- `close()` and `recover_orphans()` of the registry: the theorems are about one process before shutdown.
- A statement that takes effect after its caller saw an error: the registry's steps order a failed write's effect before the error.
- The registry's run payloads (summary, prop set, inning grids) and the error text.
- `fit_logistic`, `_logit`, `_sigmoid`: exponentials and logarithms.
- `per_game_sums`, `composite` and `load_reports` of the skill report.
- `build_arms` and `fractional_factorial`: fixed tables.
- The transaction of the replay store's caller: the model lets a cut-off store leave any of its rows, which covers a rollback as a store that wrote none.
- ReplayStore.Connection.PruneReplayRuns: the three deletes are one method here; every cut between them is in the state machine.
- `load_play_stream`, `load_state_at` and the row normalization: column casts.
- DoneFile.Disk.Load: the fetches and writes inside a game are its counted failures, and `--skip-loaded-since` is not modelled.
- DoneFile.IdOnMeans: a digit is one of ASCII's ten; the source's test also passes others, and a superscript among them raises.
- DoneFile.AlwaysLoadedAgain: ids of one digit width, as the feed issues them.
- SessionToken.MintedTokenVerifies: the MAC and the JSON codec are parameters, with the codec's own round trip as a requirement.
- The API-key comparison and the client key of a request: the limiter takes the bucket's name.
- OutLabels.PlayOutsAgree: the SQL text and its parsing; an expression is its syntax tree, and the column prefix and batter override are names only.
- OutLabels.StealAttemptMeans: the two event names are parameters; the base check that raises is a type here.
- `compare_totals`, `official_totals` and the report of the box-score audit.
- `spread_cover_prob`, the edge-report builders and the display fields of the CLV.
- `_reference_margin_reader`'s choice of snapshot, `fetch_line_movement`'s sharp-consensus flag, the run line's shape label and the wording of the CLV notes.
- Floating-point rounding everywhere: reals.
