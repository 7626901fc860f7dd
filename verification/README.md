# Game engines of the backend, modelled and proved in Dafny

The backend runs real-money games. This project models the parts of it that are algorithms and state machines, and
proves what they promise. `dafny verify dfyconfig.toml` checks everything.

Money is in integer paise where the code formats two digits, and in exact real numbers where it uses big decimals.
Every handler is one atomic step under the lock of its table. Dice, random numbers, shuffles, live scores, clock
values, the comparison of two hands and the requests of players are inputs, so every theorem holds for all of them.

**Ludo tournament.** `TournamentMath` holds the number of rounds, the round clock and the prize bands; `Pairing` the
batches of 8192, the tables and the bye; `Leaderboard` the ranking of one batch with shared ties; `Standings` the
leaderboard over a whole run; `RoundRecords`, `Seating` and `RoundEnd` what the end of a round does to players and
tables; `Tournament` the tournament itself, a class whose methods end single tables early, end a round at its
deadline, rank, credit and seat. Its invariant `Valid` says where every player stands (out and ranked, seated and
waiting, recorded for the current round, or the bye), that the leaderboard is the ranking of the batches so far, that
all its prizes are credited, that the announced number of rounds is exact, and how many tables there are. Every method
keeps it, the end of a round for results that name everybody still in, which are what both its callers pass; so the
theorem about ended tournaments holds for every run.

**Rummy.** `RummyMelds` says what a pure sequence, an impure sequence and a set are, independently of the code: cards
that can be laid out in a window of positions 1..14, or in different suits. `RummyDeciders` has the code's loops over
sorted cards, `RummyDeclaration` labels, declaration and score, `RummyHands` two concrete hands, `RummyDeck` dealing,
drawing, discarding and arranging.

**Skill Patti.** `SubWallets` has the three sub-wallets, `SkillPattiMoney` the sums over the seats, `SkillPattiPayout`
the end of a round with its side pots, `SkillPattiLostPot` one concrete round, `SkillPatti` the table with all its betting steps; what follows a step is a
function on the `State` of the table. The invariant `SpTable.Valid` says that the pot is the sum of all bets, that it
never exceeds the pot limit and stays below it until the round ends, that no sub-wallet is overdrawn and that every
active player has a positive balance. Conservation of the money spans rounds, payouts included.

**Ludo board and Call Break.** `LudoBoard` has the four paths, legal moves and the score, `LudoTable` moving and
killing pawns, turns and winners. `CallBreakCards` has the cards and what takes a trick, `CallBreakDeal` shuffling and
dealing, `CallBreak` the table. Its invariant ties the turn counter to the hand number, the cards on the table, the
tricks won and the cards thrown.

**Small algorithms.** `FirstFit` groups waiting users, `TtlLock` is the Redis lock with time and any number of clients.
`Options`, `Sequences` and `Sorting` are helpers.

## Where the code differs from what one would expect

- Tables of three do not divide the batches of 8192 users. With 19683 users three batches leave one user too many, and
  the announced number of rounds grows (`Pairing.TotalGrowsForThree`); `Pairing.TotalUnchangedExactly` says when it
  stays.
- The filter against double leaderboard entries compares object ids by identity
  (apps/ludo-tournament/src/ludo-tournament.service.ts:433). The model compares them by value; `RoundEnd.NewBatch` shows
  that in either reading there is nothing to remove.
- The impure sequence check gives up as soon as two ranks are equal, so a row of 14 cards with an ace at both ends is
  pure but not impure (`RummyDeciders.FourteenCards`).
- The set check accepts more than four cards, which no suits can fill (`RummyHands.LongSet`), so a valid declaration may
  hold a group that is no set (`RummyHands.LongSetPasses`). Exactly such groups set the declarations accepted apart from
  those whose groups are all melds (`RummyMelds.SetExactUpToFour`, `RummyDeclaration.DeclarationExact`).
- A group that is no meld keeps the label it came with, and the stored verdict on the sequences counts it: a hand without
  any sequence can score as if it had them (`RummyHands.StaleLabelsPass`). `RummyDeclaration.StoredVerdict` says exactly
  when the verdict is right; whether the declaration itself is accepted does not depend on such labels
  (`RummyDeclaration.DeclarationExact`).
- Drawing asks neither for the status nor for an earlier draw. Hands stay in step exactly in runs in which nobody draws
  twice (`RummyDeck.HandsStayInStep`); two draws in one turn make 15 cards (`RummyDeck.DrawTwice`), and such a hand is
  never discarded from again (`RummyDeck.Serve`).
- A showdown does not ask for the status of the table; its other guards keep pot and limits in order all the same
  (`SkillPatti.SpTable.Showdown`).
- The joker test when a rummy hand is sorted into groups compares strings of different shape and never applies, so
  jokers stay with spades and diamonds (`RummyDeck.SortedCardsAreTheHand`).
- Starting a Skill Patti round empties the pot whatever is in it, so the money at the table stays the same exactly when
  the pot was empty before, as it is after a payout (`SkillPatti.SpTable.StartRound`, `SkillPatti.MoneyStep`).
- What the winners of a Skill Patti round do not get is gone with the pot. With up to six seats this is more than 0.02
  exactly when everybody still in play is all-in and the net side pots leave more than that
  (`SkillPattiPayout.LossExactly`); `SkillPattiLostPot.PlayTheRound` plays such a round.
- A Call Break round started or ended in the middle of a trick keeps the cards kept for that trick
  (`CallBreak.CbrTable.StartRound`, `CallBreak.CbrTable.EndRound`), and the throw timer after the last trick passes the turn without a card
  (`CallBreak.CbrTable.AutoThrowCard`).
- Only one user left alone is remembered. With more than 8192 users at tables of 8191 there can be two
  (`Pairing.SingleBye`, `Pairing.TwoByes`).
- The lock does not know its holder. Two clients hold one key exactly when an attempt is granted under a holding that has
  expired or that somebody else has released (`TtlLock.ExclusionExactly`, `TtlLock.TakenBecause`).
- A Skill Patti pack does not ask whether the round is over and may open it again (`SkillPatti.SpTable.Pack`).

## Model

| member | source | states |
|---|---|---|
| Tournament.EndedTournamentPaysTheTotal | apps/ludo-tournament/src/ludo-tournament.service.ts:192-531 | In an ended tournament everybody who joined is on the leaderboard exactly once, every rank is 1 + the number of better placed entries, and the credited money is the advertised total: exactly without ties, otherwise up to half a paisa per tied player |
| Tournament.LudoTournament.EndRound | apps/ludo-tournament/src/ludo-tournament.service.ts:192-395 | End of a round: refused when the tournament is not running or the round is declared already; otherwise, for any results, exactly the state `AfterRound`; results that name everybody still in keep the invariant of the whole tournament, rank the losers and in the last round the winners, and promote exactly the players with `lostRoundNo` 0; if every table names one winner the announced total stays exactly when tables and bye number at most k^(rounds - 1), so always for k dividing 8192 or at most 8192 users |
| Tournament.LudoTournament.EndTable | apps/ludo-gameplay/src/services/gameplay/common.service.ts:190-251 | A table ending early stores its result once, writes exactly its players, and ends the round by itself exactly in the last round or with at most one player left |
| Tournament.LudoTournament.ScheduledEndRound | apps/ludo-gameplay/src/ludo-gameplay.service.ts:1363-1440 | The scheduled end collects every table, in any order, stored results for completed games and live ones otherwise; these results always cover the round, and with one winner each the total follows the same rule |
| Tournament.LudoTournament.constructor | apps/ludo-tournament/src/ludo-tournament.service.ts:773-857 | For any users and table size: everybody is paired in round 1, the leaderboard is empty and the total is the least sufficient number of rounds; the invariant holds exactly for two and more users of whom no round leaves more than one alone |
| Tournament.LudoTournament.GenerateLeaderBoardAndCreditWinAmount | apps/ludo-tournament/src/ludo-tournament.service.ts:397-535 | Ranks one batch on top of the leaderboard and credits its non-zero prizes; when nobody to rank is ranked yet, nobody is spliced out and the ranked users grow by exactly the chosen ones |
| Tournament.LudoTournament.RankRound | apps/ludo-tournament/src/ludo-tournament.service.ts:307-335 | Who is added to the leaderboard for any results; with results that cover the round these are exactly the users who have lost by now, after the last round everybody |
| Tournament.LudoTournament.GoOn | apps/ludo-tournament/src/ludo-tournament.service.ts:354-389 | The next round: exact new total, results stored, winners and bye seated, each once if there is at most one bye |
| Tournament.SeatRound | apps/ludo-tournament/src/ludo-tournament.service.ts:543-600 | For any table size and users: the new tables and the stored bye; they account for all promoted users, at least two a table, exactly when at most one is left alone, and are then as many as the pairing makes |
| Tournament.NextRoundHolds | apps/ludo-tournament/src/ludo-tournament.service.ts:354-389 | After results that name everybody still in, everybody promoted stands at a seat or as the bye, and tables and bye are as many as the number of users says |
| Tournament.TotalAfterResults | apps/ludo-tournament/src/ludo-tournament.service.ts:354-372 | One winner in every result makes as many promoted users as tables and bye, so the new total is the announced one exactly when these are few enough |
| Tournament.CollectResults | apps/ludo-tournament/src/ludo-tournament.service.ts:226-281 | One pass over the results yields the bulk writes, the outcome per user and the promoted users |
| Tournament.LudoTournament.SelectPlayers | apps/ludo-tournament/src/ludo-tournament.service.ts:407-416 | The players to rank, in the order of their documents |
| RoundEnd.MemoryAgreesWithDatabase | apps/ludo-tournament/src/ludo-tournament.service.ts:226-301 | The documents changed in memory carry the same standing as the bulk write leaves in the database, also for tables that ended early, and the recorded rounds of a player keep increasing |
| RoundEnd.PromotedAreRemaining | apps/ludo-tournament/src/ludo-tournament.service.ts:276-280 | Winners and bye together are exactly the players with `lostRoundNo` 0, each once |
| RoundEnd.RoundCloses | apps/ludo-tournament/src/ludo-tournament.service.ts:226-387 | After the writes everybody either has lost or waits for the next round; losers and winners chosen for ranking are disjoint from those ranked before and complete them |
| RoundEnd.EarlyWriteKeepsOrder | apps/ludo-tournament/src/ludo-tournament.service.ts:134-178 | An early write adds the round to exactly the players of its table, in increasing order |
| RoundEnd.EarlyEnd | apps/ludo-tournament/src/ludo-tournament.service.ts:134-178 | After an early write every player stands where seats, results and bye say |
| RoundEnd.DecisiveTable | apps/ludo-tournament/src/ludo-tournament.service.ts:180-184 | The single result passed on by an early end leaves nobody playing when the tournament is decided, and changes nothing stored |
| RoundEnd.AllTablesCover | apps/ludo-gameplay/src/ludo-gameplay.service.ts:1363-1420 | The results of all tables, in whatever order they arrive, name every seated user once and fit what is stored |
| RoundEnd.NewBatch | apps/ludo-tournament/src/ludo-tournament.service.ts:407-449 | Whoever is chosen for ranking is not ranked yet, so the duplicate filter removes nobody |
| RoundEnd.EveryoneRankedOnce | apps/ludo-tournament/src/ludo-tournament.service.ts:404-449 | A leaderboard that ranks everybody is as long as the list of players |
| RoundEnd.CreditsPayTheBoard | apps/ludo-tournament/src/ludo-tournament.service.ts:524-531 | The credited prizes add up to the win amounts of the leaderboard |
| RoundEnd.RunningTableRemains | apps/ludo-tournament/src/ludo-tournament.service.ts:180-184 | A running table keeps at least two users in the tournament, so an early end never overlooks it |
| RoundRecords.BulkWriteIsPointwise | apps/ludo-tournament/src/ludo-tournament.service.ts:134-178 | With one outcome per user the unordered bulk write changes exactly the users named, once, and skips those whose round is recorded when asked to |
| RoundRecords.UpdatedPlayersLookup | apps/ludo-tournament/src/ludo-tournament.service.ts:240-301 | The in-memory changes are looked up by user |
| RoundRecords.WinnersAre | apps/ludo-tournament/src/ludo-tournament.service.ts:276-280 | Promoted are exactly the users with a winning outcome |
| RoundRecords.RecordKeepsOrder | apps/ludo-tournament/src/ludo-tournament.service.ts:150-170 | Recording a later round keeps the round numbers strictly increasing |
| RoundRecords.ToRankIs | apps/ludo-tournament/src/ludo-tournament.service.ts:407-416 | Exactly the chosen players are ranked, with their last round score, each once |
| RoundRecords.RemoveRanked | apps/ludo-tournament/src/ludo-tournament.service.ts:426-449 | Collecting indexes and splicing them out from the end removes exactly the candidates already on the leaderboard |
| RoundRecords.NobodyRankedYet | apps/ludo-tournament/src/ludo-tournament.service.ts:426-449 | Without a candidate on the leaderboard nothing is removed |
| Seating.NewRoundSeats | apps/ludo-gameplay/src/ludo-gameplay.service.ts:1144-1243 | For any table size of at least two: every seat of a new round belongs to one promoted user and tables hold 2 to k; all promoted users are seated or remembered as the bye exactly when at most one is left alone |
| Standings.RunIsCompetitionRanked | apps/ludo-tournament/src/ludo-tournament.service.ts:404-509 | Over the whole run a rank is 1 + the players not ranked yet + the entries better placed |
| Standings.LaterBatchIsBetter | apps/ludo-tournament/src/ludo-tournament.service.ts:458-464 | Everybody ranked in a later batch is strictly better placed than everybody ranked before |
| Standings.BoardRankRange | apps/ludo-tournament/src/ludo-tournament.service.ts:458-464 | The ranks handed out are the lowest of the ranks still free |
| Standings.BoardKeepsPlayers | apps/ludo-tournament/src/ludo-tournament.service.ts:451-523 | The leaderboard holds exactly the players ranked, with the scores they were ranked by |
| Standings.RunConserves | apps/ludo-tournament/src/ludo-tournament.service.ts:457-530 | Up to any point the prizes paid are worth the ranks taken, up to half a paisa per tied player |
| Standings.WholeTournamentConserves | apps/ludo-tournament/src/ludo-tournament.service.ts:457-530 | With everybody ranked and disjoint bands inside 1..N the prizes add up to the advertised total, exactly without ties |
| Leaderboard.RankBatch | apps/ludo-tournament/src/ludo-tournament.service.ts:451-511 | Sorting, counting ranks down and sharing ties in place yields the ranked batch |
| Leaderboard.HandleSameScores | apps/ludo-tournament/src/ludo-tournament.service.ts:479-511 | The in-place loops give every tie its best rank and its average prize, and leave everybody else alone |
| Leaderboard.TieFrom | apps/ludo-tournament/src/ludo-tournament.service.ts:480-493 | The inner loop counts a maximal stretch of equal scores |
| Leaderboard.ShareInPlace | apps/ludo-tournament/src/ludo-tournament.service.ts:494-509 | The average goes to every tied player, the best rank to all of them |
| Leaderboard.BatchIsCompetitionRanked | apps/ludo-tournament/src/ludo-tournament.service.ts:404-511 | A batch keeps its users and scores; each rank is 1 + the players outside still unranked + the strictly higher scores inside, and equal scores share rank and prize |
| Leaderboard.BatchConserves | apps/ludo-tournament/src/ludo-tournament.service.ts:457-511 | A batch pays the prizes of the ranks it takes, up to half a paisa per tied player |
| Leaderboard.SharingConserves | apps/ludo-tournament/src/ludo-tournament.service.ts:494-503 | Averaging ties conserves money up to half a paisa per tied player |
| Leaderboard.SharedRank | apps/ludo-tournament/src/ludo-tournament.service.ts:505-509 | A shared rank is 1 + the better players outside + the strictly higher scores inside |
| Leaderboard.SharedPrize | apps/ludo-tournament/src/ludo-tournament.service.ts:494-509 | Equal scores win the same rank and prize |
| Leaderboard.RoundHalfUpIsQuotient | apps/ludo-tournament/src/ludo-tournament.service.ts:500 | Division and two-digit formatting are round-half-up in paise |
| Leaderboard.SortSorts | apps/ludo-tournament/src/ludo-tournament.service.ts:451-456 | The sort permutes and sorts |
| TournamentMath.CalculateTotalRounds | apps/ludo-tournament/src/ludo-tournament.utils.ts:42-52 | For tables of at least two the loop ends with the least r with k^r >= n |
| TournamentMath.RoundsIsLeast | apps/ludo-tournament/src/ludo-tournament.utils.ts:42-52 | The recursive count is that least number |
| TournamentMath.LeastRoundsUnique | apps/ludo-tournament/src/ludo-tournament.utils.ts:42-52 | No other number has the property |
| TournamentMath.RoundsMonotone | apps/ludo-tournament/src/ludo-tournament.utils.ts:42-52 | More players never need fewer rounds |
| TournamentMath.CalculateRoundStartTime | apps/ludo-tournament/src/ludo-tournament.utils.ts:54-69 | The loop adds one round length per earlier round |
| TournamentMath.RoundAtExact | apps/ludo-tournament/src/ludo-tournament.service.ts:1086-1102 | The round read off the elapsed time is r exactly in the slot after the start of r up to the start of r + 1 |
| TournamentMath.ClockAgreesWithSchedule | apps/ludo-tournament/src/ludo-tournament.service.ts:600-605 | Any time 0 < t <= D into round r is read as r, and the scheduled end plus the bingo wait is the start of round r + 1 |
| TournamentMath.CalculateTotalAmount | apps/ludo-tournament/src/ludo-tournament.utils.ts:25-40 | The advertised total is the sum over the bands once registration is over, else fee times seats |
| TournamentMath.AllRanksPayTheTotal | apps/ludo-tournament/src/ludo-tournament.utils.ts:8-40 | Paying each of the ranks 1..N once pays out exactly the advertised total of disjoint bands |
| TournamentMath.PrizeSumPeel | apps/ludo-tournament/src/ludo-tournament.utils.ts:8-19 | The first band pays its amount to each rank it covers, on top of what the later bands pay |
| Pairing.LudoGameplay.StartRound | apps/ludo-gameplay/src/ludo-gameplay.service.ts:1144-1158 | Splicing the shuffled list makes tables of its pieces and overwrites the promoted user by a user left alone |
| Pairing.LudoGameplay.StartNewRound | apps/ludo-tournament/src/ludo-tournament.service.ts:574-600 | The promoted users are cut into batches of 8192 and every batch is seated |
| Pairing.CutIntoBatches | apps/ludo-tournament/src/ludo-tournament.service.ts:571-575 | The splice loop cuts the list into consecutive batches |
| Pairing.PairingIsPartition | apps/ludo-gameplay/src/ludo-gameplay.service.ts:1144-1243 | Every promoted user is seated exactly once: at one table of 2 to k users or as a bye |
| Pairing.PieceCounts | apps/ludo-gameplay/src/ludo-gameplay.service.ts:1144-1243 | How many tables and byes a round has, for any table size and number of users |
| Pairing.SingleBye | apps/ludo-gameplay/src/ludo-gameplay.service.ts:1237-1243 | Storing a single promoted user loses nobody exactly when a full batch leaves no bye, or there is no full batch, or one and the rest leaves none |
| Pairing.TwoByes | apps/ludo-gameplay/src/ludo-gameplay.service.ts:1237-1243 | With 8191 users a table two full batches leave two users alone |
| Pairing.TableCountIsTarget | apps/ludo-gameplay/src/ludo-gameplay.service.ts:1537-1542 | For table sizes dividing 8192, or one batch, the number of tables is the formula used on reconnection |
| Pairing.TableCountForThree | apps/ludo-gameplay/src/ludo-gameplay.service.ts:1537-1542 | For tables of three it is the formula exactly while few enough batches were cut |
| Pairing.TotalNeverChanges | apps/ludo-tournament/src/ludo-tournament.service.ts:354-372 | With one winner per table and the bye the recomputed total equals the previous one, for table sizes dividing 8192 or one batch |
| Pairing.TotalUnchangedExactly | apps/ludo-tournament/src/ludo-tournament.service.ts:354-372 | For any table size: it stays the same exactly when tables and byes number at most k^(rounds - 1) |
| Pairing.TotalUnchangedIff | apps/ludo-tournament/src/ludo-tournament.service.ts:354-372 | The same for any number of promoted users that is at least one per k |
| Pairing.SeatingCountIs | apps/ludo-gameplay/src/ludo-gameplay.service.ts:1144-1243 | Tables and byes together are what cutting batch by batch makes |
| Pairing.TotalAfterRound | apps/ludo-tournament/src/ludo-tournament.service.ts:354-372 | The exact rule for the numbers of tables and byes alone |
| Pairing.TotalGrowsForThree | apps/ludo-tournament/src/ludo-tournament.service.ts:354-372 | It does change for tables of three and 19683 users, whose three batches leave one user too many |
| FirstFit.SplitArrayByPredicate | libs/fabzen-common/src/utils/array.util.ts:1-27 | The nested loops compute the first-fit grouping |
| FirstFit.GroupsPartitionInOrder | libs/fabzen-common/src/utils/array.util.ts:1-27 | Every item is in exactly one group, and groups keep the order of the input |
| FirstFit.NoConflictInsideGroup | libs/fabzen-common/src/utils/array.util.ts:1-27 | No two items of one group conflict |
| FirstFit.EarlierGroupsConflict | libs/fabzen-common/src/utils/array.util.ts:1-27 | An item passed over every earlier group for a conflict there |
| FirstFit.FirstFitIsProper | libs/fabzen-common/src/utils/array.util.ts:1-27 | The group numbers separate conflicting items |
| FirstFit.GroupCountIsLargestClass | libs/fabzen-common/src/utils/array.util.ts:1-27 | For an equivalence relation the number of groups is the size of the largest class |
| FirstFit.FirstFitUsesFewestGroups | libs/fabzen-common/src/utils/array.util.ts:1-27 | No grouping without conflicts uses fewer groups |
| TtlLock.LockerService.AcquireLock | libs/fabzen-common/src/locker/locker.service.ts:11-31 | At most 500 attempts whatever happens in between; all but the last are refused, and the result says whether the last was granted |
| TtlLock.LockerService.ReleaseLock | libs/fabzen-common/src/locker/locker.service.ts:33-36 | The key is deleted whoever set it |
| TtlLock.MutualExclusion | libs/fabzen-common/src/locker/locker.service.ts:11-36 | For any clients and interleaving, at most one client holds a key at any moment, if holders release in time and only holders release |
| TtlLock.ExclusionExactly | libs/fabzen-common/src/locker/locker.service.ts:11-36 | For any run without any condition: exclusion holds at every moment exactly when no attempt is granted while another client still believes to hold the key |
| TtlLock.LostExactlyWhenTaken | libs/fabzen-common/src/locker/locker.service.ts:11-36 | A single step loses exclusion exactly when it is such an attempt |
| TtlLock.TakenBecause | libs/fabzen-common/src/locker/locker.service.ts:11-36 | Such an attempt is granted only because the holder's time has run out or somebody else has released the key |
| TtlLock.RefusedExactlyWhenHeld | libs/fabzen-common/src/locker/locker.service.ts:11-31 | In such runs an attempt is refused exactly when somebody holds the key |
| TtlLock.OverrunBreaksExclusion | libs/fabzen-common/src/locker/locker.service.ts:11-36 | Without the first condition two clients hold one key |
| TtlLock.StrayReleaseBreaksExclusion | libs/fabzen-common/src/locker/locker.service.ts:33-36 | Without the second condition a stranger's release lets a second client in |
| RummyDeciders.CheckPureSequence | apps/re-gameplay/src/re-gameplay.gateway.ts:2553-2617 | The two passes over the sorted cards decide whether the row is bridged without gaps, ace high or low |
| RummyDeciders.HasNoGaps | apps/re-gameplay/src/re-gameplay.gateway.ts:2586-2606 | The second pass accepts exactly a consecutive row of one suit |
| RummyDeciders.CheckImpureSequence | apps/re-gameplay/src/re-gameplay.gateway.ts:2619-2717 | Jokers and wild cards removed, the passes decide whether the gaps can be filled |
| RummyDeciders.SplitFillers | apps/re-gameplay/src/re-gameplay.gateway.ts:2636-2650 | Listing positions and filtering keeps exactly the other cards, and counts a joker that is also wild twice |
| RummyDeciders.CountNeeded | apps/re-gameplay/src/re-gameplay.gateway.ts:2659-2673 | The walk adds up the missing positions and gives up at another suit or equal ranks |
| RummyDeciders.CheckSet | apps/re-gameplay/src/re-gameplay.gateway.ts:2719-2767 | Splicing suits decides whether all other cards share a rank in different suits |
| RummyMelds.PureExact | apps/re-gameplay/src/re-gameplay.gateway.ts:2553-2617 | Accepted are exactly the rows of one suit on consecutive positions 1..14, ace at 1 or 14, without jokers, for every group of at least two cards |
| RummyMelds.ImpureExactUnlessTwoAces | apps/re-gameplay/src/re-gameplay.gateway.ts:2619-2717 | For a wild card that is no joker: groups of up to 13 cards are accepted exactly when the other cards fit a window of the group's size inside 1..14; with 14 cards exactly unless two aces are among them |
| RummyMelds.PureIsImpure | apps/re-gameplay/src/re-gameplay.gateway.ts:2553-2717 | Every pure sequence of at most 13 cards passes the impure check for every such wild card |
| RummyMelds.PureMeansImpure | apps/re-gameplay/src/re-gameplay.gateway.ts:2553-2717 | What can be laid out without fillers can be laid out with them, for any wild card |
| RummyMelds.SetExactUpToFour | apps/re-gameplay/src/re-gameplay.gateway.ts:2719-2767 | A group is a set in the sense of one rank in different suits, fillers included, exactly when it is accepted and has at most four cards |
| RummyHands.LongSet | apps/re-gameplay/src/re-gameplay.gateway.ts:2719-2767 | Three sevens and two jokers are accepted as a set of five cards and are none |
| RummyMelds.SortSorts | apps/re-gameplay/src/utils/re-gameplay.utils.ts:87-95 | The sort permutes the cards and sorts them by rank |
| RummyDeciders.FourteenCards | apps/re-gameplay/src/re-gameplay.gateway.ts:2553-2717 | Fourteen hearts with both aces are pure for one check and rejected by the other |
| RummyDeclaration.RummyPlayer.CheckDeclaredCards | apps/re-gameplay/src/re-gameplay.gateway.ts:2474-2542 | Declaring labels the groups; for dealt hands the answer is exactly: all groups are melds and there are enough sequences, or only a set of more than four cards keeps a group from being one; the stored verdict counts left-over labels; failing costs 80 points unless only finishing |
| RummyDeclaration.RummyPlayer.FinishRound | apps/re-gameplay/src/re-gameplay.gateway.ts:2906-2974 | Finishing the round gives a player who has not declared the same labels and, for dealt hands, exactly the verdict that counts left-over labels; all others are left alone |
| RummyDeclaration.LabelGroup | apps/re-gameplay/src/re-gameplay.gateway.ts:2480-2506 | A meld gets its kind, any other group keeps the label it came with and becomes invalid |
| RummyDeclaration.LabelGroups | apps/re-gameplay/src/re-gameplay.gateway.ts:2480-2510 | All groups are labelled, and the flag says whether all are melds |
| RummyDeclaration.CountSequences | apps/re-gameplay/src/re-gameplay.gateway.ts:2515-2522 | Counts labels |
| RummyDeclaration.DeclarationExact | apps/re-gameplay/src/re-gameplay.gateway.ts:2474-2542 | For hands of up to 13 cards a declaration is valid and no group longer than four cards is labelled without being a sequence, exactly when all groups are sequences or sets in the sense of `RummyMelds`, with at least one pure sequence and at least two sequences, whatever labels came in |
| RummyDeclaration.KindIsExact | apps/re-gameplay/src/re-gameplay.gateway.ts:2480-2506 | A group gets a label of its own and is short or a sequence exactly when it is a sequence or a set; the labels tell pure sequences and sequences exactly |
| RummyDeclaration.StoredVerdict | apps/re-gameplay/src/re-gameplay.gateway.ts:2515-2532 | The stored verdict on the sequences adds left-over labels to the sequences; it is right exactly when the hand has the sequences, or pure sequences and pure left-over labels number 0, or all sequences and left-over sequence labels fewer than 2 |
| RummyDeclaration.SequencesExactWithoutStaleLabels | apps/re-gameplay/src/re-gameplay.gateway.ts:2515-2532 | In particular it is right when no group that is no meld came labelled as a sequence |
| RummyHands.StaleLabelsPass | apps/re-gameplay/src/re-gameplay.gateway.ts:2515-2532 | A hand of thirteen cards without any sequence, arranged so that two groups carry left-over labels, keeps its stored verdict and scores 59 instead of 80 |
| RummyHands.LongSetPasses | apps/re-gameplay/src/re-gameplay.gateway.ts:2474-2542 | A hand of thirteen cards declared validly with a set of five cards |
| RummyDeclaration.CalculateScore | apps/re-gameplay/src/utils/re-gameplay.utils.ts:120-212 | The loops add the points of the counted groups and stop at 80 |
| RummyDeclaration.ScoreInRange | apps/re-gameplay/src/utils/re-gameplay.utils.ts:120-212 | A score is in 0..80 and never drops when the declaration turns out invalid |
| RummyDeclaration.ValidHandScoresNothing | apps/re-gameplay/src/utils/re-gameplay.utils.ts:120-212 | A valid hand scores 0 |
| RummyDeck.ReTable.constructor | apps/re-gameplay/src/services/gameplay/table.service.ts:593-637 | Thirteen cards each, one open, the rest closed: the shuffled deck and nothing else |
| RummyDeck.SortedCardsAreTheHand | apps/re-gameplay/src/services/gameplay/common.service.ts:215-264 | The default groups are the hand by suits, jokers included |
| RummyDeck.ReTable.DrawCard | apps/re-gameplay/src/re-gameplay.gateway.ts:1923-1985 | Draws the open top or else the closed head; every refusal leaves the table alone; every card stays where it can be counted once |
| RummyDeck.ReTable.DiscardCard | apps/re-gameplay/src/re-gameplay.gateway.ts:2013-2115 | Exactly which discards are refused and why; the card leaves hand and groups, the decks are refilled, nothing is lost, and the closed deck is not empty while two cards are undealt |
| RummyDeck.ReTable.ValidateCardsGroup | apps/re-gameplay/src/re-gameplay.gateway.ts:2374-2424 | An arrangement is accepted exactly when it is the hand |
| RummyDeck.Serve | apps/re-gameplay/src/re-gameplay.gateway.ts:1923-2424 | Over any sequence of requests every card keeps its number of copies, groups stay part of the hands, a hand of more than 14 cards is never discarded from again, and every step does to the players what `PlayersStep` says |
| RummyDeck.HandsStayInStep | apps/re-gameplay/src/re-gameplay.gateway.ts:1923-2115 | In any run all hands keep 13 cards, or 14 between draw and discard, exactly when nobody draws who has drawn already |
| RummyDeck.DrawTwice | apps/re-gameplay/src/re-gameplay.gateway.ts:1923-2115 | Two draws in one turn are both accepted and make a hand of 15 cards, from which the discard is refused |
| RummyDeck.GroupsGiveUp | apps/re-gameplay/src/re-gameplay.gateway.ts:2046-2061 | Removing a card from every group keeps the groups inside the hand |
| SubWallets.DebitSucceedsIff | apps/sp-gameplay/src/services/gameplay/common.service.ts:383-433 | A fee can be debited exactly when it does not exceed the balance |
| SubWallets.DebitTakesTheFee | apps/sp-gameplay/src/services/gameplay/common.service.ts:383-433 | A debit takes exactly the fee from balance and money and overdraws no sub-wallet |
| SubWallets.BalanceIsMin | apps/sp-gameplay/src/services/gameplay/common.service.ts:383-399 | The balance is main and winnings plus what of the bonus they can carry, never more than all money |
| SkillPattiMoney.BetMovesMoney | apps/sp-gameplay/src/sp-gameplay.gateway.ts:2382-2392 | A bet moves its amount from one wallet to the bets, and leaves who can go on betting solvent |
| SkillPatti.SpTable.constructor | apps/sp-gameplay/src/sp-gameplay.gateway.ts:313-353 | A table whose antes stay below the pot limit starts within all limits |
| SkillPatti.SpTable.StartRound | apps/sp-gameplay/src/sp-gameplay.gateway.ts:313-383 | Only from waiting or an ended round: bets and pot are emptied and who can pay the ante and keep some is in; the table's money falls by exactly the pot found |
| SkillPatti.SpTable.InitialBet | apps/sp-gameplay/src/sp-gameplay.gateway.ts:445-487 | Every active player pays the ante into the pot, which stays below the limit |
| SkillPatti.SpTable.DealCards | apps/sp-gameplay/src/sp-gameplay.gateway.ts:532-580 | Dealing moves no money |
| SkillPatti.SpTable.ChaalBet | apps/sp-gameplay/src/sp-gameplay.gateway.ts:2332-2405 | Exactly when a call is allowed, and that it moves the call amount cut to the limit |
| SkillPatti.SpTable.Chaal | apps/sp-gameplay/src/sp-gameplay.gateway.ts:863-922 | A call in play, then exactly what `Passed` says: the round ends when decided, else the turn goes to the next active player |
| SkillPatti.SpTable.RaiseBet | apps/sp-gameplay/src/sp-gameplay.gateway.ts:1009-1087 | Exactly which raises are allowed; a raise becomes the new chaal amount, and a full pot ends the round |
| SkillPatti.SpTable.Raise | apps/sp-gameplay/src/sp-gameplay.gateway.ts:984-1147 | A raise in play becomes the chaal amount, then the round ends when decided, else the turn goes to the next active player |
| SkillPatti.SpTable.AllinBet | apps/sp-gameplay/src/sp-gameplay.gateway.ts:1173-1241 | Exactly when all-in is allowed; the balance becomes 0, the player stays in for the pot as it is then |
| SkillPatti.SpTable.Allin | apps/sp-gameplay/src/sp-gameplay.gateway.ts:1151-1303 | All-in; the cards are revealed exactly when everybody still betting has seen, then the round ends when it was decided before, else the turn passes |
| SkillPatti.SpTable.Showdown | apps/sp-gameplay/src/sp-gameplay.gateway.ts:1503-1583 | Two active players: exactly when a showdown is accepted; it calls and ends the round below the limit |
| SkillPatti.SpTable.Sideshow | apps/sp-gameplay/src/sp-gameplay.gateway.ts:1586-1697 | Exactly when a sideshow is accepted; it calls and stays below the limit |
| SkillPatti.SpTable.SideshowRes | apps/sp-gameplay/src/sp-gameplay.gateway.ts:1701-1780 | Only the player asked may answer; the loser of the comparison is out and the turn passes, without moving money |
| SkillPatti.SpTable.Pack | apps/sp-gameplay/src/sp-gameplay.gateway.ts:2762-2850 | Packing deactivates one seat, moves no money, and ends the round exactly when nobody is left to bet against, else reveals the cards when all have seen, else passes the turn, in any status of the table; when a named player is not in the round only the turn goes on, without a name nothing happens; below the pot limit the invariant holds afterwards |
| SkillPatti.SpTable.PackCards | apps/sp-gameplay/src/sp-gameplay.gateway.ts:925-981 | Only the player on turn may pack, in play; the state is then exactly that after a pack |
| SkillPatti.SpTable.See | apps/sp-gameplay/src/sp-gameplay.gateway.ts:1307-1400 | An active player may look; when all have, the cards are revealed |
| SkillPatti.SpTable.RevealCards | apps/sp-gameplay/src/sp-gameplay.gateway.ts:1948-2010 | Revealing doubles the chaal amount once and moves no money |
| SkillPatti.SpTable.Next | apps/sp-gameplay/src/sp-gameplay.gateway.ts:2443-2500 | The turn passes, or stays after a sideshow, or a decided round ends; the whole new state |
| SkillPatti.TurnPasses | apps/sp-gameplay/src/sp-gameplay.gateway.ts:2443-2500 | In a round that goes on the turn reaches an active player, and another one than before while two are active |
| SkillPatti.SpTable.RoundEnd | apps/sp-gameplay/src/sp-gameplay.gateway.ts:2550-2586 | The end of a round moves no money |
| SkillPatti.SpTable.SideshowTimeout | apps/sp-gameplay/src/services/queue/sp-queue.service.ts:181-218 | Only the timer of the current turn acts: the turn goes to the next active player and the player asked is packed |
| SkillPatti.SpTable.SideshowAccept | apps/sp-gameplay/src/services/queue/sp-queue.service.ts:219-251 | Unless the round has ended, play goes on and the loser is packed |
| SkillPatti.SpTable.SideshowReject | apps/sp-gameplay/src/services/queue/sp-queue.service.ts:252-281 | Unless the round has ended, play goes on with the same player on turn, or the round ends when decided |
| SkillPatti.SpTable.StartPlaying | apps/sp-gameplay/src/services/queue/sp-queue.service.ts:116-146 | Only dealt tables start playing |
| SkillPatti.SpTable.DestroyInactiveTable | apps/sp-gameplay/src/sp-gameplay.gateway.ts:2292-2306 | The refund hands back balances plus pot, to each the own bets |
| SkillPattiPayout.GameEnd | apps/sp-gameplay/src/services/gameplay/common.service.ts:1270-1418 | The net pot is shared: amounts are not negative and go to winners in play, with what is left over they add up to the net pot, nobody all-in gets more than the net side pot, and a weaker hand wins only after every stronger one has its side pot in full. With up to six seats more than 0.02 is left over exactly when everybody in play is all-in and their net side pots leave more than 0.02, and then exactly what they leave; without the common card something is left over exactly when nobody is in play and the net pot is positive |
| SkillPattiPayout.LossExactly | apps/sp-gameplay/src/services/gameplay/common.service.ts:1270-1418 | Whatever the comparison says: when more than small change of the pot is lost at up to six seats, and how much |
| SkillPattiPayout.LossWithoutCards | apps/sp-gameplay/src/services/gameplay/common.service.ts:1357-1366 | Without the common card the net pot is lost as a whole, exactly when nobody is in play |
| SkillPattiLostPot.PlayTheRound | apps/sp-gameplay/src/sp-gameplay.gateway.ts:313-2125 | A whole round of three players: one is all-in for 9 of a pot of 15, the others call, look and pack, and of the 47 at the table 6 are gone after the payout without any commission |
| SkillPattiLostPot.LossStep | apps/sp-gameplay/src/services/gameplay/common.service.ts:1270-1418 | At the end of that round the only player in play may take 9 of 15 |
| SkillPattiPayout.PayWinners | apps/sp-gameplay/src/services/gameplay/common.service.ts:1319-1356 | The winners of one comparison: side pots below an equal share are paid pass after pass, the rest is split equally; what is paid leaves the pot, and everybody is paid |
| SkillPattiPayout.GetWinners | apps/sp-gameplay/src/services/gameplay/common.service.ts:1235-1266 | One walk finds winners whenever there are candidates; if the comparison follows a strength, exactly the strongest |
| SkillPattiPayout.FirstTakesAll | apps/sp-gameplay/src/services/gameplay/common.service.ts:1357-1366 | Without a common card the first player in play takes the net pot |
| SkillPatti.SpTable.PayOut | apps/sp-gameplay/src/sp-gameplay.gateway.ts:2028-2125 | The pot is paid out and bets are cleared: the table loses exactly the commission and what the winners do not get, with the same exact condition for that loss as at the end of the game, and stays solvent and within its limits |
| SkillPatti.RunConserves | apps/sp-gameplay/src/sp-gameplay.gateway.ts:313-2850 | Over any run, any number of rounds, the money at the table falls by exactly what starts and payouts take: a start the pot it finds, a payout at least the commission and at most the pot |
| SkillPatti.RunAndRefund | apps/sp-gameplay/src/sp-gameplay.gateway.ts:313-2850 | Over any requests, timers and payouts pot, limits and solvency hold, every step moves money as `MoneyStep` says, and a refund at the end equals the money at the table before less what was taken |
| LudoBoard.CanMoveExactlyWhenMoveSucceeds | apps/ludo-gameplay/src/utils/ludo-gameplay.utils.ts:201-303 | The legality test agrees with the move, for every player, cell and dice |
| LudoBoard.IndexOfPathCell | libs/fabzen-common/src/configuration/configuration.ts:507-748 | No cell comes twice on a path |
| LudoBoard.MoveStaysOnPath | apps/ludo-gameplay/src/utils/ludo-gameplay.utils.ts:271-303 | From the own path a move goes exactly the dice further on it, from the base to its first cell, and is refused beyond Home |
| LudoBoard.MoveRaisesOwnScore | apps/ludo-gameplay/src/utils/ludo-gameplay.utils.ts:400-431 | Moving an on-board pawn raises its owner's score by the dice, plus 56 at Home, and nobody else's |
| LudoBoard.ResetLowersOwnScore | apps/ludo-gameplay/src/utils/ludo-gameplay.utils.ts:318-324 | A pawn sent back loses what it had counted |
| LudoTable.OfferedMovesAreLegalMoves | apps/ludo-gameplay/src/utils/ludo-gameplay.utils.ts:166-191 | The moves offered are exactly the own pawns with rolled dice by which the move succeeds |
| LudoTable.GetCanMovePawns | apps/ludo-gameplay/src/utils/ludo-gameplay.utils.ts:166-191 | The loops compute the offered moves |
| LudoTable.GetNextTurn | apps/ludo-gameplay/src/utils/ludo-gameplay.utils.ts:80-94 | The loop finds the next player in turn order who has not left |
| LudoTable.TurnGoesToAPlayer | apps/ludo-gameplay/src/utils/ludo-gameplay.utils.ts:80-94 | The turn goes to somebody still playing whenever there is one, and to somebody else if possible |
| LudoTable.FourOrdersReturn | libs/fabzen-common/src/configuration/configuration.ts:749-754 | The turn order is one cycle through all four players |
| LudoTable.FindWinners | apps/ludo-gameplay/src/utils/ludo-gameplay.utils.ts:433-453 | Winners are exactly the players with the best score, and with only zeros a player left alone |
| LudoTable.LudoGame.MovePawn | apps/ludo-gameplay/src/services/gameplay/table.service.ts:297-444 | Exactly which moves are rejected and which win (a pawn reaching Home as the second in a quick game, else the fourth); all others put the pawn where its path says, reset a single foreign pawn on an open cell, and set dice, chances, turn and action; every pawn stays on its own path |
| LudoTable.LudoGame.constructor | apps/ludo-gameplay/src/utils/ludo-gameplay.utils.ts:364-394 | All pawns start on the first cell of their paths |
| LudoTable.MovesKeepPaths | apps/ludo-gameplay/src/services/gameplay/table.service.ts:330-400 | A move and a kill leave every pawn on its own path |
| LudoTable.MoveScores | apps/ludo-gameplay/src/services/gameplay/table.service.ts:330-400 | A whole move raises only the mover's score, by the dice and 56 at Home, and takes from the killed pawn's owner what that pawn had counted |
| CallBreak.CbrTable.OnThrowCard | apps/cbr-gameplay/src/cbr-gameplay.gateway.ts:399-488 | Exactly which throws are accepted; the new state is that of any throw of this card |
| CallBreak.CbrTable.AutoThrowCard | apps/cbr-gameplay/src/cbr-gameplay.gateway.ts:1107-1178 | The timer throws the first possible card and reaches the same state as a request for it; there is one exactly until the thirteen tricks are over, after which only the turn passes, and then exactly the invariant is lost |
| CallBreak.CbrTable.OnHandBid | apps/cbr-gameplay/src/cbr-gameplay.gateway.ts:325-380 | Exactly which bids are accepted; the fourth starts the first trick |
| CallBreak.CbrTable.AutoHandBid | apps/cbr-gameplay/src/cbr-gameplay.gateway.ts:897-943 | The timer bids one |
| CallBreak.CbrTable.StartRound | apps/cbr-gameplay/src/cbr-gameplay.gateway.ts:685-720 | A round starts with empty hands and counters at a table in any status; the cards kept for the trick are not reset, so the invariant holds exactly unless a trick was cut off |
| CallBreak.CbrTable.DealCards | apps/cbr-gameplay/src/services/gameplay/table.service.ts:255-284 | The first shuffle whose deal meets the rule is dealt and sorted; in a started round the table is then ready for bids |
| CallBreakDeal.DealCards | apps/cbr-gameplay/src/services/gameplay/table.service.ts:255-284 | Shuffles and deals until all hands have four suits and a card above 10; every hand is its share, sorted |
| CallBreakDeal.DealIsTheDeck | apps/cbr-gameplay/src/services/gameplay/table.service.ts:255-284 | A deal gives every one of the 52 cards to exactly one hand, thirteen to each, none thrown |
| CallBreakDeal.ShuffleCards | apps/cbr-gameplay/src/services/gameplay/table.service.ts:286-296 | The swaps in place compute the shuffle of the random positions |
| CallBreakDeal.ShufflePermutes | apps/cbr-gameplay/src/services/gameplay/table.service.ts:286-296 | Every shuffle is a permutation |
| CallBreakDeal.CheckRule | apps/cbr-gameplay/src/services/gameplay/table.service.ts:298-320 | The loop accepts exactly deals in which every hand has all four suits and a card above 10 |
| CallBreakDeal.GetSortedCards | apps/cbr-gameplay/src/services/gameplay/common.service.ts:386-400 | Exchanging in place permutes the hand and sorts it by suit and number |
| CallBreak.CbrTable.EndHand | apps/cbr-gameplay/src/cbr-gameplay.gateway.ts:945-985 | The trick goes to the seat that shows the strong card, who leads the next one |
| CallBreak.CbrTable.EndRound | apps/cbr-gameplay/src/cbr-gameplay.gateway.ts:1187-1213 | Ends the round in any status; after thirteen tricks exactly 4 bids and 52 throws have been made and every card was thrown; the invariant holds afterwards exactly unless a trick was cut off |
| CallBreak.ThrowKeepsTrick | apps/cbr-gameplay/src/cbr-gameplay.gateway.ts:430-483 | After every throw the turn counter is 4 times the hand number plus the cards on the table, and every player has thrown one card per trick |
| CallBreak.TrickIsTaken | apps/cbr-gameplay/src/services/gameplay/common.service.ts:269-279 | A full trick is taken by its strongest card, tricks won count up by one, and the next trick begins at the winner |
| CallBreak.SomeCardIsPossible | apps/cbr-gameplay/src/services/gameplay/common.service.ts:294-360 | In all thirteen tricks the player on turn has a card that may be thrown |
| CallBreakCards.KeptCardTakesTheTrick | apps/cbr-gameplay/src/services/gameplay/common.service.ts:188-279 | The best cards kept while the trick is played give the card the scan over all cards finds, which is the strongest |
| CallBreakCards.FollowKeepsLeading | apps/cbr-gameplay/src/cbr-gameplay.gateway.ts:451-483 | The two kept cards stay the best of the led suit and the best trump |
| CallBreakCards.StrongCardIsStrongest | apps/cbr-gameplay/src/services/gameplay/common.service.ts:237-267 | The scan finds a card nothing on the table beats |
| CallBreakCards.GetStrongCard | apps/cbr-gameplay/src/services/gameplay/common.service.ts:256-267 | The loop computes the scan |
| CallBreakCards.PossibleCardsAreLegal | apps/cbr-gameplay/src/services/gameplay/common.service.ts:281-360 | Only remaining cards may be thrown, somebody with cards always may throw one, and the led suit is followed by who has it |

## Left out

- Sockets, emitted messages, queues, HTTP, MongoDB and Redis access: I/O without an algorithm; the stored documents are fields of the classes.
- Players who ignore a tournament, cancelled tournaments and the minimum number of players: the tournament lemmas cover started tournaments in which nobody ignores a round.
- Promises that are not awaited: round-end processing is sequential, as the lock on the tournament intends.
- The result of a table whose tournament or round has changed between reading and writing: a table belongs to the current round.
- The wallet service that receives the credited prizes, and notifications to it.
- The declare request's read-then-write of a table snapshot, and the counters of declared and joined rummy players.
- A missing wild card on a rummy table, which is answered with an exception before anything changes.
- Rummy turns, drops, timeouts and the end of a round beyond labels and score: the next player is an input of a discard.
- Skill Patti players leaving, buying in again or joining during a round, and skipped turns, which make them leave.
- The wallet that a Skill Patti player buys in from: whether it suffices for another ante is an input of the payout.
- SubWallets.DebitSucceedsIff: speaks of exact reals; digits that big-decimal division loses are left out.
- SubWallets.DebitTakesTheFee: speaks of exact reals; digits that big-decimal division loses are left out.
- SubWallets.BalanceIsMin: speaks of exact reals; digits that big-decimal division loses are left out.
- SkillPattiPayout.GameEnd: speaks of exact reals, so equal parts of a pot add up to it; digits that big-decimal division loses are left out.
- Which cards Skill Patti deals and what Ludo rolls, and the comparison of two hands: inputs.
- Rolling the dice, skipping a turn and lives in Ludo: dice values and the action to take are state that requests find.
- Ludo games other than through moves: matching, tokens, reconnection and waiting tables.
- Call Break scores, leaving players and the match of several rounds: one round is modelled.
- CallBreakDeal.DealCards: gets the random numbers of finitely many shuffles and says so when none of their deals meets the rule, where the code goes on shuffling.
- Tournament.LudoTournament.EndRound: promises the invariant afterwards only for results that name everybody still in, which both callers are shown to provide; for other results only the new state is stated.
- Tournament.LudoTournament.constructor: promises the invariant only for two and more users and, with more than 8192 of them, for a table size of at most 8192 other than 8191; with larger tables some users are left alone unremembered or the last round has several tables.
- SkillPatti.SpTable.constructor: asks its caller for an ante of all seats below the pot limit, without which the first round could start above it.
- RummyDeck.ReTable.constructor: asks its caller for more cards than are dealt, which the two decks of 53 cards are for up to eight players.
- TtlLock.LockerService.AcquireLock: does not model the random delays between attempts other than through the events that happen meanwhile.
- Live listings, online counters, histories, invoices and configuration lookup: no property worth stating.
- SkillPattiPayout.LossExactly: speaks of at most six seats, as many as a table has player ids; with more the loop of twelve passes may stop earlier.
- SkillPatti.SpTable.Pack: promises the invariant afterwards only below the pot limit; after a round that ended with a full pot a pack may open the round again.
