/** The rounds of one tournament: tables end early or at the deadline, losers are ranked, winners are seated again. */
module Tournament {
  import opened Options
  import opened TournamentMath
  import opened Pairing
  import opened Leaderboard
  import opened Standings
  import opened RoundRecords
  import opened Seating
  import opened RoundEnd
  import opened Sequences

  datatype Status = Started | Ended

  /** A table seats at least two. */
  type TableSize = k: nat | k >= 2 witness 2

  datatype Response = NoTable | NotActive | AlreadyDeclared | Continues | Finished

  /** One pass over the results: bulk writes, changes to the loaded documents, promoted users. */
  method CollectResults(results: seq<RoundEndResult>)
    returns (bulkWriteOps: seq<Outcome>, updatedPlayers: map<UserId, Outcome>, promotedUserIds: seq<UserId>)
    ensures bulkWriteOps == AllOutcomes(results)
    ensures updatedPlayers == UpdatedPlayers(bulkWriteOps)
    ensures promotedUserIds == Winners(bulkWriteOps)
  {
    hide AllOutcomes, UpdatedPlayers, Winners, OutcomeOf, OutcomesOf;
    NothingCollected(results);
    bulkWriteOps, updatedPlayers, promotedUserIds := [], map[], [];
    for r := 0 to |results|
      invariant bulkWriteOps == AllOutcomes(results[..r])
      invariant updatedPlayers == UpdatedPlayers(bulkWriteOps)
      invariant promotedUserIds == Winners(bulkWriteOps)
    {
      var result := results[r];
      for i := 0 to |result.players|
        invariant bulkWriteOps == AllOutcomes(results[..r]) + OutcomesOf(result)[..i]
        invariant updatedPlayers == UpdatedPlayers(bulkWriteOps)
        invariant promotedUserIds == Winners(bulkWriteOps)
      {
        var outcome := OutcomeOf(result.tableId, result.players[i], result.game);
        OneMore(bulkWriteOps, outcome);
        updatedPlayers := updatedPlayers[outcome.userId := outcome];
        if outcome.won {
          promotedUserIds := promotedUserIds + [outcome.userId];
        }
        bulkWriteOps := bulkWriteOps + [outcome];
      }
      NextResult(results, r);
    }
  }

  lemma NothingCollected(results: seq<RoundEndResult>)
    ensures AllOutcomes(results[..0]) == [] && UpdatedPlayers([]) == map[] && Winners([]) == []
    ensures results[..|results|] == results
  {
  }

  lemma OneMore(os: seq<Outcome>, o: Outcome)
    ensures UpdatedPlayers(os + [o]) == UpdatedPlayers(os)[o.userId := o]
    ensures Winners(os + [o]) == Winners(os) + if o.won then [o.userId] else []
  {
    assert (os + [o])[..|os|] == os;
  }

  lemma NextResult(results: seq<RoundEndResult>, r: nat)
    requires r < |results|
    ensures AllOutcomes(results[..r + 1]) == AllOutcomes(results[..r]) + OutcomesOf(results[r])
    ensures OutcomesOf(results[r])[..|results[r].players|] == OutcomesOf(results[r])
  {
    assert results[..r + 1][..r] == results[..r];
  }

  lemma OneResultEach(order: seq<nat>, n: nat)
    requires EachOnce(order, n)
    ensures |order| == n
  {
    var all := seq(n, i => i);
    assert forall t :: 0 <= t < n ==> all[t] == t;
    forall t: int
      ensures t in order <==> t in all
    {
      if t in all {
        var i :| 0 <= i < n && all[i] == t;
      }
      assert 0 <= t < n ==> all[t] == t;
    }
    SameElementsSameLength(order, all);
  }

  method CollectTables(tables: seq<GameTable>, live: seq<GameResult>, order: seq<nat>)
    returns (results: seq<RoundEndResult>)
    requires |live| == |tables| && EachOnce(order, |tables|)
    ensures results == Collected(tables, live, order)
  {
    results := [];
    for j := 0 to |order|
      invariant |results| == j
      invariant forall i :: 0 <= i < j ==>
                  results[i] == RoundEndResult(order[i], tables[order[i]].players, FinalGame(tables, live, order[i]))
    {
      var table := tables[order[j]];
      var game := if table.result.Some? then table.result.value else live[order[j]];
      results := results + [RoundEndResult(order[j], table.players, game)];
    }
  }

  /** Seats the promoted users of a new round. */
  method SeatRound(promotedUserIds: seq<UserId>, noPlayersPerGame: nat, shuffle: seq<UserId> -> seq<UserId>)
    returns (tables: seq<GameTable>, promotedUser: Option<UserId>, ghost seatOf: SeatMap)
    requires Permutes(shuffle) && noPlayersPerGame >= 2
    ensures var pieces := NewRoundPieces(promotedUserIds, noPlayersPerGame, shuffle);
            tables == NewTables(Tables(pieces)) && promotedUser == LastOr(Byes(pieces), None)
    ensures NoRepeats(promotedUserIds) ==>
              (FreshTables(promotedUserIds, tables, seatOf, promotedUser) <==>
                  SeatedByes(|promotedUserIds|, noPlayersPerGame) <= 1)
    ensures NoRepeats(promotedUserIds) && SeatedByes(|promotedUserIds|, noPlayersPerGame) <= 1 ==>
              RightCounts(|tables|, promotedUser, |promotedUserIds|, noPlayersPerGame)
  {
    hide NewRoundPieces, Tables, Byes, Seated, NoRepeats, SeatedByes, SeatingCount;
    var gameplay := new LudoGameplay();
    gameplay.StartNewRound(promotedUserIds, noPlayersPerGame, shuffle);
    tables := NewTables(gameplay.tables);
    promotedUser := gameplay.promotedUser;
    seatOf := map[];
    if NoRepeats(promotedUserIds) {
      ghost var _, _, seats := NewRoundSeats(promotedUserIds, noPlayersPerGame, shuffle);
      seatOf := seats;
    }
  }

  /** The tables and the bye are as many as the pairing of n users makes; few users sit at one table. */
  ghost predicate RightCounts(tables: nat, bye: Option<UserId>, n: nat, k: nat)
    requires k >= 2
  {
    tables + ByesKept(bye) == SeatingCount(n, k) && (1 < n <= k && n <= BATCH ==> tables == 1)
  }

  /** With so many users no round ever leaves more than one of them alone, and few users sit at one table. */
  predicate SeatsEverybody(n: nat, k: nat) {
    k >= 2 && (n <= BATCH || (k <= BATCH && BATCH % k != 1))
  }

  lemma FewerAreSeated(n: nat, m: nat, k: nat)
    requires SeatsEverybody(n, k) && m <= n
    ensures SeatsEverybody(m, k) && SeatedByes(m, k) <= 1 && (m <= k ==> m <= BATCH)
  {
    SingleBye(m, k);
  }

  lemma RemainingAreUsers(docs: Players)
    ensures Remaining(docs) <= docs.Keys
  {
  }

  lemma SubsetOfList(ids: seq<UserId>, users: set<UserId>, some: set<UserId>)
    requires Lists(ids, users) && some <= users
    ensures |some| <= |ids|
  {
    var all := SetOf(ids);
    assert all == users;
    SubsetSize(some, users);
  }

  /** Every result names exactly one winner. */
  ghost predicate OneWinnerEach(results: seq<RoundEndResult>) {
    forall r :: 0 <= r < |results| ==> |Winners(OutcomesOf(results[r]))| == 1
  }

  lemma {:induction false} WinnersAppend(a: seq<Outcome>, b: seq<Outcome>)
    ensures Winners(a + b) == Winners(a) + Winners(b)
  {
    if b == [] {
      assert a + b == a;
    } else {
      var n := |b| - 1;
      assert (a + b)[..|a| + n] == a + b[..n];
      WinnersAppend(a, b[..n]);
    }
  }

  lemma {:induction false} OneWinnerPerResult(results: seq<RoundEndResult>)
    requires OneWinnerEach(results)
    ensures |Winners(AllOutcomes(results))| == |results|
  {
    hide Winners, OutcomesOf;
    if results == [] {
      NothingCollected([]);
    } else {
      var n := |results| - 1;
      OneWinnerPerResult(results[..n]);
      WinnersAppend(AllOutcomes(results[..n]), OutcomesOf(results[n]));
    }
  }

  /** With one winner per table the new total is the announced one exactly when tables and bye are few enough. */
  lemma TotalAfterResults(results: seq<RoundEndResult>, bye: Option<UserId>, n: nat, k: nat, roundNo: nat, tables: nat)
    requires OneWinnerEach(results) && |results| == tables && k >= 2 && n >= 2 && RightCounts(tables, bye, n, k)
    ensures var promoted := |Winners(AllOutcomes(results))| + ByesKept(bye);
            && (roundNo + Rounds(promoted, k) == roundNo - 1 + Rounds(n, k) <==>
                  SeatingCount(n, k) <= Pow(k, Rounds(n, k) - 1))
            && (BATCH % k == 0 || n <= BATCH ==> roundNo + Rounds(promoted, k) == roundNo - 1 + Rounds(n, k))
  {
    hide Winners, AllOutcomes, OneWinnerEach, Rounds, Pow, SeatingCount, SeatedByes;
    OneWinnerPerResult(results);
    TotalAfterRound(n, k, roundNo);
  }

  lemma EmptyBoard(joined: nat, prizes: seq<WinningPrize>)
    ensures Board(joined, prizes, []) == [] && Credits([]) == []
  {
  }

  /** The leaderboard with the losers of a round added, and in the last round the winners. */
  function RankedRound(ids: seq<UserId>, docs: Players, board: seq<Entry>, prizes: seq<WinningPrize>, roundNo: nat,
                       last: bool)
    : seq<Entry>
  {
    var losers := NotRanked(ToRank(ids, docs, roundNo, false), board);
    var next := board + RankedBatch(losers, |ids|, |board|, prizes, roundNo);
    if !last then next else
      var winners := NotRanked(ToRank(ids, docs, roundNo, true), next);
      next + RankedBatch(winners, |ids|, |next|, prizes, roundNo)
  }

  lemma MergedKeys(players: Players, updated: map<UserId, Outcome>, roundNo: nat)
    ensures Merged(players, updated, roundNo).Keys == players.Keys
  {
  }

  /** The users sent to the next round: the winners and the bye. */
  function Promoted(os: seq<Outcome>, bye: Option<UserId>): seq<UserId> {
    Winners(os) + if bye.Some? then [bye.value] else []
  }

  /** The stored part of a tournament that the end of a round changes. */
  datatype Snapshot = Snapshot(
    status: Status, currentRoundNo: nat, totalRounds: nat, players: Players, tables: seq<GameTable>,
    promotedUser: Option<UserId>, leaderboard: seq<Entry>)

  /** Whether the round just played decides the tournament. */
  predicate IsLast(t: Snapshot, docs: Players) {
    t.currentRoundNo == t.totalRounds || |Remaining(docs)| <= 1
  }

  /** What the outcomes of a round make of a tournament, whoever they name. */
  function AfterRound(t: Snapshot, ids: seq<UserId>, k: nat, prizes: seq<WinningPrize>, os: seq<Outcome>,
                      shuffle: seq<UserId> -> seq<UserId>): Snapshot
    requires k >= 2 && Permutes(shuffle)
  {
    var cur := t.currentRoundNo;
    var docs := Merged(t.players, UpdatedPlayers(os), cur);
    var last := IsLast(t, docs);
    var written := t.(players := BulkWrite(t.players, os, cur, true),
                      leaderboard := RankedRound(ids, docs, t.leaderboard, prizes, cur, last));
    if last then written.(status := Ended) else
      var pieces := NewRoundPieces(Promoted(os, t.promotedUser), k, shuffle);
      written.(currentRoundNo := cur + 1, totalRounds := cur + Rounds(|Remaining(docs)|, k),
               tables := NewTables(Tables(pieces)), promotedUser := LastOr(Byes(pieces), None))
  }

  /** After results that name everybody still in, winners and bye stand in the next round. */
  lemma NextRoundHolds(ids: seq<UserId>, k: nat, begin: Players, os: seq<Outcome>, cur: nat, tables: seq<GameTable>,
                       seatOf: SeatMap, bye: Option<UserId>, nextTables: seq<GameTable>, nextSeatOf: SeatMap,
                           nextBye: Option<UserId>)
    returns (docs: Players, stored: Players)
    requires cur >= 1 && Lists(ids, begin.Keys) && SeatsEverybody(|ids|, k)
    requires EveryoneStands(begin, cur) && StandsAt(begin, cur, tables, seatOf, bye)
    requires Covered(begin, os, cur, bye) && NobodyForgotten(begin, os, bye)
    requires NoRepeats(Promoted(os, bye)) && SeatedByes(|Promoted(os, bye)|, k) <= 1 ==>
               FreshTables(Promoted(os, bye), nextTables, nextSeatOf, nextBye)
               && RightCounts(|nextTables|, nextBye, |Promoted(os, bye)|, k)
    ensures docs == Merged(begin, UpdatedPlayers(os), cur) && stored == BulkWrite(begin, os, cur, true)
    ensures stored.Keys == begin.Keys && |Remaining(docs)| <= |ids|
    ensures Lists(Promoted(os, bye), Remaining(docs)) && |Promoted(os, bye)| == |Remaining(docs)|
    ensures EveryoneStands(stored, cur + 1) && StandsAt(stored, cur + 1, nextTables, nextSeatOf, nextBye)
    ensures InRound(stored, cur + 1) == Remaining(docs) == Remaining(stored)
    ensures RightCounts(|nextTables|, nextBye, |Remaining(docs)|, k)
  {
    hide Merged, UpdatedPlayers, BulkWrite, Winners, EveryoneStands, StandsAt, Covered, NobodyForgotten, Remaining,
         InRound, Lists, FreshTables, Waiting, SeatedByes, SeatingCount, SeatsEverybody, RightCounts, NoRepeats;
    var promoted := Promoted(os, bye);
    docs := Merged(begin, UpdatedPlayers(os), cur);
    MergedKeys(begin, UpdatedPlayers(os), cur);
    ByeWaits(begin, cur, tables, seatOf, bye);
    PromotedAreRemaining(begin, os, cur, bye, promoted);
    ListsOnce(promoted, Remaining(docs));
    RemainingAreUsers(docs);
    SubsetOfList(ids, docs.Keys, Remaining(docs));
    FewerAreSeated(|ids|, |promoted|, k);
    docs, stored := NextRoundStands(begin, os, cur, bye, promoted, nextTables, nextSeatOf, nextBye);
  }

  class LudoTournament {
    const ids: seq<UserId>
    const noPlayersPerGame: TableSize
    const winningPrizes: seq<WinningPrize>
    var status: Status
    var currentRoundNo: nat
    var totalRounds: nat
    var players: Players
    var tables: seq<GameTable>
    var promotedUser: Option<UserId>
    var leaderboard: seq<Entry>
    var credits: seq<PrizeCredit>
    ghost var history: seq<Batch>
    ghost var seatOf: SeatMap

    /** The leaderboard is the ranking of the batches so far; nobody is on it twice and all its prizes are credited. */
    ghost predicate BoardOk()
      reads this`leaderboard, this`credits, this`history
    {
      && leaderboard == Board(|ids|, winningPrizes, history)
      && credits == Credits(leaderboard)
      && DistinctCandidates(AllCandidates(history))
    }

    /** The announced total is what the users in this round still need. */
    ghost predicate TotalIsExact()
      reads this`players, this`currentRoundNo, this`totalRounds, this`tables, this`promotedUser
    {
      var began := |InRound(players, currentRoundNo)|;
      && totalRounds == currentRoundNo - 1 + Rounds(began, noPlayersPerGame)
      && began >= 2
      && (began <= noPlayersPerGame ==> |tables| == 1)
      && RightCounts(|tables|, promotedUser, began, noPlayersPerGame)
    }

    ghost predicate SetUp()
      reads this`players, this`currentRoundNo
    {
      Lists(ids, players.Keys) && SeatsEverybody(|ids|, noPlayersPerGame) && currentRoundNo >= 1
    }

    /** Players, tables and leaderboard of a running round: ranked are exactly those who lost in earlier rounds. */
    ghost predicate Running()
      reads this
    {
      && EveryoneStands(players, currentRoundNo)
      && StandsAt(players, currentRoundNo, tables, seatOf, promotedUser)
      && RankedAre(history, players.Keys - InRound(players, currentRoundNo))
    }

    ghost predicate Valid()
      reads this
    {
      && SetUp()
      && BoardOk()
      && (status == Started ==> Running() && TotalIsExact())
      && (status == Ended ==> RankedAre(history, players.Keys) && EveryoneStands(players, currentRoundNo + 1))
    }

    /** Ranks the losers of the round, or at the end the winners. */
    method GenerateLeaderBoardAndCreditWinAmount(docs: Players, roundNo: nat, forWinners: bool,
                                                 ghost ranked: set<UserId>)
      requires Lists(ids, docs.Keys)
      modifies this`leaderboard, this`credits, this`history
      ensures var batch := NotRanked(ToRank(ids, docs, roundNo, forWinners), old(leaderboard));
              var entries := RankedBatch(batch, |ids|, |old(leaderboard)|, winningPrizes, roundNo);
              && history == old(history) + [Batch(batch, roundNo)]
              && leaderboard == old(leaderboard) + entries
              && credits == old(credits) + Credits(entries)
      ensures old(BoardOk()) && RankedAre(old(history), ranked) && ranked !! ChosenUsers(docs, roundNo, forWinners) ==>
                && BoardOk()
                && history == old(history) + [Batch(ToRank(ids, docs, roundNo, forWinners), roundNo)]
                && RankedAre(history, ranked + ChosenUsers(docs, roundNo, forWinners))
    {
      hide NotRanked, ToRank, RankedBatch, Credits, AllCandidates, Board, Chosen, RankedAre, ChosenUsers;
      if BoardOk() && RankedAre(history, ranked) && ranked !! ChosenUsers(docs, roundNo, forWinners) {
        ghost var batch := NewBatch(ids, docs, roundNo, forWinners, |ids|, winningPrizes, history, ranked);
        BoardGrows(|ids|, winningPrizes, history, Batch(batch, roundNo));
        CreditsAppend(leaderboard, RankedBatch(batch, |ids|, |leaderboard|, winningPrizes, roundNo));
      }
      var playersToRank := SelectPlayers(docs, roundNo, forWinners);
      playersToRank := RemoveRanked(playersToRank, leaderboard);
      var entries := RankBatch(playersToRank, |ids|, |leaderboard|, winningPrizes, roundNo);
      leaderboard := leaderboard + entries;
      credits := credits + Credits(entries);
      history := history + [Batch(playersToRank, roundNo)];
    }

    method SelectPlayers(docs: Players, roundNo: nat, forWinners: bool) returns (playersToRank: seq<Candidate>)
      requires forall id <- ids :: id in docs
      ensures playersToRank == ToRank(ids, docs, roundNo, forWinners)
    {
      playersToRank := [];
      for i := 0 to |ids|
        invariant playersToRank == ToRank(ids[..i], docs, roundNo, forWinners)
      {
        assert ids[..i + 1][..i] == ids[..i];
        if Chosen(docs[ids[i]], roundNo, forWinners) {
          playersToRank := playersToRank + [Candidate(ids[i], docs[ids[i]].lastRoundScore)];
        }
      }
      assert ids[..|ids|] == ids;
    }

    function Now(): (s: Snapshot)
      reads this
    {
      Snapshot(status, currentRoundNo, totalRounds, players, tables, promotedUser, leaderboard)
    }

    ghost predicate ResultsCoverRound(os: seq<Outcome>)
      reads this
    {
      && Covered(players, os, currentRoundNo, promotedUser)
      && (!IsLast(Now(), Merged(players, UpdatedPlayers(os), currentRoundNo)) ==>
            NobodyForgotten(players, os, promotedUser))
    }

    /** Ranks the losers of the round and, when it was the last one, the winners. */
    method RankRound(docs: Players, ghost os: seq<Outcome>) returns (last: bool)
      requires SetUp() && BoardOk() && Running() && docs == Merged(players, UpdatedPlayers(os), currentRoundNo)
      modifies this`leaderboard, this`credits, this`history
      ensures last == IsLast(old(Now()), docs)
      ensures leaderboard == RankedRound(ids, docs, old(leaderboard), winningPrizes, currentRoundNo, last)
      ensures Covered(players, os, currentRoundNo, promotedUser) ==>
                && BoardOk() && RankedAre(history, if last then players.Keys else players.Keys - Remaining(docs))
                && var losers := Batch(ToRank(ids, docs, currentRoundNo, false), currentRoundNo);
                   var winners := Batch(ToRank(ids, docs, currentRoundNo, true), currentRoundNo);
                   history == old(history) + if last then [losers, winners] else [losers]
    {
      hide Merged, UpdatedPlayers, BulkWrite, ToRank, NotRanked, RankedBatch, EveryoneStands, StandsAt, Covered,
           ChosenUsers, Remaining, InRound, Lists, RankedAre, BoardOk;
      MergedKeys(players, UpdatedPlayers(os), currentRoundNo);
      if Covered(players, os, currentRoundNo, promotedUser) {
        ghost var _, _ := RoundCloses(players, os, currentRoundNo, promotedUser);
      }
      GenerateLeaderBoardAndCreditWinAmount(docs, currentRoundNo, false,
                                            players.Keys - InRound(players, currentRoundNo));
      last := IsLast(Now(), docs);
      if last {
        GenerateLeaderBoardAndCreditWinAmount(docs, currentRoundNo, true, docs.Keys - Remaining(docs));
      }
    }

    /** The next round: new total, results stored, winners and bye seated. */
    method GoOn(docs: Players, os: seq<Outcome>, winners: seq<UserId>, shuffle: seq<UserId> -> seq<UserId>)
      requires Permutes(shuffle) && winners == Winners(os)
      modifies this`players, this`tables, this`promotedUser, this`seatOf, this`currentRoundNo, this`totalRounds
      ensures currentRoundNo == old(currentRoundNo) + 1
      ensures players == BulkWrite(old(players), os, old(currentRoundNo), true)
      ensures totalRounds == old(currentRoundNo) + Rounds(|Remaining(docs)|, noPlayersPerGame)
      ensures var promoted := Promoted(os, old(promotedUser));
              var pieces := NewRoundPieces(promoted, noPlayersPerGame, shuffle);
              && tables == NewTables(Tables(pieces)) && promotedUser == LastOr(Byes(pieces), None)
              && (NoRepeats(promoted) && SeatedByes(|promoted|, noPlayersPerGame) <= 1 ==>
                    FreshTables(promoted, tables, seatOf, promotedUser)
                    && RightCounts(|tables|, promotedUser, |promoted|, noPlayersPerGame))
    {
      hide BulkWrite, Winners, NewRoundPieces, Remaining, Byes, Tables, FreshTables, SeatedByes, SeatingCount,
           RightCounts, NoRepeats;
      var cur := currentRoundNo;
      var remainingRounds := CalculateTotalRounds(|Remaining(docs)|, noPlayersPerGame);
      if cur + remainingRounds != totalRounds {
        totalRounds := cur + remainingRounds;
      }
      currentRoundNo := cur + 1;
      players := BulkWrite(players, os, cur, true);
      var promotedUserIds := winners;
      if promotedUser.Some? {
        promotedUserIds := promotedUserIds + [promotedUser.value];
        promotedUser := None;
      }
      assert promotedUserIds == Promoted(os, old(promotedUser));
      ghost var seats: SeatMap;
      tables, promotedUser, seats := SeatRound(promotedUserIds, noPlayersPerGame, shuffle);
      seatOf := seats;
    }

    /** A round begun with everybody standing where they should is a valid state. */
    lemma RoundIsValid(remaining: set<UserId>)
      requires Lists(ids, players.Keys) && SeatsEverybody(|ids|, noPlayersPerGame)
      requires currentRoundNo >= 1 && status == Started
      requires BoardOk() && EveryoneStands(players, currentRoundNo)
      requires StandsAt(players, currentRoundNo, tables, seatOf, promotedUser)
      requires InRound(players, currentRoundNo) == remaining && 2 <= |remaining| <= |ids|
      requires RankedAre(history, players.Keys - remaining)
      requires totalRounds == currentRoundNo - 1 + Rounds(|remaining|, noPlayersPerGame)
      requires RightCounts(|tables|, promotedUser, |remaining|, noPlayersPerGame)
      ensures Valid()
    {
      hide EveryoneStands, StandsAt, InRound, Lists, RankedAre, BoardOk, SeatedByes, SeatingCount, Rounds;
      FewerAreSeated(|ids|, |remaining|, noPlayersPerGame);
    }

    /** The state after a round that goes on, with results that name everybody still in. */
    lemma NextRoundIsValid(begin: Players, os: seq<Outcome>, cur: nat, oldTables: seq<GameTable>, oldSeatOf: SeatMap,
        bye: Option<UserId>)
      requires cur >= 1 && status == Started && currentRoundNo == cur + 1 && BoardOk()
      requires Lists(ids, begin.Keys) && SeatsEverybody(|ids|, noPlayersPerGame)
      requires EveryoneStands(begin, cur) && StandsAt(begin, cur, oldTables, oldSeatOf, bye)
      requires Covered(begin, os, cur, bye) && NobodyForgotten(begin, os, bye)
      requires players == BulkWrite(begin, os, cur, true)
      requires NoRepeats(Promoted(os, bye)) && SeatedByes(|Promoted(os, bye)|, noPlayersPerGame) <= 1 ==>
                 FreshTables(Promoted(os, bye), tables, seatOf, promotedUser)
                 && RightCounts(|tables|, promotedUser, |Promoted(os, bye)|, noPlayersPerGame)
      requires var docs := Merged(begin, UpdatedPlayers(os), cur);
               && |Remaining(docs)| >= 2 && totalRounds == cur + Rounds(|Remaining(docs)|, noPlayersPerGame)
               && RankedAre(history, begin.Keys - Remaining(docs))
      ensures Valid() && Remaining(players) == Remaining(Merged(begin, UpdatedPlayers(os), cur))
      ensures Lists(Promoted(os, bye), Remaining(players)) && |Promoted(os, bye)| == |Remaining(players)|
    {
      hide Merged, UpdatedPlayers, BulkWrite, EveryoneStands, StandsAt, Covered, NobodyForgotten, Remaining, InRound,
           Lists, FreshTables, SeatedByes, SeatingCount, SeatsEverybody, RightCounts, NoRepeats, RankedAre, BoardOk,
           Rounds, Promoted;
      var docs, _ := NextRoundHolds(ids, noPlayersPerGame, begin, os, cur, oldTables, oldSeatOf, bye, tables, seatOf,
          promotedUser);
      hide Valid;
      RoundIsValid(Remaining(docs));
    }

    /** The state after the last round. */
    lemma EndIsValid(begin: Players, os: seq<Outcome>, bye: Option<UserId>)
      requires currentRoundNo >= 1 && status == Ended && BoardOk()
      requires Lists(ids, begin.Keys) && SeatsEverybody(|ids|, noPlayersPerGame)
      requires EveryoneStands(begin, currentRoundNo) && Covered(begin, os, currentRoundNo, bye)
      requires players == BulkWrite(begin, os, currentRoundNo, true) && RankedAre(history, begin.Keys)
      ensures Valid() && Remaining(players) == Remaining(Merged(begin, UpdatedPlayers(os), currentRoundNo))
    {
      hide Merged, UpdatedPlayers, BulkWrite, EveryoneStands, Covered, Remaining, InRound, Lists, SeatsEverybody,
           RankedAre, BoardOk;
      var _, _ := RoundCloses(begin, os, currentRoundNo, bye);
    }

    /** Whether the tables and the bye of this round are few enough for one round less than announced. */
    ghost predicate TotalStays()
      reads this`players, this`currentRoundNo
    {
      var n, k := |InRound(players, currentRoundNo)|, noPlayersPerGame;
      Rounds(n, k) > 0 && SeatingCount(n, k) <= Pow(k, Rounds(n, k) - 1)
    }

    /** What the invariant says about the total if every table of the round names one winner. */
    lemma AnnouncedTotal(results: seq<RoundEndResult>, bye: Option<UserId>)
      requires SetUp() && TotalIsExact() && bye == promotedUser
      ensures OneWinnerEach(results) && |results| == |tables| ==>
                var next := currentRoundNo + Rounds(|Winners(AllOutcomes(results))| + ByesKept(bye), noPlayersPerGame);
                && (TotalStays() <==> next == totalRounds)
                && (BATCH % noPlayersPerGame == 0 || |InRound(players, currentRoundNo)| <= BATCH ==>
                  next == totalRounds)
    {
      hide Winners, AllOutcomes, OneWinnerEach, Pow, SeatingCount, SeatedByes, InRound, RightCounts;
      var n := |InRound(players, currentRoundNo)|;
      if OneWinnerEach(results) && |results| == |tables| {
        RoundsNeeded(n, noPlayersPerGame);
        TotalAfterResults(results, bye, n, noPlayersPerGame, currentRoundNo, |tables|);
      }
    }

    /**
     * Losers are ranked; the last round also ranks the winners, any other round seats them again. Results that leave
     * out somebody still playing are written all the same, but then the invariant may be lost.
     */
    method EndRound(roundNo: nat, roundEndResults: seq<RoundEndResult>, shuffle: seq<UserId> -> seq<UserId>)
      returns (response: Response)
      requires Valid() && Permutes(shuffle)
      modifies this
      ensures old(status) != Started ==> response == NotActive && unchanged(this)
      ensures old(status) == Started && roundNo != old(currentRoundNo) ==>
                response == AlreadyDeclared && unchanged(this)
      ensures old(status) == Started && roundNo == old(currentRoundNo) ==>
                && Now() == AfterRound(old(Now()), ids, noPlayersPerGame, winningPrizes,
                                       AllOutcomes(roundEndResults), shuffle)
                && response == if status == Ended then Finished else Continues
      ensures var os := AllOutcomes(roundEndResults);
              old(status) == Started && roundNo == old(currentRoundNo) && old(ResultsCoverRound(os)) ==>
                RoundIsOver(old(Now()), old(history), os)
      ensures var os := AllOutcomes(roundEndResults);
              old(status) != Started || roundNo != old(currentRoundNo) || old(ResultsCoverRound(os)) ==> Valid()
      ensures response == Continues && old(ResultsCoverRound(AllOutcomes(roundEndResults)))
              && OneWinnerEach(roundEndResults) && |roundEndResults| == old(|tables|) ==>
                && (totalRounds == old(totalRounds) <==> old(TotalStays()))
                && (BATCH % noPlayersPerGame == 0 || |InRound(old(players), roundNo)| <= BATCH ==>
                      totalRounds == old(totalRounds))
    {
      hide Merged, UpdatedPlayers, BulkWrite, Winners, AllOutcomes, ToRank, NewRoundPieces, EveryoneStands, StandsAt,
           Covered, NobodyForgotten, Remaining, InRound, Lists, Byes, Tables, RankedAre, BoardOk, TotalIsExact,
           AfterRound, TotalStays, OneWinnerEach, SeatingCount, SeatedByes, Rounds, SeatsEverybody;
      if status != Started {
        return NotActive;
      }
      if roundNo != currentRoundNo {
        return AlreadyDeclared;
      }
      var bulkWriteOps, updatedPlayers, promotedUserIds := CollectResults(roundEndResults);
      AnnouncedTotal(roundEndResults, promotedUser);
      CloseRound(bulkWriteOps, Merged(players, updatedPlayers, currentRoundNo), promotedUserIds, shuffle);
      return if status == Ended then Finished else Continues;
    }

    /** Ranks and writes the outcomes of the round, then ends the tournament or goes on. */
    method CloseRound(os: seq<Outcome>, docs: Players, winners: seq<UserId>, shuffle: seq<UserId> -> seq<UserId>)
      requires Valid() && status == Started && Permutes(shuffle)
      requires docs == Merged(players, UpdatedPlayers(os), currentRoundNo) && winners == Winners(os)
      modifies this
      ensures Now() == AfterRound(old(Now()), ids, noPlayersPerGame, winningPrizes, os, shuffle)
      ensures old(ResultsCoverRound(os)) ==> Valid() && RoundIsOver(old(Now()), old(history), os)
    {
      hide UpdatedPlayers, BulkWrite, Winners, ToRank, NewRoundPieces, EveryoneStands, StandsAt, Covered,
           NobodyForgotten, Remaining, InRound, Lists, Byes, Tables, RankedAre, BoardOk, TotalIsExact, SeatingCount,
           SeatedByes, NotRanked, RankedRound, Rounds, FreshTables, NoRepeats, RightCounts;
      hide Merged, SeatsEverybody;
      var cur := currentRoundNo;
      ghost var covered := ResultsCoverRound(os);
      var last := RankRound(docs, os);
      if last {
        players := BulkWrite(players, os, cur, true);
        status := Ended;
        if covered {
          EndIsValid(old(players), os, old(promotedUser));
        }
      } else {
        GoOn(docs, os, winners, shuffle);
        if covered {
          NextRoundIsValid(old(players), os, cur, old(tables), old(seatOf), old(promotedUser));
        }
      }
    }

    /** Results that cover the round: losers and in the last round winners are ranked, and who is left is promoted. */
    ghost predicate RoundIsOver(before: Snapshot, ranked: seq<Batch>, os: seq<Outcome>)
      reads this
    {
      var roundNo := before.currentRoundNo;
      var docs := Merged(before.players, UpdatedPlayers(os), roundNo);
      var losers := Batch(ToRank(ids, docs, roundNo, false), roundNo);
      var winners := Batch(ToRank(ids, docs, roundNo, true), roundNo);
      && Remaining(players) == Remaining(docs)
      && history == ranked + (if status == Ended then [losers, winners] else [losers])
      && (status == Started ==>
            && Lists(Promoted(os, before.promotedUser), Remaining(players))
            && |Promoted(os, before.promotedUser)| == |Remaining(players)|
            && totalRounds == roundNo + Rounds(|Remaining(players)|, noPlayersPerGame))
    }

    /**
     * startTournament: everybody joined is seated in round 1. The invariant holds exactly for two and more users of
     * whom no round loses one.
     */
    constructor (userIds: seq<UserId>, playersPerGame: TableSize, prizes: seq<WinningPrize>,
                 shuffle: seq<UserId> -> seq<UserId>)
      requires NoRepeats(userIds) && Permutes(shuffle)
      ensures Valid() <==> |userIds| >= 2 && SeatsEverybody(|userIds|, playersPerGame)
      ensures ids == userIds && noPlayersPerGame == playersPerGame && winningPrizes == prizes
      ensures var pieces := NewRoundPieces(userIds, playersPerGame, shuffle);
              Now() == Snapshot(Started, 1, Rounds(|userIds|, playersPerGame), Newcomers(userIds),
                                NewTables(Tables(pieces)),
                                LastOr(Byes(pieces), None), [])
      ensures credits == []
    {
      hide FreshTables, EveryoneStands, StandsAt, NewRoundPieces, Tables, Byes, RankedAre, NoRepeats, Newcomers,
           Lists, InRound, Rounds, DistinctCandidates, AllCandidates, LeastRounds, Permutes, Board, Credits,
           SeatedByes, SeatingCount;
      var total := CalculateTotalRounds(|userIds|, playersPerGame);
      var roundTables, bye, seats := SeatRound(userIds, playersPerGame, shuffle);
      if SeatsEverybody(|userIds|, playersPerGame) {
        FewerAreSeated(|userIds|, |userIds|, playersPerGame);
        ghost var _ := FirstRound(userIds, roundTables, seats, bye);
      }
      EmptyBoard(|userIds|, prizes);
      ids, noPlayersPerGame, winningPrizes := userIds, playersPerGame, prizes;
      status, currentRoundNo, totalRounds := Started, 1, total;
      players, tables, promotedUser, seatOf := Newcomers(userIds), roundTables, bye, seats;
      leaderboard, credits, history := [], [], [];
    }

    /** The deadline of a round: stored results of completed games, live scores of running ones, in any order. */
    method ScheduledEndRound(roundNo: nat, live: seq<GameResult>, order: seq<nat>, shuffle: seq<UserId> -> seq<UserId>)
      returns (response: Response)
      requires Valid() && Permutes(shuffle)
      requires |live| == |tables| && EachOnce(order, |tables|)
      modifies this
      ensures Valid()
      ensures old(status) == Started && roundNo == old(currentRoundNo) ==>
                && response in {Continues, Finished}
                && players == BulkWrite(old(players), AllOutcomes(Collected(old(tables), live, order)), roundNo, true)
      ensures old(status) != Started || roundNo != old(currentRoundNo) ==>
                response in {NotActive, AlreadyDeclared} && unchanged(this)
      ensures response == Continues ==>
                && status == Started && currentRoundNo == roundNo + 1
                && totalRounds == roundNo + Rounds(|Remaining(players)|, noPlayersPerGame)
                && (OneWinnerEach(Collected(old(tables), live, order)) ==>
                      && (totalRounds == old(totalRounds) <==> old(TotalStays()))
                      && (BATCH % noPlayersPerGame == 0 || |InRound(old(players), roundNo)| <= BATCH ==>
                          totalRounds == old(totalRounds)))
    {
      hide Merged, UpdatedPlayers, BulkWrite, Winners, AllOutcomes, ToRank, NewRoundPieces, EveryoneStands, StandsAt,
           Covered, NobodyForgotten, Remaining, InRound, Byes, Tables, RankedAre, BoardOk, TotalIsExact, EachOnce,
           FinalGame, Rounds, TotalStays, OneWinnerEach;
      OneResultEach(order, |tables|);
      ghost var begin := tables;
      var results := CollectTables(tables, live, order);
      if status == Started {
        AllTablesCover(players, currentRoundNo, tables, live, order, seatOf, promotedUser);
      }
      response := EndRound(roundNo, results, shuffle);
    }

    lemma OneRoundLeftOrMore()
      requires TotalIsExact() && currentRoundNo >= 1
      ensures currentRoundNo == totalRounds ==> |tables| == 1
    {
      if currentRoundNo == totalRounds {
        OneRoundLeft(|InRound(players, currentRoundNo)|, noPlayersPerGame);
      }
    }

    /** A finished game: its result is stored, and the round ends with it when the tournament is decided. */
    method EndTable(t: nat, game: GameResult, shuffle: seq<UserId> -> seq<UserId>) returns (response: Response)
      requires Valid() && Permutes(shuffle)
      modifies this
      ensures Valid()
      ensures response == NoTable <==> t >= |old(tables)| || old(tables)[t].result.Some?
      ensures response == NoTable ==> unchanged(this)
      ensures response != NoTable ==>
                && tables == old(tables)[t := old(tables)[t].(result := Some(game))]
                && response == (if old(status) == Ended then NotActive
                                else if status == Ended then Finished else Continues)
                && players == (if old(status) == Ended then old(players)
                               else var os := OutcomesOf(RoundEndResult(t, tables[t].players, game));
                                    BulkWrite(old(players), os, currentRoundNo, false))
      ensures response == Finished <==>
                response in {Finished, Continues} && (currentRoundNo == totalRounds || |Remaining(players)| <= 1)
      ensures currentRoundNo == old(currentRoundNo) && totalRounds == old(totalRounds)
      ensures response != Finished ==> leaderboard == old(leaderboard) && status == old(status)
    {
      hide Merged, UpdatedPlayers, BulkWrite, Winners, ToRank, EveryoneStands, StandsAt, Covered, Stands,
           NobodyForgotten, ChosenUsers, Remaining, InRound, Lists, RankedAre, BoardOk, OutcomesOf;
      if t >= |tables| || tables[t].result.Some? {
        return NoTable;
      }
      if status == Started {
        ghost var _, _, _ := EarlyEnd(players, currentRoundNo, tables, seatOf, promotedUser, t, game);
      }
      tables := tables[t := tables[t].(result := Some(game))];
      if status == Ended {
        return NotActive;
      }
      var result := RoundEndResult(t, tables[t].players, game);
      players := BulkWrite(players, OutcomesOf(result), currentRoundNo, false);
      response := Continues;
      if currentRoundNo == totalRounds || |Remaining(players)| <= 1 {
        OneRoundLeftOrMore();
        ghost var _ := DecisiveTable(players, currentRoundNo, tables, seatOf, promotedUser, t);
        response := EndRound(currentRoundNo, [result], shuffle);
      }
    }
  }

  /**
   * A tournament that has ended: everybody who joined is ranked exactly once, ranks are competition ranks of the whole
   * run, and the credited money is the advertised total, exactly without ties, else up to half a paisa per tied player.
   */
  lemma EndedTournamentPaysTheTotal(t: LudoTournament, i: nat)
    requires t.Valid() && t.status == Ended && WellFormedBands(t.winningPrizes, |t.ids|) && i < |t.ids|
    ensures |t.leaderboard| == |t.ids| && Lists(t.ids, set e <- t.leaderboard :: e.userId)
    ensures t.leaderboard[i].rank == 1 + Better(t.leaderboard, |t.leaderboard|, t.leaderboard[i].rank)
    ensures Within(2 * Credited(t.credits) - 2 * BandTotal(t.winningPrizes), TiedTotal(t.history))
    ensures TiedTotal(t.history) == 0 ==> Credited(t.credits) == BandTotal(t.winningPrizes)
  {
    hide Better, TiedTotal, BandTotal, WinSum, Credits, Credited, Board, AllCandidates, Within;
    EveryoneRankedOnce(t.ids, t.history, t.players.Keys);
    BoardKeepsPlayers(|t.ids|, t.winningPrizes, t.history);
    RunIsCompetitionRanked(|t.ids|, t.winningPrizes, t.history, i);
    WholeTournamentConserves(|t.ids|, t.winningPrizes, t.history);
    CreditsPayTheBoard(t.leaderboard);
    UsersOnBoard(t.leaderboard, AllCandidates(t.history), t.players.Keys);
  }

  lemma UsersOnBoard(board: seq<Entry>, ranked: seq<Candidate>, users: set<UserId>)
    requires multiset(AsCandidates(board)) == multiset(ranked)
    requires forall id :: RankedIn(ranked, id) <==> id in users
    ensures (set e <- board :: e.userId) == users
  {
    var cs := AsCandidates(board);
    forall j | 0 <= j < |board|
      ensures board[j].userId in users
    {
      assert cs[j] in multiset(ranked);
      var i :| 0 <= i < |ranked| && ranked[i] == cs[j];
      assert RankedIn(ranked, board[j].userId);
    }
    forall id <- users
      ensures id in set e <- board :: e.userId
    {
      var i :| 0 <= i < |ranked| && ranked[i].userId == id;
      assert ranked[i] in multiset(cs);
      var j :| 0 <= j < |cs| && cs[j] == ranked[i];
      assert board[j] in board && board[j].userId == id;
    }
  }
}
