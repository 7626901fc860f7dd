/** What the end of a round does to players and tables, early at one table or at the deadline for all of them. */
module RoundEnd {
  import opened Options
  import opened TournamentMath
  import opened Pairing
  import opened Leaderboard
  import opened Standings
  import opened RoundRecords
  import opened Seating
  import opened Sequences

  datatype PrizeCredit = PrizeCredit(userId: UserId, winAmount: nat)

  // ---------- where a player stands in round `cur` ----------

  predicate Out(p: Player, cur: nat) {
    1 <= p.lostRoundNo < cur && p.lastPlayedRoundNo < cur
  }

  predicate Waiting(p: Player, cur: nat) {
    p.lostRoundNo == 0 && p.lastPlayedRoundNo < cur
  }

  predicate Played(p: Player, cur: nat) {
    p.lastPlayedRoundNo == cur && (p.lostRoundNo == 0 || p.lostRoundNo == cur)
  }

  /** What is already stored for this round is the outcome. */
  predicate Fits(p: Player, o: Outcome, cur: nat) {
    if p.lastPlayedRoundNo == cur then p.lastRoundScore == o.score && p.lostRoundNo == (if o.won then 0 else cur)
    else Waiting(p, cur)
  }

  function Remaining(players: Players): set<UserId> {
    set id | id in players && players[id].lostRoundNo == 0
  }

  /** Zero prizes are not credited. */
  function Credits(entries: seq<Entry>): seq<PrizeCredit> {
    if entries == [] then [] else
      var e := entries[|entries| - 1];
      Credits(entries[..|entries| - 1]) + if e.winAmount != 0 then [PrizeCredit(e.userId, e.winAmount)] else []
  }

  function Credited(credits: seq<PrizeCredit>): nat {
    if credits == [] then 0 else Credited(credits[..|credits| - 1]) + credits[|credits| - 1].winAmount
  }

  lemma {:induction false} CreditsAppend(a: seq<Entry>, b: seq<Entry>)
    ensures Credits(a + b) == Credits(a) + Credits(b)
  {
    if b == [] {
      assert a + b == a;
    } else {
      assert (a + b)[..|a + b| - 1] == a + b[..|b| - 1];
      CreditsAppend(a, b[..|b| - 1]);
    }
  }

  lemma {:induction false} CreditsPayTheBoard(entries: seq<Entry>)
    ensures Credited(Credits(entries)) == WinSum(entries, 0, |entries|)
  {
    if entries != [] {
      var n := |entries| - 1;
      var front, e := entries[..n], entries[n];
      CreditsPayTheBoard(front);
      WinSumPrefix(front, [e], n);
      assert entries == front + [e];
      var c := PrizeCredit(e.userId, e.winAmount);
      assert (Credits(front) + [c])[..|Credits(front)|] == Credits(front);
      assert Credits(front) + [] == Credits(front);
    }
  }

  // ---------- who is on the leaderboard ----------

  ghost predicate RankedIn(cs: seq<Candidate>, id: UserId) {
    exists i :: 0 <= i < |cs| && cs[i].userId == id
  }

  /** The leaderboard ranks exactly these users. */
  ghost predicate RankedAre(history: seq<Batch>, users: set<UserId>) {
    forall id :: RankedIn(AllCandidates(history), id) <==> id in users
  }

  /** A list of exactly these users, each once. */
  ghost predicate Lists(s: seq<UserId>, users: set<UserId>) {
    NoRepeats(s) && forall id :: id in s <==> id in users
  }

  lemma ListsOnce(s: seq<UserId>, users: set<UserId>)
    requires Lists(s, users)
    ensures NoRepeats(s)
  {
  }

  lemma BoardUsers(joined: nat, prizes: seq<WinningPrize>, history: seq<Batch>, e: Entry)
    requires e in Board(joined, prizes, history)
    ensures RankedIn(AllCandidates(history), e.userId)
  {
    var board := Board(joined, prizes, history);
    BoardKeepsPlayers(joined, prizes, history);
    var i :| 0 <= i < |board| && board[i] == e;
    assert AsCandidates(board)[i] == Candidate(e.userId, e.score);
    assert Candidate(e.userId, e.score) in multiset(AllCandidates(history));
  }

  // ---------- the end of a round ----------

  /** The results name users once, fit what is stored, and leave nobody playing. */
  ghost predicate Covered(players: Players, os: seq<Outcome>, cur: nat, bye: Option<UserId>) {
    && DistinctUsers(os)
    && (forall o <- os :: o.userId in players && Fits(players[o.userId], o, cur) && bye != Some(o.userId))
    && (forall id <- players :: OutcomeFor(os, id).None? && Waiting(players[id], cur) ==> bye == Some(id))
  }

  ghost predicate EveryoneStands(players: Players, cur: nat) {
    forall id <- players ::
      RoundsInOrder(players[id]) && (Out(players[id], cur) || Waiting(players[id], cur) || Played(players[id], cur))
  }

  /**
   * The documents changed in memory carry the round results that the bulk write stores, also for tables that ended
   * early.
   */
  lemma MemoryAgreesWithDatabase(players: Players, os: seq<Outcome>, cur: nat, bye: Option<UserId>, id: UserId)
    requires cur >= 1 && EveryoneStands(players, cur) && Covered(players, os, cur, bye) && id in players
    ensures BulkWrite(players, os, cur, true).Keys == players.Keys
    ensures var m, d := Merged(players, UpdatedPlayers(os), cur)[id], BulkWrite(players, os, cur, true)[id];
            && m.lostRoundNo == d.lostRoundNo && m.lastPlayedRoundNo == d.lastPlayedRoundNo
            && m.lastRoundScore == d.lastRoundScore
            && RoundsInOrder(d)
            && (Out(m, cur) || Played(m, cur) || (Waiting(m, cur) && bye == Some(id)))
            && (Out(m, cur) <==> Out(players[id], cur))
            && (Out(m, cur) ==> m == players[id])
  {
    hide BulkWrite, UpdatedPlayers, OutcomeFor, RoundsInOrder;
    BulkWriteIsPointwise(players, os, cur, true, id);
    UpdatedPlayersLookup(os, id);
    var o := OutcomeFor(os, id);
    if o.Some? && players[id].lastPlayedRoundNo < cur {
      RecordKeepsOrder(players[id], o.value, cur);
    }
  }

  /** A player's round list grows in order; the outcome of the round is its last element. */
  lemma EarlyWriteKeepsOrder(players: Players, os: seq<Outcome>, cur: nat, id: UserId)
    requires DistinctUsers(os) && id in players && EveryoneStands(players, cur) && cur >= 1
    requires OutcomeFor(os, id).Some? ==> Waiting(players[id], cur)
    ensures BulkWrite(players, os, cur, false).Keys == players.Keys
    ensures var d := BulkWrite(players, os, cur, false)[id];
            match OutcomeFor(os, id)
            case None => d == players[id]
            case Some(o) => RoundsInOrder(d) && Played(d, cur) && Fits(d, o, cur)
  {
    BulkWriteIsPointwise(players, os, cur, false, id);
  }

  // ---------- ranking ----------

  function ChosenUsers(players: Players, roundNo: nat, forWinners: bool): set<UserId> {
    set id | id in players && Chosen(players[id], roundNo, forWinners)
  }

  /** Nobody to rank is on the leaderboard, so nobody is spliced out and everybody stays on it once. */
  lemma NewBatch(ids: seq<UserId>, players: Players, roundNo: nat, forWinners: bool,
                 joined: nat, prizes: seq<WinningPrize>, history: seq<Batch>, ranked: set<UserId>)
    returns (batch: seq<Candidate>)
    requires Lists(ids, players.Keys) && DistinctCandidates(AllCandidates(history))
    requires RankedAre(history, ranked) && ranked !! ChosenUsers(players, roundNo, forWinners)
    ensures batch == ToRank(ids, players, roundNo, forWinners)
    ensures NotRanked(batch, Board(joined, prizes, history)) == batch
    ensures DistinctCandidates(AllCandidates(history + [Batch(batch, roundNo)]))
    ensures RankedAre(history + [Batch(batch, roundNo)], ranked + ChosenUsers(players, roundNo, forWinners))
  {
    hide Chosen, AllCandidates, Board, ToRank, NotRanked;
    var board, front := Board(joined, prizes, history), AllCandidates(history);
    ToRankIs(ids, players, roundNo, forWinners);
    batch := ToRank(ids, players, roundNo, forWinners);
    assert forall i :: 0 <= i < |batch| ==> batch[i] in batch;
    forall c <- batch, e <- board
      ensures c.userId != e.userId
    {
      BoardUsers(joined, prizes, history, e);
    }
    NobodyRankedYet(batch, board);
    forall id <- ChosenUsers(players, roundNo, forWinners)
      ensures RankedIn(batch, id)
    {
      var j :| 0 <= j < |batch| && batch[j] == Candidate(id, players[id].lastRoundScore);
    }
    JoinRanked(front, batch, ranked, ChosenUsers(players, roundNo, forWinners));
    BoardGrows(joined, prizes, history, Batch(batch, roundNo));
  }

  lemma JoinRanked(front: seq<Candidate>, batch: seq<Candidate>, ranked: set<UserId>, chosen: set<UserId>)
    requires DistinctCandidates(front) && DistinctCandidates(batch) && ranked !! chosen
    requires forall id :: RankedIn(front, id) <==> id in ranked
    requires (forall c <- batch :: c.userId in chosen) && forall id <- chosen :: RankedIn(batch, id)
    ensures DistinctCandidates(front + batch)
    ensures forall id :: RankedIn(front + batch, id) <==> id in ranked + chosen
  {
    assert forall i :: 0 <= i < |front| ==> RankedIn(front, front[i].userId);
    assert forall i :: 0 <= i < |batch| ==> batch[i] in batch;
    forall id
      ensures RankedIn(front + batch, id) <==> id in ranked + chosen
    {
      if id in ranked {
        var i :| 0 <= i < |front| && front[i].userId == id;
        assert (front + batch)[i].userId == id;
      } else if id in chosen {
        var j :| 0 <= j < |batch| && batch[j].userId == id;
        assert (front + batch)[|front| + j].userId == id;
      }
    }
  }

  /** Once everybody is ranked the leaderboard is as long as the list of players. */
  lemma EveryoneRankedOnce(ids: seq<UserId>, history: seq<Batch>, users: set<UserId>)
    requires Lists(ids, users) && RankedAre(history, users) && DistinctCandidates(AllCandidates(history))
    ensures |AllCandidates(history)| == |ids|
  {
    var ranked := AllCandidates(history);
    var order := seq(|ranked|, i requires 0 <= i < |ranked| => ranked[i].userId);
    assert forall i :: 0 <= i < |order| ==> order[i] == ranked[i].userId && RankedIn(ranked, order[i]);
    forall id
      ensures id in order <==> id in ids
    {
      if id in ids {
        var i :| 0 <= i < |ranked| && ranked[i].userId == id;
        assert order[i] == id;
      }
    }
    SameElementsSameLength(order, ids);
  }

  // ---------- the tables of a round ----------

  /** Where every player of a running round is. */
  ghost predicate StandsAt(players: Players, cur: nat, tables: seq<GameTable>, seatOf: SeatMap, bye: Option<UserId>) {
    && Seated(tables, seatOf)
    && (forall t :: 0 <= t < |tables| ==> |tables[t].players| >= 2)
    && (forall id <- seatOf :: id in players)
    && (bye.Some? ==> bye.value in players && bye.value !in seatOf)
    && (forall id <- players :: Stands(players[id], id, cur, tables, seatOf, bye))
  }

  ghost predicate Stands(p: Player, id: UserId, cur: nat, tables: seq<GameTable>, seatOf: SeatMap, bye: Option<UserId>)
    requires Seated(tables, seatOf)
  {
    if id in seatOf then
      var (t, i) := seatOf[id];
      match tables[t].result
      case None => Waiting(p, cur)
      case Some(game) => Played(p, cur) && Fits(p, OutcomeOf(t, tables[t].players[i], game), cur)
    else if bye == Some(id) then Waiting(p, cur)
    else Out(p, cur)
  }

  /** The outcomes of one table name its seats. */
  lemma TableOutcome(tables: seq<GameTable>, seatOf: SeatMap, t: nat, game: GameResult, id: UserId)
    requires Seated(tables, seatOf) && t < |tables|
    ensures var os := OutcomesOf(RoundEndResult(t, tables[t].players, game));
            && DistinctUsers(os)
            && OutcomeFor(os, id) == if id in seatOf && seatOf[id].0 == t
                                     then Some(OutcomeOf(t, tables[t].players[seatOf[id].1], game)) else None
  {
    hide OutcomeFor;
    var os := OutcomesOf(RoundEndResult(t, tables[t].players, game));
    assert forall i: nat :: i < |os| ==> IsSeat(tables, t, i) && os[i].userId == tables[t].players[i].userId;
    if id in seatOf && seatOf[id].0 == t {
      OutcomeForEach(os, seatOf[id].1);
    }
  }

  /** The result of every collected table: the stored one, or the live one when its game is still running. */
  function Collected(tables: seq<GameTable>, live: seq<GameResult>, order: seq<nat>): (results: seq<RoundEndResult>)
    requires |live| == |tables| && forall j :: 0 <= j < |order| ==> order[j] < |tables|
    ensures |results| == |order|
    ensures forall j {:trigger results[j]} :: 0 <= j < |order| ==>
              results[j] == RoundEndResult(order[j], tables[order[j]].players, FinalGame(tables, live, order[j]))
  {
    seq(|order|, j requires 0 <= j < |order| =>
      RoundEndResult(order[j], tables[order[j]].players, FinalGame(tables, live, order[j])))
  }

  function FinalGame(tables: seq<GameTable>, live: seq<GameResult>, t: nat): GameResult
    requires t < |tables| == |live|
  {
    if tables[t].result.Some? then tables[t].result.value else live[t]
  }

  lemma {:induction false} OutcomeForConcat(a: seq<Outcome>, b: seq<Outcome>, id: UserId)
    ensures OutcomeFor(a + b, id) == if OutcomeFor(b, id).Some? then OutcomeFor(b, id) else OutcomeFor(a, id)
  {
    if b == [] {
      assert a + b == a;
    } else {
      assert (a + b)[..|a + b| - 1] == a + b[..|b| - 1];
      OutcomeForConcat(a, b[..|b| - 1], id);
    }
  }

  lemma ConcatDistinct(a: seq<Outcome>, b: seq<Outcome>)
    requires DistinctUsers(a) && DistinctUsers(b)
    requires forall o <- b :: OutcomeFor(a, o.userId).None?
    ensures DistinctUsers(a + b)
  {
  }

  /** In whatever order the tables answer, every seated user has the one outcome of the own table. */
  lemma {:induction false} RoundOutcome(tables: seq<GameTable>, live: seq<GameResult>, order: seq<nat>, seatOf: SeatMap)
    requires Seated(tables, seatOf) && |live| == |tables|
    requires NoRepeats(order) && forall j :: 0 <= j < |order| ==> order[j] < |tables|
    ensures DistinctUsers(AllOutcomes(Collected(tables, live, order)))
    ensures forall id :: OutcomeFor(AllOutcomes(Collected(tables, live, order)), id) == SeatOutcome(tables, live,
        order, seatOf, id)
  {
    hide OutcomeFor, OutcomesOf, FinalGame;
    if order == [] {
      NoOutcome();
    } else {
      var n := |order| - 1;
      var t, front := order[n], order[..n];
      RoundOutcome(tables, live, front, seatOf);
      assert Collected(tables, live, order)[..n] == Collected(tables, live, front);
      var a := AllOutcomes(Collected(tables, live, front));
      var b := OutcomesOf(RoundEndResult(t, tables[t].players, FinalGame(tables, live, t)));
      assert AllOutcomes(Collected(tables, live, order)) == a + b;
      assert t !in front;
      NextOutcomes(tables, live, front, t, seatOf, a, b);
    }
  }

  lemma NoOutcome()
    ensures AllOutcomes([]) == [] && forall id :: OutcomeFor([], id) == None
  {
  }

  lemma NextOutcomes(tables: seq<GameTable>, live: seq<GameResult>, front: seq<nat>, t: nat, seatOf: SeatMap,
                     a: seq<Outcome>, b: seq<Outcome>)
    requires Seated(tables, seatOf) && |live| == |tables| && t < |tables| && t !in front
    requires forall j :: 0 <= j < |front| ==> front[j] < |tables|
    requires DistinctUsers(a) && forall id :: OutcomeFor(a, id) == SeatOutcome(tables, live, front, seatOf, id)
    requires b == OutcomesOf(RoundEndResult(t, tables[t].players, FinalGame(tables, live, t)))
    ensures DistinctUsers(a + b)
    ensures forall id :: OutcomeFor(a + b, id) == SeatOutcome(tables, live, front + [t], seatOf, id)
  {
    hide OutcomeFor, OutcomesOf, FinalGame;
    forall id
      ensures OutcomeFor(a + b, id) == SeatOutcome(tables, live, front + [t], seatOf, id)
    {
      TableOutcome(tables, seatOf, t, FinalGame(tables, live, t), id);
      OutcomeForConcat(a, b, id);
    }
    TableOutcome(tables, seatOf, t, FinalGame(tables, live, t), 0);
    forall o <- b
      ensures OutcomeFor(a, o.userId).None?
    {
      TableOutcome(tables, seatOf, t, FinalGame(tables, live, t), o.userId);
    }
    ConcatDistinct(a, b);
  }

  ghost function SeatOutcome(tables: seq<GameTable>, live: seq<GameResult>, order: seq<nat>, seatOf: SeatMap,
                             id: UserId)
    : Option<Outcome>
    requires Seated(tables, seatOf) && |live| == |tables|
  {
    if id in seatOf && seatOf[id].0 in order then
      Some(OutcomeOf(seatOf[id].0, tables[seatOf[id].0].players[seatOf[id].1], FinalGame(tables, live, seatOf[id].0)))
    else None
  }

  /** The tables answer in any order. */
  ghost predicate EachOnce(order: seq<nat>, count: nat) {
    && NoRepeats(order)
    && (forall j :: 0 <= j < |order| ==> order[j] < count)
    && (forall t: nat :: t < count ==> t in order)
  }

  /** The results of all tables cover the round. */
  lemma AllTablesCover(players: Players, cur: nat, tables: seq<GameTable>, live: seq<GameResult>, order: seq<nat>,
                       seatOf: SeatMap, bye: Option<UserId>)
    requires cur >= 1 && StandsAt(players, cur, tables, seatOf, bye) && |live| == |tables|
    requires EachOnce(order, |tables|)
    ensures Covered(players, AllOutcomes(Collected(tables, live, order)), cur, bye)
    ensures NobodyForgotten(players, AllOutcomes(Collected(tables, live, order)), bye)
  {
    hide AllOutcomes, OutcomeOf, OutcomeFor;
    RoundOutcome(tables, live, order, seatOf);
    var os := AllOutcomes(Collected(tables, live, order));
    forall o <- os
      ensures o.userId in players && Fits(players[o.userId], o, cur) && bye != Some(o.userId)
    {
      var i :| 0 <= i < |os| && os[i] == o;
      OutcomeForEach(os, i);
      assert Stands(players[o.userId], o.userId, cur, tables, seatOf, bye);
    }
    forall id <- players | OutcomeFor(os, id).None?
      ensures Out(players[id], cur) || bye == Some(id)
    {
      assert Stands(players[id], id, cur, tables, seatOf, bye);
    }
  }

  /** Every winner is among the results or is the bye. */
  ghost predicate NobodyForgotten(players: Players, os: seq<Outcome>, bye: Option<UserId>) {
    forall id <- players :: OutcomeFor(os, id).None? && players[id].lostRoundNo == 0 ==> bye == Some(id)
  }

  /** A table that ends early: its players are written, nobody else changes. */
  lemma EarlyEnd(players: Players, cur: nat, tables: seq<GameTable>, seatOf: SeatMap, bye: Option<UserId>, t: nat,
      game: GameResult)
    returns (os: seq<Outcome>, written: Players, now: seq<GameTable>)
    requires cur >= 1 && EveryoneStands(players, cur) && StandsAt(players, cur, tables, seatOf, bye)
    requires t < |tables| && tables[t].result.None?
    ensures os == OutcomesOf(RoundEndResult(t, tables[t].players, game))
    ensures written == BulkWrite(players, os, cur, false) && now == tables[t := tables[t].(result := Some(game))]
    ensures written.Keys == players.Keys && EveryoneStands(written, cur) && StandsAt(written, cur, now, seatOf, bye)
    ensures InRound(written, cur) == InRound(players, cur)
  {
    hide OutcomesOf, BulkWrite, RoundsInOrder, Stands, Out, Waiting, Played;
    os := OutcomesOf(RoundEndResult(t, tables[t].players, game));
    written := BulkWrite(players, os, cur, false);
    now := tables[t := tables[t].(result := Some(game))];
    WriteKeys(players, os, cur, false);
    SameSeats(tables, now, seatOf);
    forall id | id in players
      ensures RoundsInOrder(written[id])
      ensures Out(written[id], cur) || Waiting(written[id], cur) || Played(written[id], cur)
      ensures Out(written[id], cur) <==> Out(players[id], cur)
      ensures Stands(written[id], id, cur, now, seatOf, bye)
    {
      EarlyStands(players, cur, tables, seatOf, bye, t, game, id);
    }
  }

  lemma EarlyStands(players: Players, cur: nat, tables: seq<GameTable>, seatOf: SeatMap, bye: Option<UserId>, t: nat,
                    game: GameResult, id: UserId)
    requires cur >= 1 && EveryoneStands(players, cur) && StandsAt(players, cur, tables, seatOf, bye)
    requires t < |tables| && tables[t].result.None? && id in players
    ensures var written := BulkWrite(players, OutcomesOf(RoundEndResult(t, tables[t].players, game)), cur, false);
            var now := tables[t := tables[t].(result := Some(game))];
            && id in written && Seated(now, seatOf)
            && RoundsInOrder(written[id])
            && (Out(written[id], cur) || Waiting(written[id], cur) || Played(written[id], cur))
            && (Out(written[id], cur) <==> Out(players[id], cur))
            && Stands(written[id], id, cur, now, seatOf, bye)
  {
    hide OutcomeOf, OutcomesOf, OutcomeFor, BulkWrite, RoundsInOrder;
    var os := OutcomesOf(RoundEndResult(t, tables[t].players, game));
    SameSeats(tables, tables[t := tables[t].(result := Some(game))], seatOf);
    assert Stands(players[id], id, cur, tables, seatOf, bye);
    TableOutcome(tables, seatOf, t, game, id);
    EarlyWriteKeepsOrder(players, os, cur, id);
  }

  /** When no other table is running, the result of the table that just ended leaves nobody playing. */
  lemma LastTableCovers(players: Players, cur: nat, tables: seq<GameTable>, seatOf: SeatMap, bye: Option<UserId>,
                        t: nat)
    requires StandsAt(players, cur, tables, seatOf, bye) && t < |tables|
    requires forall u :: 0 <= u < |tables| ==> tables[u].result.Some?
    ensures var os := OutcomesOf(RoundEndResult(t, tables[t].players, tables[t].result.value));
            && Covered(players, os, cur, bye)
            && (forall o <- os :: o.userId in players && players[o.userId].lastPlayedRoundNo == cur)
  {
    hide OutcomeOf, OutcomesOf, OutcomeFor;
    var game := tables[t].result.value;
    var os := OutcomesOf(RoundEndResult(t, tables[t].players, game));
    TableOutcome(tables, seatOf, t, game, 0);
    forall o <- os
      ensures o.userId in players && Fits(players[o.userId], o, cur) && bye != Some(o.userId)
      ensures players[o.userId].lastPlayedRoundNo == cur
    {
      TableOutcome(tables, seatOf, t, game, o.userId);
      var i :| 0 <= i < |os| && os[i] == o;
      OutcomeForEach(os, i);
      assert Stands(players[o.userId], o.userId, cur, tables, seatOf, bye);
    }
    forall id <- players | OutcomeFor(os, id).None? && Waiting(players[id], cur)
      ensures bye == Some(id)
    {
      assert Stands(players[id], id, cur, tables, seatOf, bye);
    }
  }

  lemma {:induction false} WriteKeys(players: Players, os: seq<Outcome>, cur: nat, onlyNew: bool)
    ensures BulkWrite(players, os, cur, onlyNew).Keys == players.Keys
  {
    if os != [] {
      WriteKeys(players, os[..|os| - 1], cur, onlyNew);
    }
  }

  lemma SameSeats(tables: seq<GameTable>, now: seq<GameTable>, seatOf: SeatMap)
    requires Seated(tables, seatOf) && |now| == |tables|
    requires forall t :: 0 <= t < |now| ==> now[t].players == tables[t].players
    ensures Seated(now, seatOf)
  {
    assert forall t: nat, i: nat :: IsSeat(now, t, i) ==> IsSeat(tables, t, i);
  }

  // ---------- who plays on ----------

  /** Users still in the tournament when round `cur` began. */
  function InRound(players: Players, cur: nat): set<UserId> {
    set id | id in players && !Out(players[id], cur)
  }

  /** The users sent to the next round are exactly the players who have not lost, each once. */
  lemma PromotedAreRemaining(players: Players, os: seq<Outcome>, cur: nat, bye: Option<UserId>, promoted: seq<UserId>)
    requires cur >= 1 && EveryoneStands(players, cur)
    requires Covered(players, os, cur, bye) && NobodyForgotten(players, os, bye)
    requires bye.Some? ==> bye.value in players && Waiting(players[bye.value], cur)
    requires promoted == Winners(os) + if bye.Some? then [bye.value] else []
    ensures Lists(promoted, Remaining(Merged(players, UpdatedPlayers(os), cur)))
    ensures |promoted| == |Remaining(Merged(players, UpdatedPlayers(os), cur))|
  {
    hide RoundsInOrder, UpdatedPlayers, Winners, OutcomeFor;
    var merged := Merged(players, UpdatedPlayers(os), cur);
    forall id: UserId
      ensures id in Winners(os) ==> bye != Some(id)
      ensures id in promoted <==> id in Remaining(merged)
    {
      WinnersAre(os, id);
      UpdatedPlayersLookup(os, id);
    }
    WinnersOnce(os);
    AddBye(Winners(os), bye);
    var all := SetOf(promoted);
    assert all == Remaining(merged);
  }

  lemma AddBye(winners: seq<UserId>, bye: Option<UserId>)
    requires NoRepeats(winners) && (bye.Some? ==> bye.value !in winners)
    ensures NoRepeats(winners + if bye.Some? then [bye.value] else [])
  {
    assert forall i :: 0 <= i < |winners| ==> winners[i] in winners;
  }

  /** After the writes everybody has lost or waits for the next round, and database and memory agree on who remains. */
  lemma RoundCloses(players: Players, os: seq<Outcome>, cur: nat, bye: Option<UserId>)
    returns (merged: Players, stored: Players)
    requires cur >= 1 && EveryoneStands(players, cur) && Covered(players, os, cur, bye)
    ensures merged == Merged(players, UpdatedPlayers(os), cur) && stored == BulkWrite(players, os, cur, true)
    ensures merged.Keys == stored.Keys == players.Keys
    ensures Remaining(merged) == Remaining(stored) == InRound(stored, cur + 1)
    ensures EveryoneStands(stored, cur + 1)
    ensures forall id <- stored :: if id in Remaining(merged) then Waiting(stored[id], cur + 1)
            else Out(stored[id], cur + 1)
    ensures var before, losers := players.Keys - InRound(players, cur), ChosenUsers(merged, cur, false);
            before !! losers && before + losers == players.Keys - Remaining(merged)
    ensures ChosenUsers(merged, cur, true) == Remaining(merged)
    ensures players.Keys - Remaining(merged) + Remaining(merged) == players.Keys
  {
    hide BulkWrite, UpdatedPlayers, OutcomeFor;
    merged := Merged(players, UpdatedPlayers(os), cur);
    stored := BulkWrite(players, os, cur, true);
    WriteKeys(players, os, cur, true);
    forall id | id in players
      ensures RoundsInOrder(stored[id])
      ensures stored[id].lostRoundNo == merged[id].lostRoundNo
      ensures if merged[id].lostRoundNo == 0 then Waiting(stored[id], cur + 1) else Out(stored[id], cur + 1)
      ensures Out(players[id], cur) ==> !Chosen(merged[id], cur, false) && !Chosen(merged[id], cur, true)
      ensures Out(players[id], cur) || Chosen(merged[id], cur, false) <==> merged[id].lostRoundNo != 0
    {
      MemoryAgreesWithDatabase(players, os, cur, bye, id);
    }
  }

  /** The next round as EndRound leaves it: winners and bye wait at fresh tables, everybody else is out. */
  lemma NextRoundStands(players: Players, os: seq<Outcome>, cur: nat, bye: Option<UserId>, promoted: seq<UserId>,
                        tables: seq<GameTable>, seatOf: SeatMap, nextBye: Option<UserId>)
    returns (docs: Players, stored: Players)
    requires cur >= 1 && EveryoneStands(players, cur) && Covered(players, os, cur, bye)
    requires Lists(promoted, Remaining(Merged(players, UpdatedPlayers(os), cur)))
    requires FreshTables(promoted, tables, seatOf, nextBye)
    ensures docs == Merged(players, UpdatedPlayers(os), cur) && stored == BulkWrite(players, os, cur, true)
    ensures docs.Keys == stored.Keys == players.Keys
    ensures EveryoneStands(stored, cur + 1) && StandsAt(stored, cur + 1, tables, seatOf, nextBye)
    ensures InRound(stored, cur + 1) == Remaining(docs) == Remaining(stored)
  {
    hide Merged, UpdatedPlayers, BulkWrite, EveryoneStands, Covered, Seated, InRound, Stands, StandsAt;
    docs, stored := RoundCloses(players, os, cur, bye);
    FreshTablesStand(stored, cur + 1, promoted, tables, seatOf, nextBye);
  }

  /** New tables that seat exactly the promoted users, one of them perhaps as the bye. */
  ghost predicate FreshTables(promoted: seq<UserId>, tables: seq<GameTable>, seatOf: SeatMap, bye: Option<UserId>) {
    && Seated(tables, seatOf)
    && (forall t :: 0 <= t < |tables| ==> tables[t].result.None? && |tables[t].players| >= 2)
    && (bye.Some? ==> bye.value !in seatOf)
    && (forall id :: id in promoted <==> id in seatOf || bye == Some(id))
  }

  /** Fresh tables: everybody still in waits at a seat or as the bye. */
  lemma FreshTablesStand(players: Players, cur: nat, promoted: seq<UserId>,
                         tables: seq<GameTable>, seatOf: SeatMap, bye: Option<UserId>)
    requires FreshTables(promoted, tables, seatOf, bye)
    requires forall id <- promoted :: id in players
    requires forall id <- players :: if id in promoted then Waiting(players[id], cur) else Out(players[id], cur)
    ensures StandsAt(players, cur, tables, seatOf, bye)
  {
  }

  lemma ByeWaits(players: Players, cur: nat, tables: seq<GameTable>, seatOf: SeatMap, bye: Option<UserId>)
    requires StandsAt(players, cur, tables, seatOf, bye)
    ensures bye.Some? ==> bye.value in players && Waiting(players[bye.value], cur)
  {
    if bye.Some? {
      assert Stands(players[bye.value], bye.value, cur, tables, seatOf, bye);
    }
  }

  /** A running table keeps at least two users in the tournament. */
  lemma RunningTableRemains(players: Players, cur: nat, tables: seq<GameTable>, seatOf: SeatMap, bye: Option<UserId>,
                            u: nat)
    requires StandsAt(players, cur, tables, seatOf, bye) && u < |tables| && tables[u].result.None?
    ensures |Remaining(players)| >= 2
  {
    assert IsSeat(tables, u, 0) && IsSeat(tables, u, 1);
    var a, b := tables[u].players[0].userId, tables[u].players[1].userId;
    assert Stands(players[a], a, cur, tables, seatOf, bye) && Stands(players[b], b, cur, tables, seatOf, bye);
    assert {a, b} <= Remaining(players);
    SubsetSize({a, b}, Remaining(players));
  }

  lemma OneRoundLeft(n: nat, k: nat)
    requires k >= 2 && Rounds(n, k) == 1
    ensures n <= k
  {
    CeilDivShrinks(n, k);
    assert CeilDiv(n, k) <= 1;
  }

  /** Results that are all stored already change nobody's standing. */
  lemma StoredResultsChangeNothing(players: Players, os: seq<Outcome>, cur: nat, bye: Option<UserId>)
    requires cur >= 1 && Covered(players, os, cur, bye) && EveryoneStands(players, cur)
    requires forall o <- os :: o.userId in players && players[o.userId].lastPlayedRoundNo == cur
    ensures BulkWrite(players, os, cur, true) == players
  {
    hide BulkWrite, UpdatedPlayers;
    var stored := BulkWrite(players, os, cur, true);
    WriteKeys(players, os, cur, true);
    forall id | id in players
      ensures stored[id] == players[id]
    {
      BulkWriteIsPointwise(players, os, cur, true, id);
    }
  }

  /** The result that decides the tournament covers the round by itself. */
  lemma DecisiveTable(players: Players, cur: nat, tables: seq<GameTable>, seatOf: SeatMap, bye: Option<UserId>, t: nat)
    returns (os: seq<Outcome>)
    requires cur >= 1 && EveryoneStands(players, cur) && StandsAt(players, cur, tables, seatOf, bye)
    requires t < |tables| && tables[t].result.Some?
    requires |Remaining(players)| <= 1 || |tables| == 1
    ensures os == AllOutcomes([RoundEndResult(t, tables[t].players, tables[t].result.value)])
    ensures Covered(players, os, cur, bye)
    ensures BulkWrite(players, os, cur, true) == players
    ensures Remaining(Merged(players, UpdatedPlayers(os), cur)) == Remaining(players)
  {
    hide EveryoneStands, StandsAt, Covered, BulkWrite, OutcomesOf, Remaining, Merged, UpdatedPlayers;
    var result := RoundEndResult(t, tables[t].players, tables[t].result.value);
    os := OutcomesOf(result);
    assert [result][..0] == [];
    assert AllOutcomes([result]) == AllOutcomes([]) + os == os;
    forall u | 0 <= u < |tables|
      ensures tables[u].result.Some?
    {
      if tables[u].result.None? {
        RunningTableRemains(players, cur, tables, seatOf, bye, u);
      }
    }
    LastTableCovers(players, cur, tables, seatOf, bye, t);
    StoredResultsChangeNothing(players, os, cur, bye);
    var _, _ := RoundCloses(players, os, cur, bye);
  }

  function Newcomers(ids: seq<UserId>): Players {
    map id | id in ids :: Player(0, 0, 0, [])
  }

  /** Round 1: everybody waits at a fresh table or as the bye, nobody is ranked. */
  lemma FirstRound(ids: seq<UserId>, tables: seq<GameTable>, seatOf: SeatMap, bye: Option<UserId>)
    returns (players: Players)
    requires NoRepeats(ids) && FreshTables(ids, tables, seatOf, bye)
    ensures players == Newcomers(ids) && Lists(ids, players.Keys)
    ensures EveryoneStands(players, 1) && StandsAt(players, 1, tables, seatOf, bye)
    ensures |InRound(players, 1)| == |ids|
    ensures RankedAre([], players.Keys - InRound(players, 1)) && DistinctCandidates(AllCandidates([]))
  {
    hide FreshTables, StandsAt;
    players := Newcomers(ids);
    FreshTablesStand(players, 1, ids, tables, seatOf, bye);
    var all := SetOf(ids);
    assert InRound(players, 1) == all;
  }
}
