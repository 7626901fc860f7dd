/** What a tournament stores about its players and tables, and how round results are written to it. */
module RoundRecords {
  import opened Options
  import opened Pairing
  import opened Leaderboard
  import opened Sequences

  type PlayerId = nat

  datatype Seat = Seat(userId: UserId, playerId: PlayerId)

  datatype PlayedRound = PlayedRound(tableId: nat, roundNo: nat, score: int)

  /** lostRoundNo 0 means still playing. */
  datatype Player = Player(lostRoundNo: nat, lastPlayedRoundNo: nat, lastRoundScore: int, rounds: seq<PlayedRound>)

  type Players = map<UserId, Player>

  datatype GameResult = GameResult(winners: seq<PlayerId>, scores: map<PlayerId, int>)

  /** A table of the current round; it has a result once its game is completed. */
  datatype GameTable = GameTable(players: seq<Seat>, result: Option<GameResult>)

  datatype RoundEndResult = RoundEndResult(tableId: nat, players: seq<Seat>, game: GameResult)

  /** What a result says about one user. */
  datatype Outcome = Outcome(userId: UserId, tableId: nat, won: bool, score: int)

  function OutcomeOf(tableId: nat, seat: Seat, game: GameResult): Outcome {
    Outcome(seat.userId, tableId, seat.playerId in game.winners,
            if seat.playerId in game.scores then game.scores[seat.playerId] else 0)
  }

  function OutcomesOf(result: RoundEndResult): (os: seq<Outcome>)
    ensures |os| == |result.players|
    ensures forall j {:trigger os[j]} :: 0 <= j < |os| ==>
              os[j] == OutcomeOf(result.tableId, result.players[j], result.game)
  {
    seq(|result.players|, j requires 0 <= j < |result.players| =>
      OutcomeOf(result.tableId, result.players[j], result.game))
  }

  function AllOutcomes(results: seq<RoundEndResult>): seq<Outcome> {
    if results == [] then [] else
      AllOutcomes(results[..|results| - 1]) + OutcomesOf(results[|results| - 1])
  }

  // ---------- writing to the database ----------

  function Record(p: Player, o: Outcome, roundNo: nat): Player {
    p.(rounds := p.rounds + [PlayedRound(o.tableId, roundNo, o.score)],
       lastPlayedRoundNo := roundNo,
       lastRoundScore := o.score,
       lostRoundNo := if o.won then p.lostRoundNo else roundNo)
  }

  /** One updateOne: at the end of a round it skips players who have the round recorded already. */
  function Write(players: Players, o: Outcome, roundNo: nat, onlyNew: bool): Players {
    if o.userId !in players || (onlyNew && players[o.userId].lastPlayedRoundNo == roundNo) then players
    else players[o.userId := Record(players[o.userId], o, roundNo)]
  }

  function BulkWrite(players: Players, os: seq<Outcome>, roundNo: nat, onlyNew: bool): Players {
    if os == [] then players else
      Write(BulkWrite(players, os[..|os| - 1], roundNo, onlyNew), os[|os| - 1], roundNo, onlyNew)
  }

  /** What EndRound sets on the player documents it has loaded. */
  function Merge(p: Player, o: Outcome, roundNo: nat): Player {
    p.(lastPlayedRoundNo := roundNo, lastRoundScore := o.score, lostRoundNo := if o.won then 0 else roundNo)
  }

  function UpdatedPlayers(os: seq<Outcome>): map<UserId, Outcome> {
    if os == [] then map[] else UpdatedPlayers(os[..|os| - 1])[os[|os| - 1].userId := os[|os| - 1]]
  }

  function Merged(players: Players, updated: map<UserId, Outcome>, roundNo: nat): Players {
    map id | id in players :: if id in updated then Merge(players[id], updated[id], roundNo) else players[id]
  }

  function Winners(os: seq<Outcome>): seq<UserId> {
    if os == [] then [] else
      Winners(os[..|os| - 1]) + if os[|os| - 1].won then [os[|os| - 1].userId] else []
  }

  ghost predicate DistinctUsers(os: seq<Outcome>) {
    forall i, j :: 0 <= i < j < |os| ==> os[i].userId != os[j].userId
  }

  /** The outcome of one user, if the results mention the user. */
  function OutcomeFor(os: seq<Outcome>, id: UserId): (o: Option<Outcome>)
    ensures o.Some? ==> o.value in os && o.value.userId == id
    ensures o.None? ==> forall i :: 0 <= i < |os| ==> os[i].userId != id
  {
    if os == [] then None
    else if os[|os| - 1].userId == id then Some(os[|os| - 1])
    else OutcomeFor(os[..|os| - 1], id)
  }

  lemma {:induction false} OutcomeForEach(os: seq<Outcome>, i: nat)
    requires DistinctUsers(os) && i < |os|
    ensures OutcomeFor(os, os[i].userId) == Some(os[i])
  {
    if i < |os| - 1 {
      OutcomeForEach(os[..|os| - 1], i);
    }
  }

  /** With one outcome per user every write lands on its own player, so the order of the writes does not matter. */
  lemma {:induction false} BulkWriteIsPointwise(players: Players, os: seq<Outcome>, roundNo: nat, onlyNew: bool,
                                                id: UserId)
    requires DistinctUsers(os) && id in players
    ensures BulkWrite(players, os, roundNo, onlyNew).Keys == players.Keys
    ensures BulkWrite(players, os, roundNo, onlyNew)[id] ==
            match OutcomeFor(os, id)
            case None => players[id]
            case Some(o) => if onlyNew && players[id].lastPlayedRoundNo == roundNo then players[id]
                            else Record(players[id], o, roundNo)
  {
    hide Record;
    if os != [] {
      BulkWriteIsPointwise(players, os[..|os| - 1], roundNo, onlyNew, id);
    }
  }

  lemma {:induction false} UpdatedPlayersLookup(os: seq<Outcome>, id: UserId)
    ensures id in UpdatedPlayers(os) <==> OutcomeFor(os, id).Some?
    ensures id in UpdatedPlayers(os) ==> Some(UpdatedPlayers(os)[id]) == OutcomeFor(os, id)
  {
    if os != [] {
      UpdatedPlayersLookup(os[..|os| - 1], id);
    }
  }

  /** The promoted users are the winners, each once. */
  lemma {:induction false} WinnersAre(os: seq<Outcome>, id: UserId)
    requires DistinctUsers(os)
    ensures id in Winners(os) <==> OutcomeFor(os, id).Some? && OutcomeFor(os, id).value.won
  {
    if os != [] {
      WinnersAre(os[..|os| - 1], id);
    }
  }

  lemma {:induction false} WinnersOnce(os: seq<Outcome>)
    requires DistinctUsers(os)
    ensures NoRepeats(Winners(os))
    ensures |Winners(os)| <= |os|
  {
    if os != [] {
      var n := |os| - 1;
      WinnersOnce(os[..n]);
      WinnersAre(os[..n], os[n].userId);
      var front := Winners(os[..n]);
      assert forall i :: 0 <= i < |front| ==> front[i] in front;
    }
  }

  // ---------- the rounds of one player ----------

  /** Recorded rounds have strictly increasing numbers, none beyond the last round played. */
  ghost predicate RoundsInOrder(p: Player) {
    && (forall i, j :: 0 <= i < j < |p.rounds| ==> p.rounds[i].roundNo < p.rounds[j].roundNo)
    && (forall i :: 0 <= i < |p.rounds| ==> p.rounds[i].roundNo <= p.lastPlayedRoundNo)
  }

  lemma RecordKeepsOrder(p: Player, o: Outcome, roundNo: nat)
    requires RoundsInOrder(p) && p.lastPlayedRoundNo < roundNo
    ensures RoundsInOrder(Record(p, o, roundNo))
  {
  }

  // ---------- choosing whom to rank ----------

  predicate Chosen(p: Player, roundNo: nat, forWinners: bool) {
    if forWinners then p.lostRoundNo == 0 else p.lastPlayedRoundNo == roundNo && p.lostRoundNo != 0
  }

  /** The players to rank, in the order of their documents. */
  function ToRank(ids: seq<UserId>, players: Players, roundNo: nat, forWinners: bool): seq<Candidate>
  {
    if ids == [] then [] else
      var n := |ids| - 1;
      ToRank(ids[..n], players, roundNo, forWinners) +
      if ids[n] in players &&
          Chosen(players[ids[n]], roundNo, forWinners) then [Candidate(ids[n], players[ids[n]].lastRoundScore)] else []
  }

  ghost predicate DistinctCandidates(cs: seq<Candidate>) {
    forall i, j :: 0 <= i < j < |cs| ==> cs[i].userId != cs[j].userId
  }

  lemma {:induction false} ToRankIs(ids: seq<UserId>, players: Players, roundNo: nat, forWinners: bool)
    requires NoRepeats(ids) && forall id <- ids :: id in players
    ensures var cs := ToRank(ids, players, roundNo, forWinners);
            && DistinctCandidates(cs)
            && (forall c <- cs :: c.userId in ids && Chosen(players[c.userId], roundNo, forWinners)
                                  && c.score == players[c.userId].lastRoundScore)
            && (forall id <- ids :: Chosen(players[id], roundNo, forWinners) ==>
                  Candidate(id, players[id].lastRoundScore) in cs)
  {
    if ids != [] {
      var n := |ids| - 1;
      ToRankIs(ids[..n], players, roundNo, forWinners);
      var front := ToRank(ids[..n], players, roundNo, forWinners);
      forall i | 0 <= i < |front|
        ensures front[i].userId != ids[n]
      {
        assert front[i] in front;
      }
    }
  }

  /** Candidates already on the leaderboard are spliced out. */
  function NotRanked(cs: seq<Candidate>, leaderboard: seq<Entry>): seq<Candidate> {
    if cs == [] then [] else
      (if IsRanked(cs[0], leaderboard) then [] else [cs[0]]) + NotRanked(cs[1..], leaderboard)
  }

  lemma {:induction false} NobodyRankedYet(cs: seq<Candidate>, leaderboard: seq<Entry>)
    requires forall c <- cs, e <- leaderboard :: c.userId != e.userId
    ensures NotRanked(cs, leaderboard) == cs
  {
    if cs != [] {
      assert forall i :: 0 <= i < |leaderboard| ==> leaderboard[i] in leaderboard && cs[0] in cs;
      NobodyRankedYet(cs[1..], leaderboard);
    }
  }

  predicate IsRanked(c: Candidate, leaderboard: seq<Entry>) {
    exists i :: 0 <= i < |leaderboard| && leaderboard[i].userId == c.userId
  }

  lemma NotRankedEnds(cs: seq<Candidate>, leaderboard: seq<Entry>)
    ensures NotRanked(cs[0..], leaderboard) == NotRanked(cs, leaderboard)
    ensures NotRanked(cs[|cs|..], leaderboard) == []
  {
    assert cs[0..] == cs;
  }

  /** A stretch without ranked candidates is kept as it is. */
  lemma {:induction false} KeptStretch(cs: seq<Candidate>, leaderboard: seq<Entry>, lo: nat, hi: nat)
    requires lo <= hi <= |cs|
    requires forall x :: lo <= x < hi ==> !IsRanked(cs[x], leaderboard)
    ensures NotRanked(cs[lo..], leaderboard) == cs[lo..hi] + NotRanked(cs[hi..], leaderboard)
    decreases hi - lo
  {
    if lo < hi {
      KeptStretch(cs, leaderboard, lo + 1, hi);
      assert cs[lo..][1..] == cs[lo + 1..];
      assert cs[lo..hi] == [cs[lo]] + cs[lo + 1..hi];
    }
  }

  /** Splicing out the last ranked candidate before a cut. */
  lemma SpliceOut(cs: seq<Candidate>, leaderboard: seq<Entry>, index: nat, cut: nat)
    requires index < cut <= |cs| && IsRanked(cs[index], leaderboard)
    requires forall x :: index < x < cut ==> !IsRanked(cs[x], leaderboard)
    ensures NotRanked(cs[index..], leaderboard) == cs[index + 1..cut] + NotRanked(cs[cut..], leaderboard)
  {
    KeptStretch(cs, leaderboard, index + 1, cut);
    assert cs[index..][1..] == cs[index + 1..];
  }

  method RankedIndexes(candidates: seq<Candidate>, leaderboard: seq<Entry>) returns (indexes: seq<nat>)
    ensures forall i :: 0 <= i < |indexes| ==>
              indexes[i] < |candidates| && IsRanked(candidates[indexes[i]], leaderboard)
    ensures forall i, j :: 0 <= i < j < |indexes| ==> indexes[i] < indexes[j]
    ensures forall x: nat :: x < |candidates| && IsRanked(candidates[x], leaderboard) ==> x in indexes
  {
    hide IsRanked;
    indexes := [];
    for index := 0 to |candidates|
      invariant forall i :: 0 <= i < |indexes| ==> indexes[i] < index && IsRanked(candidates[indexes[i]], leaderboard)
      invariant forall i, j :: 0 <= i < j < |indexes| ==> indexes[i] < indexes[j]
      invariant forall x: nat :: x < index && IsRanked(candidates[x], leaderboard) ==> x in indexes
    {
      if IsRanked(candidates[index], leaderboard) {
        indexes := indexes + [index];
      }
    }
  }

  /** Collects the indexes to remove and splices them out, greatest first. */
  method RemoveRanked(candidates: seq<Candidate>, leaderboard: seq<Entry>) returns (kept: seq<Candidate>)
    ensures kept == NotRanked(candidates, leaderboard)
  {
    hide NotRanked, IsRanked;
    NotRankedEnds(candidates, leaderboard);
    var indexesToRemove := RankedIndexes(candidates, leaderboard);
    kept := candidates;
    var m := |indexesToRemove|;
    ghost var cut: nat := |candidates|;
    while m > 0
      invariant 0 <= m <= |indexesToRemove| && 0 <= cut <= |candidates|
      invariant forall i :: 0 <= i < m ==> indexesToRemove[i] < cut
      invariant forall x: nat :: x < cut && IsRanked(candidates[x], leaderboard) ==> x in indexesToRemove[..m]
      invariant kept == candidates[..cut] + NotRanked(candidates[cut..], leaderboard)
    {
      m := m - 1;
      var index := indexesToRemove[m];
      SpliceOut(candidates, leaderboard, index, cut);
      kept := kept[..index] + kept[index + 1..];
      cut := index;
    }
    KeptStretch(candidates, leaderboard, 0, cut);
  }
}
