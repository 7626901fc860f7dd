/** The tournament leaderboard over a whole run: batches ranked one after another, worst players first. */
module Standings {
  import opened TournamentMath
  import opened Leaderboard

  /** The players ranked together at one moment. */
  datatype Batch = Batch(candidates: seq<Candidate>, roundNo: nat)

  /** The leaderboard after the given batches, with `joined` players in the tournament. */
  function Board(joined: nat, prizes: seq<WinningPrize>, history: seq<Batch>): seq<Entry> {
    if history == [] then [] else
      var n := |history| - 1;
      var front := Board(joined, prizes, history[..n]);
      front + RankedBatch(history[n].candidates, joined, |front|, prizes, history[n].roundNo)
  }

  function AllCandidates(history: seq<Batch>): seq<Candidate> {
    if history == [] then [] else
      AllCandidates(history[..|history| - 1]) + history[|history| - 1].candidates
  }

  /** The leaderboard grows by the batch just ranked. */
  lemma {:induction false} BoardGrows(joined: nat, prizes: seq<WinningPrize>, history: seq<Batch>, batch: Batch)
    ensures Board(joined, prizes, history + [batch]) ==
            (var front := Board(joined, prizes, history);
             front + RankedBatch(batch.candidates, joined, |front|, prizes, batch.roundNo))
    ensures AllCandidates(history + [batch]) == AllCandidates(history) + batch.candidates
  {
    hide RankedBatch;
    assert (history + [batch])[..|history|] == history;
  }

  /** The leaderboard holds exactly the ranked players, with the scores they were ranked by. */
  lemma {:induction false} BoardKeepsPlayers(joined: nat, prizes: seq<WinningPrize>, history: seq<Batch>)
    ensures |Board(joined, prizes, history)| == |AllCandidates(history)|
    ensures multiset(AsCandidates(Board(joined, prizes, history))) == multiset(AllCandidates(history))
  {
    hide RankedBatch;
    if history != [] {
      var n := |history| - 1;
      BoardKeepsPlayers(joined, prizes, history[..n]);
      var front := Board(joined, prizes, history[..n]);
      var last := BatchIsCompetitionRanked(history[n].candidates, joined, |front|, prizes, history[n].roundNo);
      assert AsCandidates(front + last) == AsCandidates(front) + AsCandidates(last);
    }
  }

  // ---------- ranks over the whole run ----------

  lemma {:induction false} HigherBound(s: seq<Entry>, n: nat, score: int)
    requires n <= |s|
    ensures Higher(s, n, score) <= n
    ensures (exists j :: 0 <= j < n && s[j].score <= score) ==> Higher(s, n, score) < n
  {
    if n > 0 {
      HigherBound(s, n - 1, score);
    }
  }

  /** Ranks of a batch lie just above the ranks left for the players outside it. */
  lemma BatchRankRange(entries: seq<Entry>, outside: int)
    requires CompetitionRanked(entries, outside)
    ensures forall e <- entries :: outside < e.rank <= outside + |entries|
  {
    forall i | 0 <= i < |entries|
      ensures outside < entries[i].rank <= outside + |entries|
    {
      HigherBound(entries, |entries|, entries[i].score);
    }
  }

  lemma {:induction false} BoardRankRange(joined: nat, prizes: seq<WinningPrize>, history: seq<Batch>)
    ensures var board := Board(joined, prizes, history);
            forall e <- board :: joined - |board| < e.rank <= joined
  {
    hide RankedBatch;
    if history != [] {
      var n := |history| - 1;
      BoardRankRange(joined, prizes, history[..n]);
      var front := Board(joined, prizes, history[..n]);
      var last := BatchIsCompetitionRanked(history[n].candidates, joined, |front|, prizes, history[n].roundNo);
      BatchRankRange(last, joined - |front| - |last|);
    }
  }

  /** Everybody ranked in a later batch is strictly better placed than everybody ranked before. */
  lemma {:induction false} LaterBatchIsBetter(joined: nat, prizes: seq<WinningPrize>, history: seq<Batch>, m: nat)
    requires m <= |history|
    ensures var earlier, all := Board(joined, prizes, history[..m]), Board(joined, prizes, history);
            && earlier <= all
            && forall i, j :: 0 <= i < |earlier| <= j < |all| ==> all[j].rank < all[i].rank
  {
    hide RankedBatch;
    var n := |history| - 1;
    if m == |history| {
      assert history[..m] == history;
    } else {
      LaterBatchIsBetter(joined, prizes, history[..n], m);
      assert history[..n][..m] == history[..m];
      var front := Board(joined, prizes, history[..n]);
      BoardRankRange(joined, prizes, history[..n]);
      var last := BatchIsCompetitionRanked(history[n].candidates, joined, |front|, prizes, history[n].roundNo);
      BatchRankRange(last, joined - |front| - |last|);
      assert forall i :: 0 <= i < |front| ==> front[i] in front;
      assert forall j :: 0 <= j < |last| ==> last[j] in last;
    }
  }

  /** How many of the first n entries are better placed than the given rank. */
  function Better(s: seq<Entry>, n: nat, rank: int): nat
    requires n <= |s|
  {
    if n == 0 then 0 else Better(s, n - 1, rank) + if s[n - 1].rank < rank then 1 else 0
  }

  lemma {:induction false} BetterConcat(s: seq<Entry>, t: seq<Entry>, n: nat, rank: int)
    requires n <= |t|
    ensures Better(s + t, |s| + n, rank) == Better(s + t, |s|, rank) + Better(t, n, rank)
  {
    if n > 0 {
      BetterConcat(s, t, n - 1, rank);
    }
  }

  lemma {:induction false} BetterPrefix(s: seq<Entry>, t: seq<Entry>, n: nat, rank: int)
    requires n <= |s| && s <= t
    ensures Better(t, n, rank) == Better(s, n, rank)
    ensures (forall j :: 0 <= j < n ==> s[j].rank < rank) ==> Better(s, n, rank) == n
    ensures (forall j :: 0 <= j < n ==> s[j].rank >= rank) ==> Better(s, n, rank) == 0
  {
    if n > 0 {
      BetterPrefix(s, t, n - 1, rank);
    }
  }

  /** Higher scores leave fewer players above them. */
  lemma {:induction false} HigherIsStrict(s: seq<Entry>, n: nat, a: int, b: int)
    requires n <= |s| && a < b
    ensures Higher(s, n, b) <= Higher(s, n, a)
    ensures (exists j :: 0 <= j < n && s[j].score == b) ==> Higher(s, n, b) < Higher(s, n, a)
  {
    if n > 0 {
      HigherIsStrict(s, n - 1, a, b);
    }
  }

  lemma {:induction false} BetterIsHigher(s: seq<Entry>, outside: int, n: nat, i: nat)
    requires CompetitionRanked(s, outside) && n <= |s| && i < |s|
    ensures Better(s, n, s[i].rank) == Higher(s, n, s[i].score)
  {
    if n > 0 {
      BetterIsHigher(s, outside, n - 1, i);
      var a, b := s[n - 1].score, s[i].score;
      assert s[n - 1].rank == outside + 1 + Higher(s, |s|, a) && s[i].rank == outside + 1 + Higher(s, |s|, b);
      if a < b {
        HigherIsStrict(s, |s|, a, b);
      } else if b < a {
        HigherIsStrict(s, |s|, b, a);
      }
    }
  }

  /** A batch appended to a ranked leaderboard leaves it ranked. */
  lemma AppendKeepsRanking(joined: nat, front: seq<Entry>, last: seq<Entry>, i: nat)
    requires i < |front| + |last|
    requires CompetitionRanked(last, joined - |front| - |last|)
    requires forall e <- front :: e.rank > joined - |front|
    requires i < |front| ==> front[i].rank == joined - |front| + 1 + Better(front, |front|, front[i].rank)
    ensures var board := front + last;
            board[i].rank == joined - |board| + 1 + Better(board, |board|, board[i].rank)
  {
    var board := front + last;
    var rank := board[i].rank;
    BatchRankRange(last, joined - |front| - |last|);
    BetterConcat(front, last, |last|, rank);
    BetterPrefix(front, board, |front|, rank);
    BetterPrefix(last, last, |last|, rank);
    if i < |front| {
      assert forall j :: 0 <= j < |last| ==> last[j] in last;
    } else {
      BetterIsHigher(last, joined - |front| - |last|, |last|, i - |front|);
      assert last[i - |front|] in last;
      assert forall j :: 0 <= j < |front| ==> front[j] in front;
    }
  }

  /** Competition ranking of the run: a rank is 1 + the players not ranked yet + the entries better placed. */
  lemma {:induction false} RunIsCompetitionRanked(joined: nat, prizes: seq<WinningPrize>, history: seq<Batch>, i: nat)
    requires i < |Board(joined, prizes, history)|
    ensures var board := Board(joined, prizes, history);
            board[i].rank == joined - |board| + 1 + Better(board, |board|, board[i].rank)
  {
    hide RankedBatch;
    var n := |history| - 1;
    var front := Board(joined, prizes, history[..n]);
    var last := BatchIsCompetitionRanked(history[n].candidates, joined, |front|, prizes, history[n].roundNo);
    BoardRankRange(joined, prizes, history[..n]);
    if i < |front| {
      RunIsCompetitionRanked(joined, prizes, history[..n], i);
    }
    AppendKeepsRanking(joined, front, last, i);
  }

  // ---------- prize money over the whole run ----------

  function TiedTotal(history: seq<Batch>): nat {
    if history == [] then 0 else
      TiedTotal(history[..|history| - 1]) + Tied(history[|history| - 1].candidates)
  }

  lemma {:induction false} WinSumShift(s: seq<Entry>, t: seq<Entry>, n: nat)
    requires n <= |t|
    ensures WinSum(s + t, |s|, |s| + n) == WinSum(t, 0, n)
  {
    if n > 0 {
      WinSumShift(s, t, n - 1);
    }
  }

  lemma WinSumAppend(s: seq<Entry>, t: seq<Entry>)
    ensures WinSum(s + t, 0, |s + t|) == WinSum(s, 0, |s|) + WinSum(t, 0, |t|)
  {
    WinSumSplit(s + t, 0, |s|, |s + t|);
    WinSumShift(s, t, |t|);
    SameWinSum(s + t[..0], s, 0, |s|);
    WinSumPrefix(s, t, |s|);
  }

  lemma {:induction false} WinSumPrefix(s: seq<Entry>, t: seq<Entry>, n: nat)
    requires n <= |s|
    ensures WinSum(s + t, 0, n) == WinSum(s, 0, n)
  {
    if n > 0 {
      WinSumPrefix(s, t, n - 1);
    }
  }

  /** Appending a batch adds its money and its worth. */
  lemma AppendMoney(joined: nat, prizes: seq<WinningPrize>, front: seq<Entry>, last: seq<Entry>, paid: nat, worth: nat)
    returns (board: seq<Entry>, allPaid: nat, allWorth: nat)
    requires paid == WinSum(front, 0, |front|) && worth == PrizeSum(prizes, joined - |front|, joined)
    ensures board == front + last
    ensures allPaid == paid + WinSum(last, 0, |last|) && allPaid == WinSum(board, 0, |board|)
    ensures allWorth == worth + PrizeSum(prizes, joined - |front| - |last|, joined - |front|)
    ensures allWorth == PrizeSum(prizes, joined - |board|, joined)
  {
    WinSumAppend(front, last);
    PrizeSumSplit(prizes, joined - |front| - |last|, joined - |front|, joined);
    board := front + last;
    allPaid := WinSum(board, 0, |board|);
    allWorth := PrizeSum(prizes, joined - |board|, joined);
    assert joined - |board| == joined - |front| - |last|;
  }

  /** What the run has paid is what the ranks taken are worth, up to half a paisa per tied player. */
  lemma {:induction false} RunConserves(joined: nat, prizes: seq<WinningPrize>, history: seq<Batch>)
    returns (board: seq<Entry>, paid: nat, worth: nat)
    ensures board == Board(joined, prizes, history)
    ensures paid == WinSum(board, 0, |board|)
    ensures worth == PrizeSum(prizes, joined - |board|, joined)
    ensures Within(2 * paid - 2 * worth, TiedTotal(history))
  {
    hide RankedBatch;
    if history == [] {
      board, paid, worth := [], 0, 0;
    } else {
      var n := |history| - 1;
      var batch := history[n];
      var front, frontPaid, frontWorth := RunConserves(joined, prizes, history[..n]);
      var last := RankedBatch(batch.candidates, joined, |front|, prizes, batch.roundNo);
      var lastPaid, lastWorth := BatchConserves(batch.candidates, joined, |front|, prizes, batch.roundNo);
      board, paid, worth := AppendMoney(joined, prizes, front, last, frontPaid, frontWorth);
    }
  }

  /**
   * Over a whole tournament the credited prizes are the advertised total: exactly without ties, else to half a paisa
   * each.
   */
  lemma WholeTournamentConserves(joined: nat, prizes: seq<WinningPrize>, history: seq<Batch>)
    requires WellFormedBands(prizes, joined)
    requires |AllCandidates(history)| == joined
    ensures var board := Board(joined, prizes, history);
            && |board| == joined
            && Within(2 * WinSum(board, 0, |board|) - 2 * BandTotal(prizes), TiedTotal(history))
            && (TiedTotal(history) == 0 ==> WinSum(board, 0, |board|) == BandTotal(prizes))
  {
    hide WinSum, PrizeSum, Board, BandTotal, TiedTotal, AllCandidates, WellFormedBands;
    BoardKeepsPlayers(joined, prizes, history);
    AllRanksPayTheTotal(prizes, joined);
    var _, paid, worth := RunConserves(joined, prizes, history);
  }
}
