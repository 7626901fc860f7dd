/** Ranking one batch of tournament players: sort by score, hand out ranks from the bottom, share ties. */
module Leaderboard {
  import opened TournamentMath
  import opened Pairing
  import Sorting

  datatype Candidate = Candidate(userId: UserId, score: int)

  datatype Entry = Entry(userId: UserId, score: int, rank: int, winAmount: nat, roundNo: nat)

  // ---------- sorting ----------

  ghost predicate SortedByScore(s: seq<Candidate>) {
    forall i, j :: 0 <= i < j < |s| ==> s[i].score <= s[j].score
  }

  function ScoreOf(c: Candidate): int { c.score }

  function SortByScore(s: seq<Candidate>): seq<Candidate> {
    Sorting.SortBy(ScoreOf, s)
  }

  /** The sort permutes and sorts. */
  lemma SortSorts(s: seq<Candidate>)
    ensures SortedByScore(SortByScore(s))
    ensures multiset(SortByScore(s)) == multiset(s)
    ensures |SortByScore(s)| == |s|
  {
    Sorting.SortSorts(ScoreOf, s);
    var r := SortByScore(s);
    forall i, j | 0 <= i < j < |r|
      ensures r[i].score <= r[j].score
    {
      assert ScoreOf(r[i]) <= ScoreOf(r[j]);
    }
  }

  // ---------- ties ----------

  /** [lo, hi) is a maximal stretch of equal scores. */
  ghost predicate IsTie(s: seq<Entry>, lo: int, hi: int) {
    && 0 <= lo < hi <= |s|
    && (forall j :: lo <= j < hi ==> s[j].score == s[lo].score)
    && (lo > 0 ==> s[lo - 1].score != s[lo].score)
    && (hi < |s| ==> s[hi].score != s[lo].score)
  }

  function TieStart(s: seq<Entry>, i: nat): (lo: nat)
    requires i < |s|
    ensures lo <= i && (forall j :: lo <= j <= i ==> s[j].score == s[i].score)
    ensures lo > 0 ==> s[lo - 1].score != s[i].score
  {
    if i == 0 || s[i - 1].score != s[i].score then i else TieStart(s, i - 1)
  }

  function TieEnd(s: seq<Entry>, i: nat): (hi: nat)
    requires i < |s|
    ensures i < hi <= |s| && (forall j :: i <= j < hi ==> s[j].score == s[i].score)
    ensures hi < |s| ==> s[hi].score != s[i].score
    decreases |s| - i
  {
    if i + 1 == |s| || s[i + 1].score != s[i].score then i + 1 else TieEnd(s, i + 1)
  }

  /** There is one tie around each position. */
  lemma TieIsUnique(s: seq<Entry>, lo: nat, hi: nat, i: nat)
    requires IsTie(s, lo, hi) && lo <= i < hi
    ensures TieStart(s, i) == lo && TieEnd(s, i) == hi
  {
    StartIs(s, lo, hi, i);
    EndIs(s, lo, hi, i);
  }

  lemma {:induction false} StartIs(s: seq<Entry>, lo: nat, hi: nat, i: nat)
    requires IsTie(s, lo, hi) && lo <= i < hi
    ensures TieStart(s, i) == lo
  {
    if lo < i {
      StartIs(s, lo, hi, i - 1);
    }
  }

  lemma {:induction false} EndIs(s: seq<Entry>, lo: nat, hi: nat, i: nat)
    requires IsTie(s, lo, hi) && lo <= i < hi
    ensures TieEnd(s, i) == hi
    decreases hi - i
  {
    if i + 1 < hi {
      EndIs(s, lo, hi, i + 1);
    }
  }

  /** Money won in positions lo .. hi - 1. */
  function WinSum(s: seq<Entry>, lo: int, hi: int): nat
    requires 0 <= lo && hi <= |s|
    decreases hi - lo
  {
    if hi <= lo then 0 else WinSum(s, lo, hi - 1) + s[hi - 1].winAmount
  }

  /** Big division followed by toFixed(2), in paise: round half up. Recursive, to keep division out of the proofs. */
  function RoundHalfUp(sum: nat, count: nat): nat
    requires count >= 1
    decreases sum
  {
    if sum >= count then 1 + RoundHalfUp(sum - count, count)
    else if 2 * sum >= count then 1 else 0
  }

  lemma {:induction false} RoundHalfUpIsQuotient(sum: nat, count: nat)
    requires count >= 1
    ensures RoundHalfUp(sum, count) == (2 * sum + count) / (2 * count)
    decreases sum
  {
    var q := (2 * sum + count) / (2 * count);
    if sum >= count {
      RoundHalfUpIsQuotient(sum - count, count);
      var r := (2 * sum + count) % (2 * count);
      assert 2 * sum + count == q * (2 * count) + r;
      DivModUnique(2 * (sum - count) + count, 2 * count, q - 1, r);
    } else if 2 * sum >= count {
      DivModUnique(2 * sum + count, 2 * count, 1, 2 * sum - count);
    } else {
      DivModUnique(2 * sum + count, 2 * count, 0, 2 * sum + count);
    }
  }

  /** A tied player takes the best rank of the tie and the average of its prizes. */
  function Shared(s: seq<Entry>, i: nat): Entry
    requires i < |s|
  {
    var lo, hi := TieStart(s, i), TieEnd(s, i);
    s[i].(rank := s[hi - 1].rank, winAmount := RoundHalfUp(WinSum(s, lo, hi), hi - lo))
  }

  function ShareTies(s: seq<Entry>): (r: seq<Entry>)
    ensures |r| == |s| && forall i {:trigger r[i]} :: 0 <= i < |s| ==> r[i] == Shared(s, i)
  {
    seq(|s|, i requires 0 <= i < |s| => Shared(s, i))
  }

  /** The sorted batch with ranks counted down from `top` and the prize of each rank. */
  function CountedDown(s: seq<Candidate>, top: int, prizes: seq<WinningPrize>, roundNo: nat): (r: seq<Entry>)
    ensures |r| == |s|
    ensures forall i :: 0 <= i < |s| ==>
              r[i] == Entry(s[i].userId, s[i].score, top - i, CalculateWinAmount(prizes, top - i), roundNo)
  {
    seq(|s|, i requires 0 <= i < |s| =>
      Entry(s[i].userId, s[i].score, top - i, CalculateWinAmount(prizes, top - i), roundNo))
  }

  /** The entries one batch adds when `joined` players joined and `taken` of them are ranked already. */
  function RankedBatch(batch: seq<Candidate>, joined: nat, taken: nat, prizes: seq<WinningPrize>,
                       roundNo: nat): seq<Entry> {
    ShareTies(CountedDown(SortByScore(batch), joined - taken, prizes, roundNo))
  }

  // ---------- the algorithm ----------

  method RankBatch(batch: seq<Candidate>, joined: nat, taken: nat, prizes: seq<WinningPrize>, roundNo: nat)
    returns (entries: seq<Entry>)
    ensures entries == RankedBatch(batch, joined, taken, prizes, roundNo)
  {
    var sorted := SortByScore(batch);
    var rankToAssign := joined - taken;
    var ranks: seq<int> := [];
    for i := 0 to |sorted|
      invariant rankToAssign == joined - taken - i
      invariant |ranks| == i && forall j :: 0 <= j < i ==> ranks[j] == joined - taken - j
    {
      ranks := ranks + [rankToAssign];
      rankToAssign := rankToAssign - 1;
    }
    var board := new Entry[|sorted|](i requires 0 <= i < |sorted| && |ranks| == |sorted| =>
      Entry(sorted[i].userId, sorted[i].score, ranks[i], CalculateWinAmount(prizes, ranks[i]), roundNo));
    assert board[..] == CountedDown(sorted, joined - taken, prizes, roundNo);
    HandleSameScores(board);
    entries := board[..];
  }

  method HandleSameScores(board: array<Entry>)
    modifies board
    ensures board[..] == ShareTies(old(board[..]))
  {
    ghost var begin := board[..];
    var index := 0;
    while index < board.Length
      invariant 0 <= index <= board.Length
      invariant forall j {:trigger Shared(begin, j)} :: 0 <= j < index ==> board[j] == Shared(begin, j)
      invariant forall j :: index <= j < board.Length ==> board[j] == begin[j]
      invariant 0 < index < board.Length ==> begin[index - 1].score != begin[index].score
    {
      var sameScoreCount := TieFrom(board, index);
      NextTie(begin, board[..], index, sameScoreCount);
      if sameScoreCount > 1 {
        ShareInPlace(board, index, sameScoreCount);
      }
      index := index + sameScoreCount;
    }
  }

  method TieFrom(board: array<Entry>, index: nat) returns (sameScoreCount: nat)
    requires index < board.Length
    ensures 1 <= sameScoreCount <= board.Length - index
    ensures forall j :: index <= j < index + sameScoreCount ==> board[j].score == board[index].score
    ensures index + sameScoreCount < board.Length ==> board[index + sameScoreCount].score != board[index].score
  {
    sameScoreCount := 1;
    while index + sameScoreCount < board.Length && board[index].score == board[index + sameScoreCount].score
      invariant 1 <= sameScoreCount <= board.Length - index
      invariant forall j :: index <= j < index + sameScoreCount ==> board[j].score == board[index].score
    {
      sameScoreCount := sameScoreCount + 1;
    }
  }

  lemma NextTie(begin: seq<Entry>, now: seq<Entry>, index: nat, count: nat)
    requires index + count <= |begin| == |now| && count >= 1
    requires forall j :: index <= j < |begin| ==> now[j] == begin[j]
    requires IsTie(begin, index, index + count)
    ensures WinSum(now, index, index + count) == WinSum(begin, index, index + count)
    ensures forall j {:trigger Shared(begin, j)} :: index <= j < index + count ==>
              Shared(begin, j) == begin[j].(rank := begin[index + count - 1].rank,
                winAmount := RoundHalfUp(WinSum(begin, index, index + count), count))
    ensures count == 1 ==> Shared(begin, index) == begin[index]
  {
    SameWinSum(begin, now, index, index + count);
    forall j | index <= j < index + count
      ensures TieStart(begin, j) == index && TieEnd(begin, j) == index + count
    {
      TieIsUnique(begin, index, index + count, j);
    }
    if count == 1 {
      assert WinSum(begin, index, index + 1) == WinSum(begin, index, index) + begin[index].winAmount;
      AloneKeepsPrize(begin[index].winAmount);
    }
  }

  lemma {:induction false} SameWinSum(s: seq<Entry>, t: seq<Entry>, lo: nat, hi: nat)
    requires lo <= hi <= |s| == |t| && forall j :: lo <= j < hi ==> s[j] == t[j]
    ensures WinSum(s, lo, hi) == WinSum(t, lo, hi)
    decreases hi - lo
  {
    if lo < hi {
      SameWinSum(s, t, lo, hi - 1);
    }
  }

  method ShareInPlace(board: array<Entry>, index: nat, count: nat)
    requires count > 1 && index + count <= board.Length
    modifies board
    ensures forall j :: 0 <= j < board.Length ==>
      board[j] == if index <= j < index + count then
                    old(board[j]).(rank := old(board[index + count - 1].rank),
                      winAmount := RoundHalfUp(WinSum(old(board[..]), index, index + count), count))
                  else old(board[j])
  {
    ghost var begin := board[..];
    var sum := 0;
    for i := 0 to count
      invariant sum == WinSum(begin, index, index + i)
    {
      sum := sum + board[index + i].winAmount;
    }
    var average := RoundHalfUp(sum, count);
    for i := 0 to count
      invariant forall j :: 0 <= j < board.Length ==>
        board[j] == if index <= j < index + i then begin[j].(winAmount := average) else begin[j]
    {
      board[index + i] := board[index + i].(winAmount := average);
    }
    var best := board[index + count - 1].rank;
    for i := 0 to count - 1
      invariant forall j :: 0 <= j < board.Length ==>
        board[j] == if index <= j < index + i then begin[j].(winAmount := average, rank := best)
                    else if index <= j < index + count then begin[j].(winAmount := average)
                    else begin[j]
    {
      board[index + i] := board[index + i].(rank := best);
    }
  }

  // ---------- what a batch looks like ----------

  ghost predicate Ascending(s: seq<Entry>) {
    forall i, j :: 0 <= i < j < |s| ==> s[i].score <= s[j].score
  }

  /** How many of the first n entries score strictly higher. */
  function Higher(s: seq<Entry>, n: nat, score: int): nat
    requires n <= |s|
  {
    if n == 0 then 0 else Higher(s, n - 1, score) + if s[n - 1].score > score then 1 else 0
  }

  lemma {:induction false} HigherIsSuffix(s: seq<Entry>, n: nat, hi: nat, score: int)
    requires n <= |s|
    requires forall j :: 0 <= j < |s| ==> (s[j].score > score <==> j >= hi)
    ensures Higher(s, n, score) == if n <= hi then 0 else n - hi
  {
    if n > 0 {
      HigherIsSuffix(s, n - 1, hi, score);
    }
  }

  /** Competition ranking inside a batch: 1 + everyone better outside the batch + strictly higher scores inside. */
  lemma SharedRank(s: seq<Entry>, top: int, i: nat)
    requires Ascending(s) && i < |s|
    requires forall j {:trigger s[j].rank} :: 0 <= j < |s| ==> s[j].rank == top - j
    ensures Shared(s, i).rank == top - |s| + 1 + Higher(s, |s|, s[i].score)
  {
    var hi := TieEnd(s, i);
    HigherThanTie(s, hi, s[i].score);
  }

  lemma HigherThanTie(s: seq<Entry>, hi: nat, score: int)
    requires Ascending(s) && 0 < hi <= |s|
    requires s[hi - 1].score == score && (hi < |s| ==> s[hi].score != score)
    ensures Higher(s, |s|, score) == |s| - hi
  {
    forall j | 0 <= j < |s|
      ensures s[j].score > score <==> j >= hi
    {
      assert j < hi - 1 ==> s[j].score <= s[hi - 1].score;
      assert hi < j ==> s[hi].score <= s[j].score;
    }
    HigherIsSuffix(s, |s|, hi, score);
  }

  /** Equal scores win the same rank and prize. */
  lemma SharedPrize(s: seq<Entry>, i: nat, j: nat)
    requires Ascending(s) && i < j < |s| && s[i].score == s[j].score
    ensures Shared(s, i).rank == Shared(s, j).rank && Shared(s, i).winAmount == Shared(s, j).winAmount
  {
    var lo, hi := TieStart(s, i), TieEnd(s, i);
    assert hi < |s| ==> s[i].score < s[hi].score;
    TieIsUnique(s, lo, hi, j);
  }

  /** How many of the entries from position b on stand in a tie of at least two. */
  function TiedFrom(s: seq<Entry>, b: nat): nat
    requires b <= |s|
    decreases |s| - b
  {
    if b == |s| then 0 else
      var hi := TieEnd(s, b);
      (if hi - b > 1 then hi - b else 0) + TiedFrom(s, hi)
  }

  lemma {:induction false} WinSumSplit(s: seq<Entry>, lo: nat, mid: nat, hi: nat)
    requires lo <= mid <= hi <= |s|
    ensures WinSum(s, lo, hi) == WinSum(s, lo, mid) + WinSum(s, mid, hi)
    decreases hi - mid
  {
    if mid < hi {
      WinSumSplit(s, lo, mid, hi - 1);
    }
  }

  lemma {:induction false} WinSumConstant(s: seq<Entry>, lo: nat, hi: nat, amount: nat)
    requires lo <= hi <= |s| && forall j :: lo <= j < hi ==> s[j].winAmount == amount
    ensures WinSum(s, lo, hi) == (hi - lo) * amount
    decreases hi - lo
  {
    if lo < hi {
      WinSumConstant(s, lo, hi - 1, amount);
    }
  }

  predicate Within(difference: int, bound: nat) {
    -(bound as int) <= difference <= bound
  }

  /** Rounding moves at most half a paisa per sharer. */
  lemma {:induction false} RoundingError(sum: nat, count: nat)
    requires count >= 1
    ensures Within(2 * (count * RoundHalfUp(sum, count)) - 2 * sum, count)
    decreases sum
  {
    if sum >= count {
      RoundingError(sum - count, count);
      var q := RoundHalfUp(sum - count, count);
      assert count * (1 + q) == count + count * q;
    }
  }

  lemma {:induction false} AloneKeepsPrize(sum: nat)
    ensures RoundHalfUp(sum, 1) == sum
  {
    if sum > 0 {
      AloneKeepsPrize(sum - 1);
    }
  }

  /** Sharing ties conserves prize money up to half a paisa per tied player, exactly when nobody ties. */
  lemma {:induction false} SharingConserves(s: seq<Entry>, b: nat)
    requires b <= |s| && (0 < b < |s| ==> s[b - 1].score != s[b].score)
    ensures Within(2 * WinSum(ShareTies(s), b, |s|) - 2 * WinSum(s, b, |s|), TiedFrom(s, b))
    decreases |s| - b
  {
    if b < |s| {
      var hi := TieEnd(s, b);
      SharingConserves(s, hi);
      WinSumSplit(s, b, hi, |s|);
      WinSumSplit(ShareTies(s), b, hi, |s|);
      TieConserves(s, b, hi);
    }
  }

  lemma TieConserves(s: seq<Entry>, lo: nat, hi: nat)
    requires IsTie(s, lo, hi)
    ensures Within(2 * WinSum(ShareTies(s), lo, hi) - 2 * WinSum(s, lo, hi), if hi - lo > 1 then hi - lo else 0)
  {
    var sum := WinSum(s, lo, hi);
    TieSharesAverage(s, lo, hi);
    WinSumConstant(ShareTies(s), lo, hi, RoundHalfUp(sum, hi - lo));
    RoundingError(sum, hi - lo);
    if hi - lo == 1 {
      AloneKeepsPrize(sum);
    }
  }

  lemma TieSharesAverage(s: seq<Entry>, lo: nat, hi: nat)
    requires IsTie(s, lo, hi)
    ensures forall j :: lo <= j < hi ==> ShareTies(s)[j].winAmount == RoundHalfUp(WinSum(s, lo, hi), hi - lo)
  {
    forall j | lo <= j < hi
      ensures TieStart(s, j) == lo && TieEnd(s, j) == hi
    {
      TieIsUnique(s, lo, hi, j);
    }
  }

  lemma {:induction false} CountedDownSum(s: seq<Candidate>, n: nat, top: int, prizes: seq<WinningPrize>, roundNo: nat)
    requires n <= |s|
    ensures WinSum(CountedDown(s, top, prizes, roundNo), 0, n) == PrizeSum(prizes, top - n, top)
  {
    if n > 0 {
      CountedDownSum(s, n - 1, top, prizes, roundNo);
      PrizeSumSplit(prizes, top - n, top - n + 1, top);
      assert PrizeSum(prizes, top - n, top - n) == 0;
    }
  }

  /** Players of the batch whose score somebody else in the batch has too. */
  function Tied(batch: seq<Candidate>): nat {
    TiedFrom(CountedDown(SortByScore(batch), 0, [], 0), 0)
  }

  lemma {:induction false} TiedIgnoresRanks(s: seq<Entry>, t: seq<Entry>, b: nat)
    requires |s| == |t| && b <= |s| && forall i :: 0 <= i < |s| ==> s[i].score == t[i].score
    ensures TiedFrom(s, b) == TiedFrom(t, b)
    decreases |s| - b
  {
    if b < |s| {
      SameTieEnd(s, t, b);
      TiedIgnoresRanks(s, t, TieEnd(s, b));
    }
  }

  lemma {:induction false} SameTieEnd(s: seq<Entry>, t: seq<Entry>, b: nat)
    requires |s| == |t| && b < |s| && forall i :: 0 <= i < |s| ==> s[i].score == t[i].score
    ensures TieEnd(s, b) == TieEnd(t, b)
    decreases |s| - b
  {
    if b + 1 < |s| {
      SameTieEnd(s, t, b + 1);
    }
  }

  /** One batch pays the prizes of the ranks it takes, up to half a paisa per tied player. */
  lemma BatchConserves(batch: seq<Candidate>, joined: nat, taken: nat, prizes: seq<WinningPrize>, roundNo: nat)
    returns (paid: nat, worth: nat)
    ensures var entries := RankedBatch(batch, joined, taken, prizes, roundNo);
            |entries| == |batch| && paid == WinSum(entries, 0, |entries|)
    ensures worth == PrizeSum(prizes, joined - taken - |batch|, joined - taken)
    ensures Within(2 * paid - 2 * worth, Tied(batch))
  {
    hide ShareTies, SortByScore, SortedByScore, CountedDown, WinSum, PrizeSum, TiedFrom, CalculateWinAmount;
    var sorted := SortByScore(batch);
    SortSorts(batch);
    var down := CountedDown(sorted, joined - taken, prizes, roundNo);
    paid, worth := SharedBatch(down);
    CountedDownSum(sorted, |sorted|, joined - taken, prizes, roundNo);
    TiedIgnoresRanks(down, CountedDown(sorted, 0, [], 0), 0);
  }

  lemma SharedBatch(down: seq<Entry>) returns (paid: nat, worth: nat)
    ensures paid == WinSum(ShareTies(down), 0, |down|)
    ensures worth == WinSum(down, 0, |down|)
    ensures Within(2 * paid - 2 * worth, TiedFrom(down, 0))
  {
    paid, worth := WinSum(ShareTies(down), 0, |down|), WinSum(down, 0, |down|);
    SharingConserves(down, 0);
  }

  // ---------- a batch as the rest of the run sees it ----------

  function AsCandidates(entries: seq<Entry>): (r: seq<Candidate>)
    ensures |r| == |entries| && forall i {:trigger r[i]} :: 0 <= i < |r| ==>
        r[i] == Candidate(entries[i].userId, entries[i].score)
  {
    seq(|entries|, i requires 0 <= i < |entries| => Candidate(entries[i].userId, entries[i].score))
  }

  /** A rank is 1 + `outside` better players outside the batch + the batch players with a strictly higher score. */
  ghost predicate CompetitionRanked(entries: seq<Entry>, outside: int) {
    forall i {:trigger entries[i].rank} :: 0 <= i < |entries| ==>
      entries[i].rank == outside + 1 + Higher(entries, |entries|, entries[i].score)
  }

  ghost predicate EqualScoresShare(entries: seq<Entry>) {
    forall i, j {:trigger entries[i].winAmount, entries[j].winAmount} ::
      0 <= i < j < |entries| && entries[i].score == entries[j].score ==>
        entries[i].rank == entries[j].rank && entries[i].winAmount == entries[j].winAmount
  }

  /** A batch keeps its users and scores, is competition ranked above the players still unranked, and ties share. */
  lemma BatchIsCompetitionRanked(batch: seq<Candidate>, joined: nat, taken: nat, prizes: seq<WinningPrize>,
                                 roundNo: nat)
    returns (entries: seq<Entry>)
    ensures entries == RankedBatch(batch, joined, taken, prizes, roundNo)
    ensures |entries| == |batch| && multiset(AsCandidates(entries)) == multiset(batch)
    ensures Ascending(entries)
    ensures CompetitionRanked(entries, joined - taken - |batch|)
    ensures EqualScoresShare(entries)
  {
    var sorted := SortByScore(batch);
    SortSorts(batch);
    var down := CountedDown(sorted, joined - taken, prizes, roundNo);
    entries := ShareTies(down);
    assert AsCandidates(entries) == sorted;
    TiesAreRanked(down, entries, joined - taken);
  }

  lemma TiesAreRanked(down: seq<Entry>, entries: seq<Entry>, top: int)
    requires Ascending(down) && entries == ShareTies(down)
    requires forall j {:trigger down[j].rank} :: 0 <= j < |down| ==> down[j].rank == top - j
    ensures CompetitionRanked(entries, top - |down|)
    ensures EqualScoresShare(entries)
  {
    forall i | 0 <= i < |entries|
      ensures entries[i].rank == top - |down| + 1 + Higher(entries, |entries|, entries[i].score)
    {
      SharedRank(down, top, i);
      HigherByScore(down, entries, |entries|, entries[i].score);
    }
    TiesShare(down, entries);
  }

  lemma TiesShare(down: seq<Entry>, entries: seq<Entry>)
    requires Ascending(down) && entries == ShareTies(down)
    ensures EqualScoresShare(entries)
  {
    forall i, j | 0 <= i < j < |entries| && entries[i].score == entries[j].score
      ensures entries[i].rank == entries[j].rank && entries[i].winAmount == entries[j].winAmount
    {
      SharedPrize(down, i, j);
    }
  }

  lemma {:induction false} HigherByScore(s: seq<Entry>, t: seq<Entry>, n: nat, score: int)
    requires n <= |s| == |t| && forall i :: 0 <= i < |s| ==> s[i].score == t[i].score
    ensures Higher(s, n, score) == Higher(t, n, score)
  {
    if n > 0 {
      HigherByScore(s, t, n - 1, score);
    }
  }
}
