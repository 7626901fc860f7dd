/** The end of a Skill Patti round: who wins, in which order, and how the pot is shared with side pots. */
module SkillPattiPayout {
  import opened SubWallets
  import opened SkillPattiMoney
  import opened Sequences

  datatype CompareResult = Win | Lose | Draw

  /** The comparison of the hands of two seats. */
  type Compare = (nat, nat) -> CompareResult

  /** No table has more seats. */
  const MAX_SEATS: nat := 6

  /** A percentage of the pot. */
  predicate IsPercentage(g: real) {
    0.0 <= g <= 100.0
  }

  /** What remains of an amount after the commission. */
  function Net(amount: real, g: real): (net: real)
    ensures amount >= 0.0 && IsPercentage(g) ==> 0.0 <= net <= amount
  {
    NetIsShare(amount, g);
    amount * (100.0 - g) / 100.0
  }

  lemma NetIsShare(amount: real, g: real)
    ensures amount >= 0.0 && IsPercentage(g) ==> 0.0 <= amount * (100.0 - g) / 100.0 <= amount
  {
    if amount >= 0.0 && IsPercentage(g) {
      assert amount * (100.0 - g) >= 0.0;
      MulLe(amount, 100.0 - g, 100.0);
    }
  }

  predicate InPlay(p: SpPlayer) {
    p.active || p.allin
  }

  function Sum(amounts: seq<real>): real {
    if amounts == [] then 0.0 else Sum(amounts[..|amounts| - 1]) + amounts[|amounts| - 1]
  }

  lemma {:induction false} AmountChanges(amounts: seq<real>, i: nat, x: real)
    requires i < |amounts|
    ensures Sum(amounts[i := x]) == Sum(amounts) - amounts[i] + x
  {
    var n := |amounts| - 1;
    if i < n {
      AmountChanges(amounts[..n], i, x);
      assert amounts[i := x][..n] == amounts[..n][i := x];
    } else {
      assert amounts[i := x][..n] == amounts[..n];
    }
  }

  lemma {:induction false} NothingYet(n: nat)
    ensures Sum(seq(n, i => 0.0)) == 0.0
  {
    if n > 0 {
      NothingYet(n - 1);
      assert seq(n, i => 0.0)[..n - 1] == seq(n - 1, i => 0.0);
    }
  }

  // ---------- the best hands ----------

  /** The comparison follows a strength of the hands. */
  ghost predicate Ranks(compare: Compare, strength: nat -> int) {
    forall a: nat, b: nat ::
      compare(a, b) == if strength(a) < strength(b) then Lose else if strength(a) == strength(b) then Draw else Win
  }

  /** One walk over the candidates; if the comparison follows a strength these are exactly the strongest. */
  method GetWinners(candidates: seq<nat>, compare: Compare, ghost strength: nat -> int) returns (winners: seq<nat>)
    requires NoRepeats(candidates)
    ensures NoRepeats(winners) && (forall w <- winners :: w in candidates) && (winners == [] <==> candidates == [])
    ensures Ranks(compare, strength) ==>
              forall w :: w in winners <==> w in candidates && forall v <- candidates :: strength(v) <= strength(w)
  {
    winners := [];
    var best: nat := 0;
    for i := 0 to |candidates|
      invariant NoRepeats(winners) && (forall w <- winners :: w in candidates[..i]) && (winners == [] <==> i == 0)
      invariant i > 0 ==> best in candidates[..i]
      invariant Ranks(compare, strength) && i > 0 ==> forall v <- candidates[..i] :: strength(v) <= strength(best)
      invariant Ranks(compare, strength) && i > 0 ==>
                  forall w :: w in winners <==> w in candidates[..i] && strength(w) == strength(best)
    {
      assert candidates[..i + 1] == candidates[..i] + [candidates[i]];
      assert candidates[i] !in candidates[..i];
      if i == 0 || compare(best, candidates[i]) == Lose {
        winners, best := [candidates[i]], candidates[i];
      } else if compare(best, candidates[i]) == Draw {
        winners := winners + [candidates[i]];
      }
    }
    assert candidates[..|candidates|] == candidates;
  }

  // ---------- sharing the pot among the winners of one comparison ----------

  ghost predicate AreSeats(seats: seq<nat>, n: nat) {
    NoRepeats(seats) && forall w <- seats :: w < n
  }

  /** Nobody gets a negative amount, and nobody who is all-in more than the own side pot. */
  ghost predicate FairFor(p: SpPlayer, amount: real, g: real) {
    0.0 <= amount && (p.allin ==> amount <= Net(p.sidepot, g))
  }

  /** The side pot was paid in full. */
  ghost predicate SidepotPaid(p: SpPlayer, amount: real, g: real) {
    p.allin && amount == Net(p.sidepot, g)
  }

  /** An equal share. */
  function ShareOf(pot: real, n: nat): (share: real)
    requires pot > 0.0 && n > 0
    ensures share == pot / n as real && share > 0.0 && share * n as real == pot
  {
    pot / n as real
  }

  /** The pot holds equal shares for so many winners. */
  ghost predicate Covers(pot: real, base: real, count: nat) {
    pot >= base * count as real
  }

  lemma SharesCover(pot: real, n: nat)
    requires pot > 0.0 && n > 0
    ensures Covers(pot, ShareOf(pot, n), n)
  {
  }

  /** One payment below the share leaves the shares of the others, and something in the pot. */
  lemma PayLess(pot: real, base: real, count: nat, paid: real)
    requires count > 0 && base > 0.0 && paid < base && Covers(pot, base, count)
    ensures Covers(pot - paid, base, count - 1) && pot - paid > 0.0
  {
    assert base * count as real == base * (count - 1) as real + base;
  }

  /**
   * After a pass over some winners: small side pots are paid in full, the other winners wait, everybody else is as
   * before.
   */
  ghost predicate PassedOver(players: seq<SpPlayer>, winners: seq<nat>, remaining: seq<nat>, before: seq<real>,
                             amounts: seq<real>, base: real, g: real)
  {
    && AreSeats(winners, |players|) && AreSeats(remaining, |players|) && |amounts| == |before| == |players|
    && (forall w <- remaining :: w in winners)
    && (forall i :: 0 <= i < |before| && (i !in winners || i in remaining) ==> amounts[i] == before[i])
    && (forall w <- winners :: w !in remaining ==> SidepotPaid(players[w], amounts[w], g) && amounts[w] >= 0.0)
    && (forall w <- remaining :: players[w].allin ==> base <= Net(players[w].sidepot, g))
  }

  lemma OneMorePaid(players: seq<SpPlayer>, winners: seq<nat>, remaining: seq<nat>, before: seq<real>,
                    amounts: seq<real>, base: real, g: real, winner: nat)
    requires PassedOver(players, winners, remaining, before, amounts, base, g)
    requires winner !in winners && winner < |players|
    requires players[winner].allin && players[winner].sidepot >= 0.0 && IsPercentage(g)
    ensures PassedOver(players, winners + [winner], remaining, before,
        amounts[winner := Net(players[winner].sidepot, g)], base, g)
  {
    hide Net;
    JoinOnce(winners, [winner]);
  }

  lemma OneMoreWaits(players: seq<SpPlayer>, winners: seq<nat>, remaining: seq<nat>, before: seq<real>,
                     amounts: seq<real>, base: real, g: real, winner: nat)
    requires PassedOver(players, winners, remaining, before, amounts, base, g)
    requires winner !in winners && winner < |players|
    requires players[winner].allin ==> base <= Net(players[winner].sidepot, g)
    ensures PassedOver(players, winners + [winner], remaining + [winner], before, amounts, base, g)
  {
    hide Net, SidepotPaid;
    JoinOnce(winners, [winner]);
    JoinOnce(remaining, [winner]);
  }

  lemma NobodyPassed(players: seq<SpPlayer>, before: seq<real>, base: real, g: real)
    requires |before| == |players|
    ensures PassedOver(players, [], [], before, before, base, g)
  {
  }

  lemma NotYetPaid(players: seq<SpPlayer>, winners: seq<nat>, remaining: seq<nat>, before: seq<real>,
                   amounts: seq<real>, base: real, g: real, winner: nat)
    requires PassedOver(players, winners, remaining, before, amounts, base, g)
    requires winner !in winners && winner < |before|
    ensures amounts[winner] == before[winner]
  {
  }

  lemma NewSeat(winners: seq<nat>, j: nat, n: nat)
    requires AreSeats(winners, n) && j < |winners|
    ensures winners[j] < n && winners[j] !in winners[..j]
  {
    assert winners[j] in winners;
  }

  /** One pass: side pots below an equal share are paid, the other winners wait. */
  method PaySidepots(players: seq<SpPlayer>, winners: seq<nat>, g: real, before: seq<real>, pot: real)
    returns (remaining: seq<nat>, amounts: seq<real>, potAmount: real)
    requires IsPercentage(g) && AreSeats(winners, |players|) && winners != [] && |before| == |players| && pot > 0.0
    requires forall w <- winners :: before[w] == 0.0 && players[w].sidepot >= 0.0
    ensures PassedOver(players, winners, remaining, before, amounts, ShareOf(pot, |winners|), g)
    ensures Sum(amounts) + potAmount == Sum(before) + pot && potAmount > 0.0
    ensures |amounts| == |before| && |remaining| <= |winners|
    ensures |remaining| == |winners| ==> remaining == winners && potAmount == pot && amounts == before
  {
    hide Net, Sum, PassedOver, NoRepeats, Covers;
    SharesCover(pot, |winners|);
    var base := ShareOf(pot, |winners|);
    remaining, amounts, potAmount := [], before, pot;
    NobodyPassed(players, before, base, g);
    for j := 0 to |winners|
      invariant PassedOver(players, winners[..j], remaining, before, amounts, base, g) && |amounts| == |players|
      invariant Sum(amounts) + potAmount == Sum(before) + pot && potAmount > 0.0
      invariant |remaining| <= j
      invariant (|remaining| == j ==> remaining == winners[..j] && potAmount == pot && amounts == before)
      invariant Covers(potAmount, base, |winners| - j + |remaining|)
    {
      var winner := winners[j];
      NewSeat(winners, j, |players|);
      assert winner in winners && winners[..j + 1] == winners[..j] + [winner];
      var sidepot := Net(players[winner].sidepot, g);
      if players[winner].allin && sidepot < base {
        PayLess(potAmount, base, |winners| - j + |remaining|, sidepot);
        OneMorePaid(players, winners[..j], remaining, before, amounts, base, g, winner);
        AmountChanges(amounts, winner, sidepot);
        NotYetPaid(players, winners[..j], remaining, before, amounts, base, g, winner);
        amounts := amounts[winner := sidepot];
        potAmount := potAmount - sidepot;
      } else {
        OneMoreWaits(players, winners[..j], remaining, before, amounts, base, g, winner);
        remaining := remaining + [winner];
      }
    }
    assert winners[..|winners|] == winners;
  }

  /** Passes one after the other. */
  lemma PassesCompose(players: seq<SpPlayer>, winners: seq<nat>, waiting: seq<nat>, remaining: seq<nat>,
                      before: seq<real>, between: seq<real>, amounts: seq<real>, base: real, share: real, g: real)
    requires PassedOver(players, winners, waiting, before, between, base, g)
    requires PassedOver(players, waiting, remaining, between, amounts, share, g)
    ensures PassedOver(players, winners, remaining, before, amounts, share, g)
  {
    hide Net, NoRepeats, SidepotPaid;
  }

  lemma AllWait(players: seq<SpPlayer>, winners: seq<nat>, before: seq<real>, g: real)
    requires AreSeats(winners, |players|) && |before| == |players| && IsPercentage(g)
    requires forall w <- winners :: players[w].sidepot >= 0.0
    ensures PassedOver(players, winners, winners, before, before, 0.0, g)
  {
  }

  lemma WaitersAreSeats(players: seq<SpPlayer>, winners: seq<nat>, waiting: seq<nat>, before: seq<real>,
                        amounts: seq<real>, base: real, g: real)
    requires PassedOver(players, winners, waiting, before, amounts, base, g)
    requires forall w <- winners :: before[w] == 0.0 && players[w].sidepot >= 0.0
    ensures AreSeats(waiting, |players|) && |amounts| == |players|
    ensures forall w <- waiting :: amounts[w] == 0.0 && players[w].sidepot >= 0.0
  {
  }

  /** The loops over the winners of one comparison; `rounds` counts the passes. */
  method PayWinners(players: seq<SpPlayer>, winners: seq<nat>, g: real, before: seq<real>, pot: real)
    returns (amounts: seq<real>, potAmount: real, rounds: nat)
    requires IsPercentage(g) && AreSeats(winners, |players|) && |before| == |players| && pot > 0.0
    requires forall w <- winners :: before[w] == 0.0 && players[w].sidepot >= 0.0
    ensures |amounts| == |before| && Sum(amounts) + potAmount == Sum(before) + pot && potAmount >= 0.0
    ensures forall i :: 0 <= i < |before| && i !in winners ==> amounts[i] == before[i]
    ensures forall w <- winners :: FairFor(players[w], amounts[w], g)
    ensures potAmount > 0.0 ==> forall w <- winners :: SidepotPaid(players[w], amounts[w], g)
    ensures rounds <= |winners| + 1 && (potAmount > 0.0 ==> rounds <= |winners|)
  {
    hide Net, Sum, PassedOver, NoRepeats, AreSeats;
    var waiting := winners;
    amounts, potAmount, rounds := before, pot, 0;
    var flag := true;
    AllWait(players, winners, before, g);
    while flag && |waiting| > 0
      invariant potAmount > 0.0 && Sum(amounts) + potAmount == Sum(before) + pot && |amounts| == |before|
      invariant PassedOver(players, winners, waiting, before, amounts,
                           if flag || waiting == [] then 0.0 else ShareOf(potAmount, |waiting|), g)
      invariant rounds + |waiting| <= |winners| + if flag then 0 else 1
      invariant waiting == [] ==> flag
      decreases flag, |waiting|
    {
      rounds := rounds + 1;
      ghost var between, base := amounts, ShareOf(potAmount, |waiting|);
      WaitersAreSeats(players, winners, waiting, before, amounts, 0.0, g);
      var remaining;
      remaining, amounts, potAmount := PaySidepots(players, waiting, g, amounts, potAmount);
      PassesCompose(players, winners, waiting, remaining, before, between, amounts, 0.0, base, g);
      flag := |remaining| < |waiting|;
      if flag {
        WeakerBase(players, winners, remaining, before, amounts, base, g);
      }
      waiting := remaining;
    }
    ghost var between := amounts;
    if |waiting| > 0 {
      WaitersAreSeats(players, winners, waiting, before, amounts, ShareOf(potAmount, |waiting|), g);
      amounts := SplitRest(waiting, amounts, potAmount, |players|);
      EverybodyPaid(players, winners, waiting, before, between, amounts, ShareOf(potAmount, |waiting|), g);
      potAmount := 0.0;
    } else {
      EverybodyPaid(players, winners, [], before, between, amounts, 0.0, g);
    }
  }

  lemma WeakerBase(players: seq<SpPlayer>, winners: seq<nat>, waiting: seq<nat>, before: seq<real>,
                   amounts: seq<real>, base: real, g: real)
    requires PassedOver(players, winners, waiting, before, amounts, base, g) && base >= 0.0
    ensures PassedOver(players, winners, waiting, before, amounts, 0.0, g)
  {
    hide Net, NoRepeats, SidepotPaid;
  }

  /** Who waits gets the share, who does not has got the side pot. */
  lemma EverybodyPaid(players: seq<SpPlayer>, winners: seq<nat>, waiting: seq<nat>, before: seq<real>,
                      between: seq<real>, amounts: seq<real>, share: real, g: real)
    requires PassedOver(players, winners, waiting, before, between, share, g) && share >= 0.0
    requires |amounts| == |between| && forall i :: 0 <= i < |between| ==>
        amounts[i] == if i in waiting then share else between[i]
    ensures forall i :: 0 <= i < |before| && i !in winners ==> amounts[i] == before[i]
    ensures forall w <- winners :: w < |players| && FairFor(players[w], amounts[w], g)
    ensures waiting == [] ==> forall w <- winners :: SidepotPaid(players[w], amounts[w], g)
  {
    hide Net, NoRepeats;
  }

  /** What is left goes in equal parts to the winners who still wait. */
  method SplitRest(waiting: seq<nat>, before: seq<real>, pot: real, n: nat) returns (amounts: seq<real>)
    requires AreSeats(waiting, n) && waiting != [] && |before| == n
    requires pot > 0.0 && forall w <- waiting :: before[w] == 0.0
    ensures |amounts| == n && Sum(amounts) == Sum(before) + pot
    ensures forall i :: 0 <= i < n ==> amounts[i] == if i in waiting then ShareOf(pot, |waiting|) else before[i]
  {
    hide Sum, NoRepeats;
    var amount := ShareOf(pot, |waiting|);
    amounts := before;
    for j := 0 to |waiting|
      invariant |amounts| == n && Sum(amounts) == Sum(before) + amount * j as real
      invariant forall i :: 0 <= i < n ==> amounts[i] == if i in waiting[..j] then amount else before[i]
    {
      var winner := waiting[j];
      NewSeat(waiting, j, n);
      assert winner in waiting && waiting[..j + 1] == waiting[..j] + [winner];
      AmountChanges(amounts, winner, amount);
      amounts := amounts[winner := amount];
    }
    assert waiting[..|waiting|] == waiting;
  }

  // ---------- the end of the round ----------

  /** Everybody who is in play. */
  ghost predicate AllInPlay(players: seq<SpPlayer>, winners: seq<nat>) {
    forall i :: 0 <= i < |players| && InPlay(players[i]) ==> i in winners
  }

  method Candidates(players: seq<SpPlayer>, winners: seq<nat>) returns (candidates: seq<nat>)
    ensures AreSeats(candidates, |players|)
    ensures forall i: nat :: i in candidates <==> i < |players| && i !in winners && InPlay(players[i])
  {
    candidates := [];
    for i := 0 to |players|
      invariant AreSeats(candidates, i)
      invariant forall k: nat :: k in candidates <==> k < i && k !in winners && InPlay(players[k])
    {
      if i !in winners && InPlay(players[i]) {
        candidates := candidates + [i];
      }
    }
  }

  /** Amounts go to winners only, and winners are in play. */
  ghost predicate IsPayout(players: seq<SpPlayer>, winners: seq<nat>, amounts: seq<real>) {
    && AreSeats(winners, |players|) && |amounts| == |players|
    && (forall i :: 0 <= i < |players| ==> amounts[i] >= 0.0 && (i !in winners ==> amounts[i] == 0.0))
    && (forall w <- winners :: InPlay(players[w]))
  }

  /** All-in players get at most their side pots. */
  ghost predicate IsFair(players: seq<SpPlayer>, winners: seq<nat>, amounts: seq<real>, g: real)
    requires IsPayout(players, winners, amounts)
  {
    forall w <- winners :: FairFor(players[w], amounts[w], g)
  }

  ghost predicate AllSidepotsPaid(players: seq<SpPlayer>, winners: seq<nat>, amounts: seq<real>, g: real)
    requires IsPayout(players, winners, amounts)
  {
    forall w <- winners :: SidepotPaid(players[w], amounts[w], g)
  }

  /** A weaker hand wins something only after every stronger one has got its side pot in full. */
  ghost predicate StrongestFirst(players: seq<SpPlayer>, winners: seq<nat>, amounts: seq<real>, g: real,
                                 strength: nat -> int)
    requires IsPayout(players, winners, amounts)
  {
    forall a, b :: 0 <= a < |players| && InPlay(players[a]) && b in winners && strength(a) > strength(b) ==>
      a in winners && SidepotPaid(players[a], amounts[a], g)
  }

  /** Equal hands win together. */
  ghost predicate EqualsTogether(players: seq<SpPlayer>, winners: seq<nat>, strength: nat -> int) {
    forall a: nat, b: nat :: a < |players| && InPlay(players[a]) && b in winners && strength(a) == strength(b) ==>
      a in winners
  }

  /**
   * How a round may end: the winners share the net pot up to what is left over, nobody gets more than allowed, and
   * something is left over only if all winners were all-in; more than 0.02 only if all in play or six have won.
   */
  ghost predicate IsSettled(players: seq<SpPlayer>, pot: real, commonCard: bool, g: real,
                            winners: seq<nat>, amounts: seq<real>, left: real)
  {
    && IsPayout(players, winners, amounts)
    && Sum(amounts) + left == Net(pot, g) && left >= 0.0
    && (commonCard ==>
      IsFair(players, winners, amounts, g) && (left > 0.0 ==> AllSidepotsPaid(players, winners, amounts, g)))
    && (!commonCard ==> AllInPlay(players, winners) && (left > 0.0 ==> winners == []))
    && (left > 0.02 ==> AllInPlay(players, winners) || |winners| >= MAX_SEATS)
  }

  /** One more comparison among those who have not won yet. */
  lemma NextWinners(players: seq<SpPlayer>, winners: seq<nat>, more: seq<nat>, before: seq<real>, amounts: seq<real>,
                    g: real)
    requires IsPayout(players, winners, before) && IsFair(players, winners, before, g)
    requires AreSeats(more, |players|) && |amounts| == |before|
    requires forall w <- more :: w !in winners && InPlay(players[w]) && FairFor(players[w], amounts[w], g)
    requires forall i :: 0 <= i < |before| && i !in more ==> amounts[i] == before[i]
    ensures IsPayout(players, winners + more, amounts) && IsFair(players, winners + more, amounts, g)
    ensures AllSidepotsPaid(players, winners, before, g)
            && (forall w <- more :: SidepotPaid(players[w], amounts[w], g)) ==>
              AllSidepotsPaid(players, winners + more, amounts, g)
  {
    hide Net, InPlay;
    JoinOnce(winners, more);
  }

  lemma NextAreStrongest(players: seq<SpPlayer>, winners: seq<nat>, more: seq<nat>, candidates: seq<nat>,
                         before: seq<real>, amounts: seq<real>, g: real, strength: nat -> int)
    requires IsPayout(players, winners, before) && AllSidepotsPaid(players, winners, before, g)
    requires StrongestFirst(players, winners, before, g, strength) && EqualsTogether(players, winners, strength)
    requires IsPayout(players, winners + more, amounts)
    requires forall i :: 0 <= i < |before| && i !in more ==> amounts[i] == before[i]
    requires forall i: nat :: i in candidates <==> i < |players| && i !in winners && InPlay(players[i])
    requires forall w :: w in more <==> w in candidates && forall v <- candidates :: strength(v) <= strength(w)
    ensures StrongestFirst(players, winners + more, amounts, g, strength)
    ensures EqualsTogether(players, winners + more, strength)
  {
    hide Net, InPlay;
  }

  lemma NobodyWon(players: seq<SpPlayer>, amounts: seq<real>, g: real, strength: nat -> int)
    requires |amounts| == |players| && forall i :: 0 <= i < |amounts| ==> amounts[i] == 0.0
    ensures IsPayout(players, [], amounts) && IsFair(players, [], amounts, g)
    ensures AllSidepotsPaid(players, [], amounts, g)
    ensures StrongestFirst(players, [], amounts, g, strength) && EqualsTogether(players, [], strength)
  {
  }

  lemma CandidatesAreUnpaid(players: seq<SpPlayer>, winners: seq<nat>, candidates: seq<nat>, amounts: seq<real>)
    requires IsPayout(players, winners, amounts) && AreSeats(candidates, |players|)
    requires forall i: nat :: i in candidates <==> i < |players| && i !in winners && InPlay(players[i])
    ensures |amounts| == |players| && NoRepeats(candidates)
    ensures forall w <- candidates :: w < |players| && amounts[w] == 0.0
    ensures candidates == [] <==> AllInPlay(players, winners)
  {
    assert candidates != [] ==> candidates[0] in candidates;
  }

  lemma SomeAreSeats(more: seq<nat>, candidates: seq<nat>, n: nat)
    requires AreSeats(candidates, n) && NoRepeats(more) && forall w <- more :: w in candidates
    ensures AreSeats(more, n)
  {
  }

  /** Without a common card the first player in play takes the pot, everybody else in play nothing. */
  method FirstTakesAll(players: seq<SpPlayer>, pot: real)
    returns (winners: seq<nat>, amounts: seq<real>, potAmount: real)
    requires pot >= 0.0
    ensures IsPayout(players, winners, amounts) && AllInPlay(players, winners)
    ensures Sum(amounts) + potAmount == pot && potAmount >= 0.0 && (potAmount > 0.0 ==> winners == [])
  {
    hide Sum, InPlay;
    winners, amounts, potAmount := [], seq(|players|, i => 0.0), pot;
    NothingYet(|players|);
    for i := 0 to |players|
      invariant AreSeats(winners, i) && |amounts| == |players|
      invariant forall k: nat :: k in winners <==> k < i && InPlay(players[k])
      invariant forall k :: 0 <= k < |players| ==> amounts[k] >= 0.0 && (k !in winners ==> amounts[k] == 0.0)
      invariant Sum(amounts) + potAmount == pot && potAmount >= 0.0 && (potAmount > 0.0 ==> winners == [])
    {
      if InPlay(players[i]) {
        AmountChanges(amounts, i, potAmount);
        amounts := amounts[i := potAmount];
        winners := winners + [i];
        potAmount := 0.0;
      }
    }
  }

  // ---------- what is lost ----------

  ghost predicate NobodyInPlay(players: seq<SpPlayer>) {
    forall i :: 0 <= i < |players| ==> !InPlay(players[i])
  }

  /** Everybody in play is all-in, so nobody may take more than a side pot. */
  ghost predicate OnlyAllin(players: seq<SpPlayer>) {
    forall i :: 0 <= i < |players| && InPlay(players[i]) ==> players[i].allin
  }

  /** All net side pots of those in play. */
  function Sidepots(players: seq<SpPlayer>, g: real): real {
    if players == [] then 0.0 else
      var last := players[|players| - 1];
      Sidepots(players[..|players| - 1], g) + if InPlay(last) then Net(last.sidepot, g) else 0.0
  }

  /** More than small change is out of reach: no side pot and no active player covers it. */
  ghost predicate LosesPot(players: seq<SpPlayer>, pot: real, g: real) {
    OnlyAllin(players) && Net(pot, g) - Sidepots(players, g) > 0.02
  }

  lemma {:induction false} PaidUpTo(players: seq<SpPlayer>, amounts: seq<real>, g: real)
    requires |amounts| == |players|
    requires forall i :: 0 <= i < |players| ==>
               amounts[i] <= if InPlay(players[i]) then Net(players[i].sidepot, g) else 0.0
    ensures Sum(amounts) <= Sidepots(players, g)
    ensures (forall i :: 0 <= i < |players| ==>
              amounts[i] == if InPlay(players[i]) then Net(players[i].sidepot, g) else 0.0)
            ==> Sum(amounts) == Sidepots(players, g)
  {
    hide Net, InPlay;
    if players != [] {
      PaidUpTo(players[..|players| - 1], amounts[..|players| - 1], g);
    }
  }

  lemma {:induction false} NothingPaid(amounts: seq<real>)
    requires forall i :: 0 <= i < |amounts| ==> amounts[i] == 0.0
    ensures Sum(amounts) == 0.0
  {
    if amounts != [] {
      NothingPaid(amounts[..|amounts| - 1]);
    }
  }

  /** At a table of at most six seats, winning seats that are as many as the seats are all of them. */
  lemma AllSeatsWon(players: seq<SpPlayer>, winners: seq<nat>)
    requires AreSeats(winners, |players|) && |winners| >= |players|
    ensures AllInPlay(players, winners)
  {
    var n := |players|;
    var seats := seq(n, i => i);
    assert forall i :: 0 <= i < n ==> seats[i] == i;
    var everyone := SetOf(seats);
    var won := SetOf(winners);
    forall i | 0 <= i < n
      ensures i in winners
    {
      assert seats[i] in everyone;
      if i !in winners {
        forall w <- won
          ensures w in everyone - {i}
        {
          assert seats[w] in everyone;
        }
        SubsetSize(won, everyone - {i});
      }
    }
  }

  /**
   * With the common card and at most six seats, more than 0.02 of the net pot is lost exactly when everybody in play is
   * all-in and the side pots leave that much, and then exactly what they leave is lost.
   */
  lemma LossExactly(players: seq<SpPlayer>, pot: real, g: real, winners: seq<nat>, amounts: seq<real>, left: real)
    requires IsSettled(players, pot, true, g, winners, amounts, left) && |players| <= MAX_SEATS && IsPercentage(g)
    requires forall i :: 0 <= i < |players| ==> players[i].sidepot >= 0.0
    ensures left > 0.02 <==> LosesPot(players, pot, g)
    ensures left > 0.02 ==> left == Net(pot, g) - Sidepots(players, g)
  {
    hide Net, Sum, InPlay;
    if OnlyAllin(players) {
      NetIsPositive(players, g);
      PaidUpTo(players, amounts, g);
    }
    if left > 0.02 {
      if |winners| >= MAX_SEATS {
        AllSeatsWon(players, winners);
      }
      PaidUpTo(players, amounts, g);
    }
  }

  lemma NetIsPositive(players: seq<SpPlayer>, g: real)
    requires IsPercentage(g) && forall i :: 0 <= i < |players| ==> players[i].sidepot >= 0.0
    ensures forall i :: 0 <= i < |players| ==> Net(players[i].sidepot, g) >= 0.0
  {
  }

  /** Without the common card something is lost exactly when nobody is in play, and then the whole net pot. */
  lemma LossWithoutCards(players: seq<SpPlayer>, pot: real, g: real, winners: seq<nat>, amounts: seq<real>, left: real)
    requires IsSettled(players, pot, false, g, winners, amounts, left)
    ensures left > 0.0 <==> NobodyInPlay(players) && Net(pot, g) > 0.0
    ensures left > 0.0 ==> left == Net(pot, g)
  {
    hide Net, Sum, InPlay;
    if winners == [] {
      NothingPaid(amounts);
    } else {
      assert winners[0] in winners;
    }
  }

  // ---------- the whole payout ----------

  /**
   * gameEnd: with the common card dealt, the best hands of those in play share the pot, then the next best, as long as
   * more than 0.02 is left; without it the first player in play takes the pot.
   */
  method GameEnd(players: seq<SpPlayer>, pot: real, commonCard: bool, g: real, compare: Compare,
                 ghost strength: nat -> int)
    returns (winners: seq<nat>, amounts: seq<real>, potAmount: real)
    requires IsPercentage(g) && pot >= 0.0 && forall i :: 0 <= i < |players| ==> players[i].sidepot >= 0.0
    ensures IsSettled(players, pot, commonCard, g, winners, amounts, potAmount)
    ensures commonCard && |players| <= MAX_SEATS ==>
              && (potAmount > 0.02 <==> LosesPot(players, pot, g))
              && (potAmount > 0.02 ==> potAmount == Net(pot, g) - Sidepots(players, g))
    ensures !commonCard ==> (potAmount > 0.0 <==> NobodyInPlay(players) && Net(pot, g) > 0.0)
    ensures commonCard && Ranks(compare, strength) ==>
              StrongestFirst(players, winners, amounts, g, strength) && EqualsTogether(players, winners, strength)
  {
    hide Net, Sum, IsPayout, IsFair, AllSidepotsPaid, StrongestFirst, EqualsTogether, AllInPlay, AreSeats, Ranks,
         NoRepeats, FairFor, LosesPot, NobodyInPlay, Sidepots;
    if !commonCard {
      winners, amounts, potAmount := FirstTakesAll(players, Net(pot, g));
      LossWithoutCards(players, pot, g, winners, amounts, potAmount);
      return;
    }
    winners, amounts, potAmount := [], seq(|players|, i => 0.0), Net(pot, g);
    NothingYet(|players|);
    NobodyWon(players, amounts, g, strength);
    var loop: nat := 0;
    while potAmount > 0.02 && loop < 12
      invariant IsPayout(players, winners, amounts) && IsFair(players, winners, amounts, g)
      invariant Sum(amounts) + potAmount == Net(pot, g) && potAmount >= 0.0
      invariant potAmount > 0.0 ==> AllSidepotsPaid(players, winners, amounts, g)
      invariant Ranks(compare, strength) ==>
                  StrongestFirst(players, winners, amounts, g, strength) && EqualsTogether(players, winners, strength)
      invariant potAmount > 0.02 ==> AllInPlay(players, winners) || loop <= 2 * |winners|
      decreases 12 - loop
    {
      ghost var before, won := amounts, winners;
      var candidates := Candidates(players, winners);
      CandidatesAreUnpaid(players, winners, candidates, amounts);
      var more := GetWinners(candidates, compare, strength);
      SomeAreSeats(more, candidates, |players|);
      var rounds: nat := 0;
      if more != [] {
        amounts, potAmount, rounds := PayWinners(players, more, g, amounts, potAmount);
      }
      NextWinners(players, winners, more, before, amounts, g);
      if Ranks(compare, strength) {
        NextAreStrongest(players, winners, more, candidates, before, amounts, g, strength);
      }
      assert more == [] ==> winners + more == winners;
      winners := winners + more;
      loop := loop + 1 + rounds;
    }
    if |players| <= MAX_SEATS {
      LossExactly(players, pot, g, winners, amounts, potAmount);
    }
  }
}
