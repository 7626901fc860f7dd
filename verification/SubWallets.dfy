/** A player's money in three sub-wallets: part of every fee is paid from the bonus, the rest from main and winnings. */
module SubWallets {

  datatype SubWallet = SubWallet(main: real, winning: real, bonus: real) {
    predicate NonNegative() {
      main >= 0.0 && winning >= 0.0 && bonus >= 0.0
    }

    function Sum(): real {
      main + winning + bonus
    }
  }

  /** The bonus commission is a percentage below 100. */
  predicate IsCommission(c: real) {
    0.0 <= c < 100.0
  }

  /** What can be spent when the bonus may cover at most c percent of every fee. */
  function Balance(w: SubWallet, c: real): real
    requires IsCommission(c)
  {
    var mainPlusWinning := w.main + w.winning;
    if mainPlusWinning * c / (100.0 - c) >= w.bonus then mainPlusWinning + w.bonus
    else mainPlusWinning * 100.0 / (100.0 - c)
  }

  function Min(a: real, b: real): real { if a < b then a else b }

  datatype Debited = Insufficient | Paid(wallet: SubWallet)

  function Debit(w: SubWallet, fee: real, c: real): Debited {
    var fromBonus := Min(w.bonus, fee * c / 100.0);
    var fromMain := Min(w.main, fee - fromBonus);
    var fromWinning := fee - fromBonus - fromMain;
    if fromWinning > 0.0 && w.winning < fromWinning then Insufficient
    else Paid(SubWallet(w.main - fromMain, w.winning - fromWinning, w.bonus - fromBonus))
  }

  /**
   * With k the share main and winnings can make the bonus carry, the balance is the smaller of all money and (1 + k)
   * times theirs.
   */
  lemma BalanceIsMin(w: SubWallet, c: real) returns (k: real)
    requires w.NonNegative() && IsCommission(c)
    ensures k == c / (100.0 - c) && k >= 0.0
    ensures Balance(w, c) == (w.main + w.winning) + Min(w.bonus, k * (w.main + w.winning))
    ensures 0.0 <= Balance(w, c) <= w.Sum()
  {
    k := c / (100.0 - c);
    var m, rest := w.main + w.winning, 100.0 - c;
    assert k * rest == c;
    QuotientTimes(m, c, rest);
    assert m * 100.0 / rest == m + k * m by {
      assert (m + k * m) * rest == m * rest + m * (k * rest) == m * 100.0;
      ExactQuotient(m * 100.0, rest, m + k * m);
    }
    assert k * m >= 0.0;
  }

  lemma QuotientTimes(m: real, c: real, rest: real)
    requires rest > 0.0
    ensures m * c / rest == c / rest * m
  {
    ExactQuotient(m * c, rest, c / rest * m) by {
      assert c / rest * m * rest == c / rest * rest * m;
    }
  }

  lemma ExactQuotient(a: real, b: real, q: real)
    requires b > 0.0 && q * b == a
    ensures a / b == q
  {
  }

  /** The bonus pays `share` at most, main and winnings the rest. */
  lemma DebitShape(w: SubWallet, fee: real, c: real, share: real)
    requires w.NonNegative() && fee >= 0.0 && share == fee * c / 100.0 && 0.0 <= share <= fee
    ensures Debit(w, fee, c).Paid? <==> fee - Min(w.bonus, share) <= w.main + w.winning
    ensures Debit(w, fee, c).Paid? ==>
              var left := Debit(w, fee, c).wallet;
              && left.NonNegative() && left.Sum() == w.Sum() - fee
              && left.bonus == w.bonus - Min(w.bonus, share)
  {
  }

  /** The bonus part of a fee is k times the rest of it. */
  lemma Shares(fee: real, c: real, k: real) returns (share: real, rest: real)
    requires IsCommission(c) && k == c / (100.0 - c) && fee >= 0.0
    ensures share == fee * c / 100.0 && rest == fee - share
    ensures share == k * rest && 0.0 <= share <= fee
  {
    var r := 100.0 - c;
    share := fee * c / 100.0;
    rest := fee - share;
    assert k * r == c;
    assert rest == fee * r / 100.0;
    assert k * (fee * r / 100.0) == fee * (k * r) / 100.0;
    assert fee * c >= 0.0;
    MulLe(fee, c, 100.0);
  }

  lemma MulLe(a: real, x: real, y: real)
    requires a >= 0.0 && x <= y
    ensures a * x <= a * y
  {
  }

  lemma CompareShares(k: real, a: real, m: real) returns (ka: real, km: real)
    requires k >= 0.0
    ensures ka == k * a && km == k * m
    ensures (a <= m ==> ka <= km) && (a >= m ==> ka >= km)
  {
    ka, km := k * a, k * m;
    if a <= m {
      MulLe(k, a, m);
    } else {
      MulLe(k, m, a);
    }
  }

  /** A fee can be debited exactly when it does not exceed the balance. */
  lemma DebitSucceedsIff(w: SubWallet, fee: real, c: real)
    requires w.NonNegative() && IsCommission(c) && fee >= 0.0
    ensures Debit(w, fee, c).Paid? <==> fee <= Balance(w, c)
  {
    hide Debit, Balance;
    var k := BalanceIsMin(w, c);
    var share, rest := Shares(fee, c, k);
    DebitShape(w, fee, c, share);
    var m := w.main + w.winning;
    var ka, km := CompareShares(k, rest, m);
    RestFits(fee, share, rest, w.bonus, m, km);
  }

  /** The rest of a fee fits main and winnings exactly when the fee fits the balance. */
  lemma RestFits(fee: real, share: real, rest: real, bonus: real, m: real, km: real)
    requires rest == fee - share && (rest <= m ==> share <= km) && (rest >= m ==> share >= km)
    ensures fee - Min(bonus, share) <= m <==> fee <= m + Min(bonus, km)
  {
  }

  /** A debit takes exactly the fee out of the balance and out of the money, and overdraws no sub-wallet. */
  lemma DebitTakesTheFee(w: SubWallet, fee: real, c: real)
    requires w.NonNegative() && IsCommission(c) && 0.0 <= fee <= Balance(w, c)
    ensures Debit(w, fee, c).Paid?
    ensures var left := Debit(w, fee, c).wallet;
            left.NonNegative() && left.Sum() == w.Sum() - fee && Balance(left, c) == Balance(w, c) - fee
  {
    hide Debit, Balance;
    DebitSucceedsIff(w, fee, c);
    var left := Debit(w, fee, c).wallet;
    var k := BalanceIsMin(w, c);
    var share, rest := Shares(fee, c, k);
    DebitShape(w, fee, c, share);
    var k' := BalanceIsMin(left, c);
    var m, n := w.main + w.winning, left.main + left.winning;
    var ka, km := CompareShares(k, rest, m);
    if w.bonus >= share {
      assert n == m - rest;
      assert k * n == km - ka;
    } else {
      assert n == m - (fee - w.bonus) && left.bonus == 0.0;
      var _, kn := CompareShares(k, 0.0, n);
    }
  }

  /** Winnings never lower the balance. */
  lemma WinningsRaiseBalance(w: SubWallet, amount: real, c: real)
    requires w.NonNegative() && IsCommission(c) && amount >= 0.0
    ensures Balance(w.(winning := w.winning + amount), c) >= Balance(w, c)
  {
    hide Balance;
    var k := BalanceIsMin(w, c);
    var _ := BalanceIsMin(w.(winning := w.winning + amount), c);
    var m := w.main + w.winning;
    var km, ka := CompareShares(k, m, m + amount);
  }
}
