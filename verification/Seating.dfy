/** Who sits where in a round: the tables made from the promoted users. */
module Seating {
  import opened Options
  import opened Pairing
  import opened RoundRecords
  import opened Sequences

  /** Players are numbered by their position at the table. */
  function Seats(users: seq<UserId>): (seats: seq<Seat>)
    ensures |seats| == |users| && forall i {:trigger seats[i]} :: 0 <= i < |seats| ==> seats[i] == Seat(users[i], i + 1)
  {
    seq(|users|, i requires 0 <= i < |users| => Seat(users[i], i + 1))
  }

  function NewTables(tables: seq<seq<UserId>>): (r: seq<GameTable>)
    ensures |r| == |tables| && forall t {:trigger r[t]} :: 0 <= t < |r| ==> r[t] == GameTable(Seats(tables[t]), None)
  {
    seq(|tables|, t requires 0 <= t < |tables| => GameTable(Seats(tables[t]), None))
  }

  type SeatMap = map<UserId, (nat, nat)>

  predicate IsSeat(tables: seq<GameTable>, t: nat, i: nat) {
    t < |tables| && i < |tables[t].players|
  }

  /** Every seat belongs to its own user. */
  ghost predicate Seated(tables: seq<GameTable>, seatOf: SeatMap) {
    && (forall t: nat, i: nat :: IsSeat(tables, t, i) ==>
          var id := tables[t].players[i].userId;
          id in seatOf && seatOf[id] == (t, i))
    && (forall id <- seatOf :: IsSeat(tables, seatOf[id].0, seatOf[id].1)
                               && tables[seatOf[id].0].players[seatOf[id].1].userId == id)
  }

  function IndexOf(s: seq<UserId>, id: UserId): (i: nat)
    requires id in s
    ensures i < |s| && s[i] == id
  {
    if s[0] == id then 0 else 1 + IndexOf(s[1..], id)
  }

  /** Tables whose users are all different give every user one seat. */
  lemma {:induction false} SeatEach(tables: seq<seq<UserId>>) returns (seatOf: SeatMap)
    requires NoRepeats(Flatten(tables))
    ensures Seated(NewTables(tables), seatOf)
    ensures forall id :: id in seatOf <==> id in Flatten(tables)
  {
    if tables == [] {
      seatOf := map[];
    } else {
      var n := |tables| - 1;
      var front, last := tables[..n], tables[n];
      assert tables == front + [last];
      FlattenConcat(front, [last]);
      assert Flatten([last]) == last + Flatten([]) == last;
      var flat := Flatten(front);
      assert forall i :: 0 <= i < |flat| ==> flat[i] == Flatten(tables)[i];
      assert forall i :: 0 <= i < |last| ==> last[i] == Flatten(tables)[|flat| + i];
      var seatOfFront := SeatEach(front);
      seatOf := SeatLast(front, last, seatOfFront);
    }
  }

  lemma SeatLast(front: seq<seq<UserId>>, last: seq<UserId>, seatOfFront: SeatMap) returns (seatOf: SeatMap)
    requires Seated(NewTables(front), seatOfFront)
    requires NoRepeats(last) && forall id <- last :: id !in seatOfFront
    ensures Seated(NewTables(front + [last]), seatOf)
    ensures forall id :: id in seatOf <==> id in seatOfFront || id in last
  {
    hide NewTables, Seats, IndexOf;
    var n := |front|;
    var users := set id | id in last;
    seatOf := map id | id in seatOfFront.Keys + users ::
      if id in users then (n, IndexOf(last, id)) else seatOfFront[id];
    var before, after := NewTables(front), NewTables(front + [last]);
    forall t: nat, i: nat | IsSeat(after, t, i)
      ensures after[t].players[i].userId in seatOf && seatOf[after[t].players[i].userId] == (t, i)
    {
      var id := after[t].players[i].userId;
      if t < n {
        assert after[t] == before[t] && IsSeat(before, t, i);
        assert id in seatOfFront && seatOfFront[id] == (t, i);
      } else {
        assert id == last[i] == last[IndexOf(last, id)];
      }
    }
    forall id | id in seatOf
      ensures IsSeat(after, seatOf[id].0, seatOf[id].1)
      ensures after[seatOf[id].0].players[seatOf[id].1].userId == id
    {
      if id !in users {
        assert after[seatOf[id].0] == before[seatOf[id].0];
      }
    }
  }

  lemma SeatedOrBye(promoted: seq<UserId>, tables: seq<seq<UserId>>, byes: seq<UserId>) returns (seatOf: SeatMap)
    requires NoRepeats(promoted) && multiset(Flatten(tables)) + multiset(byes) == multiset(promoted)
    ensures Seated(NewTables(tables), seatOf)
    ensures forall id :: id in promoted <==> id in seatOf || id in byes
    ensures forall id <- byes :: id !in seatOf
  {
    hide Flatten, Seated;
    var seated := Flatten(tables);
    var all := seated + byes;
    assert multiset(all) == multiset(promoted);
    NoRepeatsPermutes(promoted, all);
    assert forall i :: 0 <= i < |seated| ==> all[i] == seated[i];
    seatOf := SeatEach(tables);
    forall id <- byes
      ensures id !in seated
    {
      var j :| 0 <= j < |byes| && byes[j] == id;
      assert all[|seated| + j] == id;
    }
  }

  /** How many of the promoted users a new round accounts for besides the seats. */
  function ByesKept(bye: Option<UserId>): nat {
    if bye.Some? then 1 else 0
  }

  /**
   * A new round seats the promoted users, each once, at tables of at least two; the last bye is remembered, and this
   * accounts for everybody exactly when there is at most one bye.
   */
  lemma NewRoundSeats(promoted: seq<UserId>, k: nat, shuffle: seq<UserId> -> seq<UserId>)
    returns (tables: seq<GameTable>, bye: Option<UserId>, seatOf: SeatMap)
    requires k >= 2 && Permutes(shuffle) && NoRepeats(promoted)
    ensures var pieces := NewRoundPieces(promoted, k, shuffle);
            tables == NewTables(Tables(pieces)) && bye == LastOr(Byes(pieces), None)
    ensures Seated(tables, seatOf)
    ensures forall t :: 0 <= t < |tables| ==> 2 <= |tables[t].players| <= k
    ensures forall id :: id in seatOf || bye == Some(id) ==> id in promoted
    ensures bye.Some? ==> bye.value !in seatOf
    ensures (forall id <- promoted :: id in seatOf || bye == Some(id)) <==> SeatedByes(|promoted|, k) <= 1
    ensures SeatedByes(|promoted|, k) <= 1 ==> |tables| + ByesKept(bye) == SeatingCount(|promoted|, k)
    ensures 1 < |promoted| <= k && |promoted| <= BATCH ==> |tables| == 1
  {
    hide NewRoundPieces, Seated, Tables, Byes, SeatedTables, SeatedByes, SeatingCount;
    var pieces := NewRoundPieces(promoted, k, shuffle);
    PairingIsPartition(promoted, k, shuffle);
    var byes := Byes(pieces);
    seatOf := SeatedOrBye(promoted, Tables(pieces), byes);
    tables, bye := NewTables(Tables(pieces)), LastOr(byes, None);
    PieceCounts(promoted, k, shuffle);
    SeatingCountIs(|promoted|, k);
    LastIsBye(byes);
    ByesAreDistinct(promoted, Tables(pieces), byes);
    if |byes| >= 2 {
      assert byes[0] in promoted && byes[0] !in seatOf && byes[0] != bye.value;
    }
    forall t | 0 <= t < |tables|
      ensures 2 <= |tables[t].players| <= k
    {
      assert Tables(pieces)[t] in Tables(pieces);
    }
    if 1 < |promoted| <= k && |promoted| <= BATCH {
      FewUsersOneTable(|promoted|, k);
    }
  }

  lemma LastIsBye(byes: seq<UserId>)
    ensures LastOr(byes, None) == if byes == [] then None else Some(byes[|byes| - 1])
    ensures |byes| <= 1 ==> forall id <- byes :: LastOr(byes, None) == Some(id)
  {
  }

  lemma ByesAreDistinct(promoted: seq<UserId>, tables: seq<seq<UserId>>, byes: seq<UserId>)
    requires NoRepeats(promoted) && multiset(Flatten(tables)) + multiset(byes) == multiset(promoted)
    ensures NoRepeats(byes)
  {
    var all := Flatten(tables) + byes;
    assert multiset(all) == multiset(promoted);
    NoRepeatsPermutes(promoted, all);
    assert forall i :: 0 <= i < |byes| ==> byes[i] == all[|Flatten(tables)| + i];
  }

  lemma FewUsersOneTable(n: nat, k: nat)
    requires 1 < n <= k && n <= BATCH
    ensures SeatedTables(n, k) == 1
  {
    OneBatchSeated(n, k);
    CeilByRemainder(n, k);
    if n < k {
      DivModUnique(n, k, 0, n);
    } else {
      DivModUnique(n, k, 1, 0);
    }
  }
}
