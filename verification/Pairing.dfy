/** Seating promoted users at tables: batches of 8192, tables of k, a user left alone is promoted without playing. */
module Pairing {
  import opened Options
  import opened TournamentMath

  type UserId = nat

  const BATCH: nat := 8192

  // ---------- specification ----------

  /** Cutting a list into consecutive pieces of the given size; the last one may be shorter. */
  function Chunks<T>(s: seq<T>, size: nat): seq<seq<T>>
    requires size >= 1
  {
    if s == [] then [] else if |s| <= size then [s] else [s[..size]] + Chunks(s[size..], size)
  }

  /** Pieces of at least two users become tables. */
  function Tables<T>(pieces: seq<seq<T>>): seq<seq<T>> {
    if pieces == [] then [] else (if |pieces[0]| > 1 then [pieces[0]] else []) + Tables(pieces[1..])
  }

  /** Users left alone, in the order in which they are stored as the promoted user. */
  function Byes<T>(pieces: seq<seq<T>>): seq<T> {
    if pieces == [] then [] else (if |pieces[0]| > 1 then [] else pieces[0]) + Byes(pieces[1..])
  }

  function Flatten<T>(lists: seq<seq<T>>): seq<T> {
    if lists == [] then [] else lists[0] + Flatten(lists[1..])
  }

  ghost predicate Permutes(shuffle: seq<UserId> -> seq<UserId>) {
    forall s: seq<UserId> :: multiset(shuffle(s)) == multiset(s)
  }

  /** All pieces of all batches of a new round. */
  function Pieces(batches: seq<seq<UserId>>, k: nat, shuffle: seq<UserId> -> seq<UserId>): seq<seq<UserId>>
    requires k >= 1
  {
    if batches == [] then [] else Chunks(shuffle(batches[0]), k) + Pieces(batches[1..], k, shuffle)
  }

  function NewRoundPieces(users: seq<UserId>, k: nat, shuffle: seq<UserId> -> seq<UserId>): seq<seq<UserId>>
    requires k >= 1
  {
    Pieces(Chunks(users, BATCH), k, shuffle)
  }

  function LastOr(byes: seq<UserId>, before: Option<UserId>): Option<UserId> {
    if byes == [] then before else Some(byes[|byes| - 1])
  }

  // ---------- the two services ----------

  class LudoGameplay {
    var tables: seq<seq<UserId>>
    var promotedUser: Option<UserId>

    constructor ()
      ensures tables == [] && promotedUser == None
    {
      tables, promotedUser := [], None;
    }

    /** `shuffledUserIds` is the shuffled list; every splice becomes a table or overwrites the promoted user. */
    method StartRound(shuffledUserIds: seq<UserId>, noPlayersPerGame: nat)
      requires noPlayersPerGame >= 1
      modifies this
      ensures tables == old(tables) + Tables(Chunks(shuffledUserIds, noPlayersPerGame))
      ensures promotedUser == LastOr(Byes(Chunks(shuffledUserIds, noPlayersPerGame)), old(promotedUser))
    {
      hide Tables, Byes, Chunks;
      NothingSeated(promotedUser);
      NoChunks<UserId>(noPlayersPerGame);
      var rest := shuffledUserIds;
      ghost var all := Chunks(shuffledUserIds, noPlayersPerGame);
      ghost var done: seq<seq<UserId>> := [];
      while |rest| > 0
        invariant all == done + Chunks(rest, noPlayersPerGame)
        invariant tables == old(tables) + Tables(done)
        invariant promotedUser == LastOr(Byes(done), old(promotedUser))
        decreases |rest|
      {
        var n := if |rest| < noPlayersPerGame then |rest| else noPlayersPerGame;
        var piece := rest[..n];
        NextChunkOf(done, rest, noPlayersPerGame);
        rest := rest[n..];
        SeatPiece(done, piece, old(promotedUser));
        if |piece| > 1 {
          tables := tables + [piece];
        } else {
          promotedUser := Some(piece[0]);
        }
        done := done + [piece];
      }
      assert done == all;
    }

    /** Splits the promoted users into batches and starts the round of every batch. */
    method StartNewRound(promotedUserIds: seq<UserId>, noPlayersPerGame: nat, shuffle: seq<UserId> -> seq<UserId>)
      requires noPlayersPerGame >= 1
      modifies this
      ensures var pieces := NewRoundPieces(promotedUserIds, noPlayersPerGame, shuffle);
              && tables == old(tables) + Tables(pieces)
              && promotedUser == LastOr(Byes(pieces), old(promotedUser))
    {
      hide Chunks, Tables, Byes, Pieces;
      NothingSeated(promotedUser);
      var batches := CutIntoBatches(promotedUserIds);
      PiecesEnds(batches, noPlayersPerGame, shuffle);
      ghost var done: seq<seq<UserId>> := [];
      for i := 0 to |batches|
        invariant Pieces(batches, noPlayersPerGame, shuffle) == done + Pieces(batches[i..], noPlayersPerGame, shuffle)
        invariant tables == old(tables) + Tables(done)
        invariant promotedUser == LastOr(Byes(done), old(promotedUser))
      {
        var shuffled := shuffle(batches[i]);
        StartRound(shuffled, noPlayersPerGame);
        ghost var pieces := Chunks(shuffled, noPlayersPerGame);
        SeatBatch(done, pieces, old(promotedUser));
        PiecesStep(done, batches, i, noPlayersPerGame, shuffle);
        done := done + pieces;
      }
      assert done == Pieces(batches, noPlayersPerGame, shuffle);
    }
  }

  method CutIntoBatches(userIds: seq<UserId>) returns (batches: seq<seq<UserId>>)
    ensures batches == Chunks(userIds, BATCH)
  {
    var rest := userIds;
    batches := [];
    while |rest| > 0
      invariant Chunks(userIds, BATCH) == batches + Chunks(rest, BATCH)
      decreases |rest|
    {
      var n := if |rest| < BATCH then |rest| else BATCH;
      NextChunk(rest, BATCH);
      batches := batches + [rest[..n]];
      rest := rest[n..];
    }
  }

  lemma NoChunks<T>(size: nat)
    requires size >= 1
    ensures Chunks<T>([], size) == []
  {
  }

  lemma NextChunkOf<T>(done: seq<seq<T>>, s: seq<T>, size: nat)
    requires size >= 1 && s != []
    ensures var n := if |s| < size then |s| else size;
            done + Chunks(s, size) == done + [s[..n]] + Chunks(s[n..], size)
  {
    NextChunk(s, size);
  }

  lemma NextChunk<T>(s: seq<T>, size: nat)
    requires size >= 1 && s != []
    ensures var n := if |s| < size then |s| else size;
            Chunks(s, size) == [s[..n]] + Chunks(s[n..], size)
  {
    if |s| <= size {
      assert s[..|s|] == s && s[|s|..] == [];
    }
  }

  lemma NothingSeated(before: Option<UserId>)
    ensures Tables<UserId>([]) == [] && LastOr(Byes([]), before) == before
  {
  }

  lemma SeatPiece(done: seq<seq<UserId>>, piece: seq<UserId>, before: Option<UserId>)
    requires piece != []
    ensures Tables(done + [piece]) == Tables(done) + if |piece| > 1 then [piece] else []
    ensures LastOr(Byes(done + [piece]), before) ==
            if |piece| > 1 then LastOr(Byes(done), before) else Some(piece[0])
  {
    TablesAppend(done, [piece]);
    assert Tables([piece]) == if |piece| > 1 then [piece] else [];
    assert Byes([piece]) == if |piece| > 1 then [] else piece;
  }

  lemma SeatBatch(done: seq<seq<UserId>>, pieces: seq<seq<UserId>>, before: Option<UserId>)
    ensures Tables(done + pieces) == Tables(done) + Tables(pieces)
    ensures LastOr(Byes(done + pieces), before) == LastOr(Byes(pieces), LastOr(Byes(done), before))
  {
    TablesAppend(done, pieces);
  }

  lemma PiecesEnds(batches: seq<seq<UserId>>, k: nat, shuffle: seq<UserId> -> seq<UserId>)
    requires k >= 1
    ensures Pieces(batches[0..], k, shuffle) == Pieces(batches, k, shuffle)
    ensures Pieces(batches[|batches|..], k, shuffle) == []
  {
    assert batches[0..] == batches;
  }

  lemma PiecesStep(done: seq<seq<UserId>>, batches: seq<seq<UserId>>, i: nat, k: nat,
                   shuffle: seq<UserId> -> seq<UserId>)
    requires i < |batches| && k >= 1
    ensures done + Pieces(batches[i..], k, shuffle)
         == done + Chunks(shuffle(batches[i]), k) + Pieces(batches[i + 1..], k, shuffle)
  {
    assert batches[i..][1..] == batches[i + 1..];
  }

  lemma TablesAppend<T>(a: seq<seq<T>>, b: seq<seq<T>>)
    ensures Tables(a + b) == Tables(a) + Tables(b)
    ensures Byes(a + b) == Byes(a) + Byes(b)
    ensures Flatten(a + b) == Flatten(a) + Flatten(b)
  {
    TablesOfConcat(a, b);
    ByesOfConcat(a, b);
    FlattenConcat(a, b);
  }

  lemma {:induction false} TablesOfConcat<T>(a: seq<seq<T>>, b: seq<seq<T>>)
    ensures Tables(a + b) == Tables(a) + Tables(b)
  {
    if a == [] {
      assert a + b == b;
    } else {
      assert (a + b)[1..] == a[1..] + b;
      TablesOfConcat(a[1..], b);
    }
  }

  lemma {:induction false} ByesOfConcat<T>(a: seq<seq<T>>, b: seq<seq<T>>)
    ensures Byes(a + b) == Byes(a) + Byes(b)
  {
    if a == [] {
      assert a + b == b;
    } else {
      assert (a + b)[1..] == a[1..] + b;
      ByesOfConcat(a[1..], b);
    }
  }

  lemma {:induction false} FlattenConcat<T>(a: seq<seq<T>>, b: seq<seq<T>>)
    ensures Flatten(a + b) == Flatten(a) + Flatten(b)
  {
    if a == [] {
      assert a + b == b;
    } else {
      assert (a + b)[1..] == a[1..] + b;
      FlattenConcat(a[1..], b);
    }
  }

  // ---------- pairing is a partition ----------

  lemma {:induction false} ChunksFlatten<T>(s: seq<T>, size: nat)
    requires size >= 1
    ensures Flatten(Chunks(s, size)) == s
    ensures forall c <- Chunks(s, size) :: 1 <= |c| <= size
  {
    if |s| > size {
      ChunksFlatten(s[size..], size);
      assert Chunks(s, size)[1..] == Chunks(s[size..], size);
      assert s[..size] + s[size..] == s;
    }
  }

  lemma {:induction false} PiecesKeepUsers(batches: seq<seq<UserId>>, k: nat, shuffle: seq<UserId> -> seq<UserId>)
    requires k >= 1 && Permutes(shuffle)
    ensures multiset(Flatten(Pieces(batches, k, shuffle))) == multiset(Flatten(batches))
    ensures forall c <- Pieces(batches, k, shuffle) :: 1 <= |c| <= k
  {
    if batches != [] {
      var first := Chunks(shuffle(batches[0]), k);
      PiecesKeepUsers(batches[1..], k, shuffle);
      ChunksFlatten(shuffle(batches[0]), k);
      TablesAppend(first, Pieces(batches[1..], k, shuffle));
    }
  }

  lemma {:induction false} TablesAndByesSplit<T>(pieces: seq<seq<T>>)
    ensures multiset(Flatten(Tables(pieces))) + multiset(Byes(pieces)) == multiset(Flatten(pieces))
  {
    if pieces != [] {
      var first, rest := pieces[0], pieces[1..];
      var tables, byes := Tables(rest), Byes(rest);
      TablesAndByesSplit(rest);
      assert Flatten(pieces) == first + Flatten(rest);
      if |first| > 1 {
        assert Tables(pieces) == [first] + tables && Byes(pieces) == [] + byes;
        TablesAppend([first], tables);
        assert Flatten([first]) == first + Flatten([]) == first;
      } else {
        assert Tables(pieces) == [] + tables == tables && Byes(pieces) == first + byes;
      }
    }
  }

  lemma {:induction false} TablesArePieces<T>(pieces: seq<seq<T>>)
    ensures forall t <- Tables(pieces) :: t in pieces && |t| > 1
  {
    if pieces != [] {
      TablesArePieces(pieces[1..]);
    }
  }

  /** Every promoted user is seated exactly once: at one table of 2 to k users or as a bye. */
  lemma PairingIsPartition(users: seq<UserId>, k: nat, shuffle: seq<UserId> -> seq<UserId>)
    requires k >= 1 && Permutes(shuffle)
    ensures var pieces := NewRoundPieces(users, k, shuffle);
            && multiset(Flatten(Tables(pieces))) + multiset(Byes(pieces)) == multiset(users)
            && forall t <- Tables(pieces) :: 2 <= |t| <= k
  {
    ChunksFlatten(users, BATCH);
    PiecesKeepUsers(Chunks(users, BATCH), k, shuffle);
    TablesAndByesSplit(NewRoundPieces(users, k, shuffle));
    TablesArePieces(NewRoundPieces(users, k, shuffle));
  }

  // ---------- how many tables and byes ----------

  /** The table count used on reconnection. */
  function TableTarget(n: nat, k: nat): nat
    requires k >= 1
  {
    if n % k > 1 then CeilDiv(n, k) else n / k
  }

  function ByeCount(n: nat, k: nat): nat
    requires k >= 1
  {
    if n % k == 1 then 1 else 0
  }

  /** Tables and byes of a round of n users, summed over the batches. */
  function SeatedTables(n: nat, k: nat): nat
    requires k >= 1
  {
    ProductIsNat(n / BATCH, TableTarget(BATCH, k));
    (n / BATCH) * TableTarget(BATCH, k) + TableTarget(n % BATCH, k)
  }

  function SeatedByes(n: nat, k: nat): nat
    requires k >= 1
  {
    (n / BATCH) * ByeCount(BATCH, k) + ByeCount(n % BATCH, k)
  }

  lemma ProductIsNat(a: nat, b: nat)
    ensures a * b >= 0
  {
  }

  lemma CeilByRemainder(n: nat, k: nat)
    requires k >= 1
    ensures CeilDiv(n, k) == n / k + if n % k == 0 then 0 else 1
  {
    var q, r := n / k, n % k;
    assert n + k - 1 == q * k + (r + k - 1);
    DivModUnique(n + k - 1, k, if r == 0 then q else q + 1, if r == 0 then k - 1 else r - 1);
  }

  lemma DivModUnique(n: int, k: nat, q: int, r: int)
    requires k >= 1 && n == q * k + r && 0 <= r < k
    ensures n / k == q && n % k == r
  {
    var q', r' := n / k, n % k;
    assert (q - q') * k == r' - r;
    if q > q' {
      MulMonotoneInt(k, 1, q - q');
    } else if q < q' {
      MulMonotoneInt(k, q - q', -1);
    }
  }

  lemma StepCount(n: nat, k: nat)
    requires n >= k >= 2
    ensures TableTarget(n, k) == 1 + TableTarget(n - k, k) && ByeCount(n, k) == ByeCount(n - k, k)
  {
    var q, r := n / k, n % k;
    DivModUnique(n - k, k, q - 1, r);
    CeilByRemainder(n, k);
    CeilByRemainder(n - k, k);
  }

  lemma {:induction false} ChunkCounts<T>(s: seq<T>, k: nat)
    requires k >= 2
    ensures |Tables(Chunks(s, k))| == TableTarget(|s|, k)
    ensures |Byes(Chunks(s, k))| == ByeCount(|s|, k)
  {
    if s == [] {
      DivModUnique(0, k, 0, 0);
    } else if |s| <= k {
      if |s| < k {
        DivModUnique(|s|, k, 0, |s|);
        CeilByRemainder(|s|, k);
      } else {
        DivModUnique(|s|, k, 1, 0);
      }
      assert Tables([s]) == if |s| > 1 then [s] else [];
      assert Byes([s]) == if |s| > 1 then [] else s;
    } else {
      ChunkCounts(s[k..], k);
      StepCount(|s|, k);
      assert Chunks(s, k)[1..] == Chunks(s[k..], k);
    }
  }

  lemma {:induction false} PieceCounts(users: seq<UserId>, k: nat, shuffle: seq<UserId> -> seq<UserId>)
    requires k >= 2 && Permutes(shuffle)
    ensures |Tables(NewRoundPieces(users, k, shuffle))| == SeatedTables(|users|, k)
    ensures |Byes(NewRoundPieces(users, k, shuffle))| == SeatedByes(|users|, k)
  {
    NoPlayersNoTables(k);
    if |users| > BATCH {
      var first, rest := users[..BATCH], users[BATCH..];
      PieceCounts(rest, k, shuffle);
      BatchCounts(first, k, shuffle);
      NextBatch(users, k, shuffle);
      TablesAppend(Chunks(shuffle(first), k), NewRoundPieces(rest, k, shuffle));
      SeatedStep(|users|, k);
    } else if users != [] {
      BatchCounts(users, k, shuffle);
      OneBatch(users, k, shuffle);
      OneBatchSeated(|users|, k);
    }
  }

  lemma BatchCounts(batch: seq<UserId>, k: nat, shuffle: seq<UserId> -> seq<UserId>)
    requires k >= 2 && Permutes(shuffle)
    ensures |Tables(Chunks(shuffle(batch), k))| == TableTarget(|batch|, k)
    ensures |Byes(Chunks(shuffle(batch), k))| == ByeCount(|batch|, k)
  {
    SameLength(shuffle, batch);
    ChunkCounts(shuffle(batch), k);
  }

  lemma OneBatchSeated(n: nat, k: nat)
    requires k >= 2 && n <= BATCH
    ensures SeatedTables(n, k) == TableTarget(n, k) && SeatedByes(n, k) == ByeCount(n, k)
  {
    NoPlayersNoTables(k);
  }

  lemma NextBatch(users: seq<UserId>, k: nat, shuffle: seq<UserId> -> seq<UserId>)
    requires k >= 1 && |users| > BATCH
    ensures NewRoundPieces(users, k, shuffle)
         == Chunks(shuffle(users[..BATCH]), k) + NewRoundPieces(users[BATCH..], k, shuffle)
  {
    var batches := Chunks(users, BATCH);
    assert batches[0] == users[..BATCH] && batches[1..] == Chunks(users[BATCH..], BATCH);
  }

  lemma OneBatch(users: seq<UserId>, k: nat, shuffle: seq<UserId> -> seq<UserId>)
    requires k >= 1 && 0 < |users| <= BATCH
    ensures NewRoundPieces(users, k, shuffle) == Chunks(shuffle(users), k)
  {
    assert Pieces([users], k, shuffle) == Chunks(shuffle(users), k) + Pieces([], k, shuffle);
  }

  lemma SeatedStep(n: nat, k: nat)
    requires k >= 2 && n > BATCH
    ensures SeatedTables(n, k) == TableTarget(BATCH, k) + SeatedTables(n - BATCH, k)
    ensures SeatedByes(n, k) == ByeCount(BATCH, k) + SeatedByes(n - BATCH, k)
  {
    var q := n / BATCH;
    assert (n - BATCH) / BATCH == q - 1 && (n - BATCH) % BATCH == n % BATCH;
    assert q * TableTarget(BATCH, k) == TableTarget(BATCH, k) + (q - 1) * TableTarget(BATCH, k);
    assert q * ByeCount(BATCH, k) == ByeCount(BATCH, k) + (q - 1) * ByeCount(BATCH, k);
  }

  lemma NoPlayersNoTables(k: nat)
    requires k >= 2
    ensures TableTarget(0, k) == 0 && ByeCount(0, k) == 0
  {
    DivModUnique(0, k, 0, 0);
  }

  lemma SameLength(shuffle: seq<UserId> -> seq<UserId>, s: seq<UserId>)
    requires Permutes(shuffle)
    ensures |shuffle(s)| == |s|
  {
    assert |multiset(shuffle(s))| == |multiset(s)|;
  }

  /**
   * Storing one promoted user loses nobody exactly when there is at most one bye: a full batch leaves none, or none but
   * the last batch is full, or only one is and the rest leaves none.
   */
  lemma SingleBye(n: nat, k: nat)
    requires k >= 2
    ensures SeatedByes(n, k) <= 1 <==> BATCH % k != 1 || n < BATCH || (n < 2 * BATCH && n % BATCH % k != 1)
    ensures n <= BATCH ==> SeatedByes(n, k) <= 1
    ensures k in {2, 3, 4} ==> BATCH % k != 1
  {
    if n == BATCH {
      NoPlayersNoTables(k);
    }
    assert n >= 2 * BATCH ==> n / BATCH >= 2;
    assert BATCH <= n < 2 * BATCH ==> n / BATCH == 1;
  }

  /** With tables for 8191 two full batches leave two users alone, and only one of them is remembered. */
  lemma TwoByes()
    ensures SeatedByes(2 * BATCH, 8191) == 2
  {
    NoPlayersNoTables(8191);
  }

  /**
   * Table sizes that divide a batch, or a single batch: the count is the reconnection formula and bye and tables fill
   * ceil(n/k).
   */
  lemma TableCountIsTarget(n: nat, k: nat)
    requires k >= 2 && (BATCH % k == 0 || n <= BATCH)
    ensures SeatedTables(n, k) == TableTarget(n, k)
    ensures SeatedTables(n, k) + SeatedByes(n, k) == CeilDiv(n, k)
  {
    CeilByRemainder(n, k);
    if n <= BATCH {
      OneBatchSeated(n, k);
    } else {
      TablesOfWholeBatches(n / BATCH, n % BATCH, k);
    }
  }

  lemma TablesOfWholeBatches(q: nat, r: nat, k: nat)
    requires k >= 2 && BATCH % k == 0
    ensures q * TableTarget(BATCH, k) + TableTarget(r, k) == TableTarget(q * BATCH + r, k)
    ensures q * ByeCount(BATCH, k) + ByeCount(r, k) == ByeCount(q * BATCH + r, k)
  {
    WholeBatches(q, r, k);
    CeilByRemainder(r, k);
    CeilByRemainder(q * BATCH + r, k);
  }

  /** Whole batches hold whole tables when the table size divides the batch. */
  lemma WholeBatches(q: nat, r: nat, k: nat)
    requires k >= 2 && BATCH % k == 0
    ensures var n := q * BATCH + r;
            n / k == q * (BATCH / k) + r / k && n % k == r % k
  {
    var b := BATCH / k;
    var n := q * BATCH + r;
    assert BATCH == b * k;
    assert q * (b * k) == (q * b) * k;
    assert n == (q * b + r / k) * k + r % k;
    DivModUnique(n, k, q * b + r / k, r % k);
  }

  /** Tables of three do not divide a batch: the formula then holds exactly when few enough batches were cut. */
  lemma TableCountForThree(n: nat)
    ensures SeatedTables(n, 3) == TableTarget(n, 3) <==> n / BATCH <= (n % BATCH + 1) % 3
  {
    var q, r := n / BATCH, n % BATCH;
    assert TableTarget(BATCH, 3) == 2731;
    TargetForThree(r);
    TargetForThree(n);
    ThirdsApart(q, r);
  }

  lemma TargetForThree(n: nat)
    ensures TableTarget(n, 3) == (n + 1) / 3
  {
    CeilByRemainder(n, 3);
  }

  lemma ThirdsApart(q: nat, r: nat)
    ensures q * 2731 + (r + 1) / 3 == (q * BATCH + r + 1) / 3 <==> q <= (r + 1) % 3
  {
    assert q * BATCH + r + 1 == 3 * (q * 2731) + (r + 1 - q);
    assert (q * BATCH + r + 1) / 3 == q * 2731 + (r + 1 - q) / 3;
  }

  // ---------- the announced number of rounds ----------

  /**
   * The total recomputed at the end of round r with `promoted` users left, against the total before it,
   * when the round began with n users: equal exactly when the promoted users need one round less.
   */
  lemma TotalUnchangedIff(n: nat, k: nat, promoted: nat, r: nat)
    requires k >= 2 && n > 1 && promoted >= CeilDiv(n, k)
    ensures r + Rounds(promoted, k) == r - 1 + Rounds(n, k) <==> promoted <= Pow(k, Rounds(n, k) - 1)
  {
    var t: nat := Rounds(n, k) - 1;
    assert Rounds(CeilDiv(n, k), k) == t;
    RoundsMonotone(CeilDiv(n, k), promoted, k);
    RoundsIsLeast(promoted, k);
    if promoted <= Pow(k, t) {
      assert t < Rounds(promoted, k) ==> Pow(k, t) < promoted;
    }
  }

  /** One winner per table plus the bye: with k dividing the batch, or a single batch, the total never changes. */
  lemma TotalNeverChanges(users: seq<UserId>, k: nat, shuffle: seq<UserId> -> seq<UserId>, r: nat)
    requires k >= 2 && |users| > 1 && Permutes(shuffle)
    requires BATCH % k == 0 || |users| <= BATCH
    ensures var pieces := NewRoundPieces(users, k, shuffle);
            r + Rounds(|Tables(pieces)| + |Byes(pieces)|, k) == r - 1 + Rounds(|users|, k)
  {
    PieceCounts(users, k, shuffle);
    TableCountIsTarget(|users|, k);
  }

  /** Whole tables and byes of all batches are at least as many as one cut of all users would make. */
  lemma SeatsCover(n: nat, k: nat)
    requires k >= 2 && n > 0
    ensures SeatedTables(n, k) + SeatedByes(n, k) >= CeilDiv(n, k)
  {
    var q, r := n / BATCH, n % BATCH;
    BatchPieces(BATCH, k);
    BatchPieces(r, k);
    var whole, rest := CeilDiv(BATCH, k), CeilDiv(r, k);
    var m := Distribute(q, TableTarget(BATCH, k), ByeCount(BATCH, k), rest);
    CoverTogether(q, whole, rest, k, m, r);
    CeilDivGalois(n, k, m);
  }

  lemma Distribute(q: nat, a: nat, b: nat, rest: nat) returns (m: nat)
    ensures m == q * (a + b) + rest == q * a + q * b + rest
  {
    m := q * (a + b) + rest;
  }

  lemma CoverTogether(q: nat, whole: nat, rest: nat, k: nat, m: nat, r: nat)
    requires m == q * whole + rest && whole * k >= BATCH && rest * k >= r
    ensures k * m >= q * BATCH + r
  {
    assert k * m == q * (whole * k) + rest * k;
    MulMonotone(q, BATCH, whole * k);
  }

  lemma BatchPieces(n: nat, k: nat)
    requires k >= 2
    ensures TableTarget(n, k) + ByeCount(n, k) == CeilDiv(n, k)
  {
    CeilByRemainder(n, k);
  }

  /**
   * With one winner per table and the byes promoted, for any table size: the announced total stays exactly when
   * the tables and byes of the round are no more than k^(rounds needed - 1).
   */
  lemma TotalUnchangedExactly(users: seq<UserId>, k: nat, shuffle: seq<UserId> -> seq<UserId>, r: nat)
    requires k >= 2 && |users| > 1 && Permutes(shuffle)
    ensures var n := |users|;
            var pieces := NewRoundPieces(users, k, shuffle);
            r + Rounds(|Tables(pieces)| + |Byes(pieces)|, k) == r - 1 + Rounds(n, k) <==>
            SeatedTables(n, k) + SeatedByes(n, k) <= Pow(k, Rounds(n, k) - 1)
  {
    hide Tables, Byes, NewRoundPieces, SeatedTables, SeatedByes, Rounds, Pow;
    PieceCounts(users, k, shuffle);
    SeatsCover(|users|, k);
    RoundsNeeded(|users|, k);
    TotalUnchangedIff(|users|, k, SeatedTables(|users|, k) + SeatedByes(|users|, k), r);
  }

  lemma RoundsNeeded(n: nat, k: nat)
    requires k >= 2 && n > 1
    ensures Rounds(n, k) >= 1
  {
  }

  /** Tables and byes together, batch by batch. */
  function SeatingCount(n: nat, k: nat): nat
    requires k >= 1
  {
    if n <= BATCH then CeilDiv(n, k) else CeilDiv(BATCH, k) + SeatingCount(n - BATCH, k)
  }

  lemma {:induction false} SeatingCountIs(n: nat, k: nat)
    requires k >= 2
    ensures SeatingCount(n, k) == SeatedTables(n, k) + SeatedByes(n, k)
  {
    hide SeatedTables, SeatedByes, TableTarget, ByeCount, CeilDiv;
    if n <= BATCH {
      OneBatchSeated(n, k);
      BatchPieces(n, k);
    } else {
      SeatingCountIs(n - BATCH, k);
      SeatedStep(n, k);
      BatchPieces(BATCH, k);
    }
  }

  /** The same for the numbers alone: what one winner per table and the byes make of the total. */
  lemma TotalAfterRound(n: nat, k: nat, r: nat)
    requires k >= 2 && n > 1
    ensures var promoted := SeatingCount(n, k);
            && (r + Rounds(promoted, k) == r - 1 + Rounds(n, k) <==> promoted <= Pow(k, Rounds(n, k) - 1))
            && (BATCH % k == 0 || n <= BATCH ==> r + Rounds(promoted, k) == r - 1 + Rounds(n, k))
  {
    hide SeatedTables, SeatedByes, SeatingCount, Pow;
    SeatingCountIs(n, k);
    SeatsCover(n, k);
    TotalUnchangedIff(n, k, SeatingCount(n, k), r);
    if BATCH % k == 0 || n <= BATCH {
      TableCountIsTarget(n, k);
    }
  }

  /**
   * Tables of three with 19683 users: three batches seat 6561 tables and a bye, one user too many for eight more
   * rounds.
   */
  lemma TotalGrowsForThree()
    ensures Rounds(19683, 3) == 9
    ensures SeatedTables(19683, 3) + SeatedByes(19683, 3) == 6562 && Rounds(6562, 3) == 9
  {
    assert Pow(3, 4) == 81;
    assert Pow(3, 8) == 6561;
    assert Pow(3, 9) == 19683;
    forall q: nat | q < 9
      ensures Pow(3, q) <= 6561
    {
      PowMonotone(3, q, 8);
    }
    LeastRoundsUnique(19683, 3, 9);
    LeastRoundsUnique(6562, 3, 9);
  }

  lemma {:induction false} PowMonotone(k: nat, a: nat, b: nat)
    requires k >= 1 && a <= b
    ensures 1 <= Pow(k, a) <= Pow(k, b)
    decreases b
  {
    if a == b {
      if a > 0 {
        PowMonotone(k, a - 1, a - 1);
        MulMonotone(Pow(k, a - 1), 1, k);
      }
    } else {
      PowMonotone(k, a, b - 1);
      MulMonotone(Pow(k, b - 1), 1, k);
    }
  }
}
