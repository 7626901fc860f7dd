/** The Redis lock: SET key NX PX ttl to acquire, DEL key to release, with time and any number of clients. */
module TtlLock {

  type Key = string
  type Client = nat

  const RETRY_LIMIT: nat := 500

  /** A client's belief that it holds a key, and the moment its TTL runs out. */
  datatype Holding = Holding(client: Client, key: Key, deadline: nat)

  /** `keys` maps every stored key to its expiry; an expired key counts as absent. */
  datatype State = State(now: nat, keys: map<Key, nat>, holdings: set<Holding>)

  datatype Event =
    | Tick(milliseconds: nat)
    | TryAcquire(client: Client, key: Key, ttl: nat)
    | Release(client: Client, key: Key)

  predicate Live(s: State, key: Key) {
    key in s.keys && s.now < s.keys[key]
  }

  /** Whether SET ... NX PX answers OK. A zero TTL is an error reply, hence a refusal. */
  predicate Granted(s: State, key: Key, ttl: nat) {
    ttl > 0 && !Live(s, key)
  }

  function Step(s: State, e: Event): State {
    match e
    case Tick(d) => s.(now := s.now + d)
    case TryAcquire(c, key, ttl) =>
      if Granted(s, key, ttl) then
        s.(keys := s.keys[key := s.now + ttl], holdings := s.holdings + {Holding(c, key, s.now + ttl)})
      else s
    case Release(c, key) =>
      // DEL removes the key whoever set it: the stored value carries no owner.
      s.(keys := s.keys - {key}, holdings := set h <- s.holdings | h.client != c || h.key != key)
  }

  function Run(s: State, events: seq<Event>): State {
    if events == [] then s else Step(Run(s, events[..|events| - 1]), events[|events| - 1])
  }

  const START := State(0, map[], {})

  ghost predicate Held(s: State, key: Key) {
    exists h <- s.holdings :: h.key == key
  }

  /** Time never passes a holder's deadline, and only a holder releases. */
  ghost predicate Disciplined(s: State, e: Event) {
    match e
    case Tick(d) => forall h <- s.holdings :: s.now + d < h.deadline
    case TryAcquire(_, _, _) => true
    case Release(c, key) => exists h <- s.holdings :: h.client == c && h.key == key
  }

  ghost predicate DisciplinedRun(s: State, events: seq<Event>) {
    forall n :: 0 <= n < |events| ==> Disciplined(Run(s, events[..n]), events[n])
  }

  ghost predicate Exclusive(s: State) {
    forall a <- s.holdings, b <- s.holdings :: a.key == b.key ==> a.client == b.client
  }

  ghost predicate Inv(s: State) {
    && (forall h <- s.holdings :: h.key in s.keys && s.keys[h.key] == h.deadline && s.now < h.deadline)
    && (forall a <- s.holdings, b <- s.holdings :: a.key == b.key ==> a == b)
    && (forall key <- s.keys :: Live(s, key) ==> Held(s, key))
  }

  lemma StepKeepsInv(s: State, e: Event)
    requires Inv(s) && Disciplined(s, e)
    ensures Inv(Step(s, e))
  {
    var t := Step(s, e);
    forall key <- t.keys | Live(t, key)
      ensures Held(t, key)
    {
      match e
      case TryAcquire(c, k, ttl) =>
        if key == k && Granted(s, k, ttl) {
          assert Holding(c, k, s.now + ttl) in t.holdings;
        } else {
          var h :| h in s.holdings && h.key == key;
          assert h in t.holdings;
        }
      case _ =>
        var h :| h in s.holdings && h.key == key;
        assert h in t.holdings;
    }
  }

  lemma {:induction false} RunKeepsInv(s: State, events: seq<Event>)
    requires Inv(s) && DisciplinedRun(s, events)
    ensures Inv(Run(s, events))
  {
    if events != [] {
      var n := |events| - 1;
      var front := events[..n];
      forall m | 0 <= m < n
        ensures Disciplined(Run(s, front[..m]), front[m])
      {
        assert front[..m] == events[..m];
        assert Disciplined(Run(s, events[..m]), events[m]);
      }
      RunKeepsInv(s, front);
      StepKeepsInv(Run(s, front), events[n]);
    }
  }

  /** Mutual exclusion at every moment of every disciplined interleaving of any clients. */
  lemma {:induction false} MutualExclusion(events: seq<Event>, n: nat)
    requires DisciplinedRun(START, events) && n <= |events|
    ensures Exclusive(Run(START, events[..n]))
  {
    forall m | 0 <= m < n
      ensures Disciplined(Run(START, events[..n][..m]), events[..n][m])
    {
      assert events[..n][..m] == events[..m];
      assert Disciplined(Run(START, events[..m]), events[m]);
    }
    RunKeepsInv(START, events[..n]);
  }

  /** In a disciplined run an attempt with a positive TTL is refused exactly when somebody holds the key. */
  lemma {:induction false} RefusedExactlyWhenHeld(events: seq<Event>, key: Key, ttl: nat)
    requires DisciplinedRun(START, events) && ttl > 0
    ensures Granted(Run(START, events), key, ttl) <==> !Held(Run(START, events), key)
  {
    RunKeepsInv(START, events);
  }

  /** Without the TTL discipline two clients hold one key. */
  lemma OverrunBreaksExclusion()
    ensures !Exclusive(Run(START, [TryAcquire(1, "t", 5), Tick(5), TryAcquire(2, "t", 5)]))
  {
    RunThree(TryAcquire(1, "t", 5), Tick(5), TryAcquire(2, "t", 5));
    var end := Run(START, [TryAcquire(1, "t", 5), Tick(5), TryAcquire(2, "t", 5)]);
    assert Holding(1, "t", 5) in end.holdings && Holding(2, "t", 10) in end.holdings;
  }

  /** Without release by holders only, a stranger's DEL lets a second client in. */
  lemma StrayReleaseBreaksExclusion()
    ensures !Exclusive(Run(START, [TryAcquire(1, "t", 5), Release(2, "t"), TryAcquire(2, "t", 5)]))
  {
    RunThree(TryAcquire(1, "t", 5), Release(2, "t"), TryAcquire(2, "t", 5));
    var end := Run(START, [TryAcquire(1, "t", 5), Release(2, "t"), TryAcquire(2, "t", 5)]);
    assert Holding(1, "t", 5) in end.holdings && Holding(2, "t", 5) in end.holdings;
  }

  /** An attempt is granted while another client still believes to hold the key. */
  ghost predicate Takes(s: State, e: Event) {
    e.TryAcquire? && Granted(s, e.key, e.ttl) && exists h <- s.holdings :: h.key == e.key && h.client != e.client
  }

  /** Exclusion is lost at exactly such a step. */
  lemma LostExactlyWhenTaken(s: State, e: Event)
    requires Exclusive(s)
    ensures !Exclusive(Step(s, e)) <==> Takes(s, e)
  {
    var t := Step(s, e);
    if Takes(s, e) {
      var h :| h in s.holdings && h.key == e.key && h.client != e.client;
      assert h in t.holdings && Holding(e.client, e.key, s.now + e.ttl) in t.holdings;
    }
  }

  /** Whatever the clients do: exclusion holds at every moment of a run exactly when no attempt takes a key. */
  lemma ExclusionExactly(events: seq<Event>)
    ensures (forall n :: 0 <= n <= |events| ==> Exclusive(Run(START, events[..n]))) <==>
            (forall n :: 0 <= n < |events| ==> !Takes(Run(START, events[..n]), events[n]))
  {
    hide Exclusive, Takes, Run, Step;
    if forall n :: 0 <= n <= |events| ==> Exclusive(Run(START, events[..n])) {
      forall n | 0 <= n < |events|
        ensures !Takes(Run(START, events[..n]), events[n])
      {
        NextMoment(events, n);
        LostExactlyWhenTaken(Run(START, events[..n]), events[n]);
      }
    }
    if forall n :: 0 <= n < |events| ==> !Takes(Run(START, events[..n]), events[n]) {
      forall n | 0 <= n <= |events|
        ensures Exclusive(Run(START, events[..n]))
      {
        ExclusiveUpTo(events, n);
      }
    }
  }

  lemma NextMoment(events: seq<Event>, n: nat)
    requires n < |events|
    ensures Run(START, events[..n + 1]) == Step(Run(START, events[..n]), events[n])
  {
    assert events[..n + 1][..n] == events[..n];
  }

  lemma {:induction false} ExclusiveUpTo(events: seq<Event>, n: nat)
    requires n <= |events| && forall m :: 0 <= m < n ==> !Takes(Run(START, events[..m]), events[m])
    ensures Exclusive(Run(START, events[..n]))
    decreases n
  {
    hide Takes, Step;
    if n > 0 {
      ExclusiveUpTo(events, n - 1);
      NextMoment(events, n - 1);
      LostExactlyWhenTaken(Run(START, events[..n - 1]), events[n - 1]);
    }
  }

  /** Somebody else has deleted the key under a holding. */
  ghost predicate StrayRelease(events: seq<Event>, m: nat, h: Holding)
    requires m < |events|
  {
    events[m].Release? && events[m].key
    == h.key && events[m].client != h.client && h in Run(START, events[..m]).holdings
  }

  /** In any run a holding still has its key, or a stranger has deleted it. */
  lemma {:induction false} KeptOrStrayed(events: seq<Event>, h: Holding)
    requires h in Run(START, events).holdings
    ensures var s := Run(START, events);
            || (h.key in s.keys && s.keys[h.key] >= h.deadline)
            || exists m: nat :: m < |events| && StrayRelease(events, m, h)
  {
    if events != [] {
      var n := |events| - 1;
      var front := events[..n];
      var s := Run(START, front);
      if h in s.holdings {
        KeptOrStrayed(front, h);
        if exists m: nat :: m < n && StrayRelease(front, m, h) {
          var m: nat :| m < n && StrayRelease(front, m, h);
          assert front[..m] == events[..m];
          assert StrayRelease(events, m, h);
        } else if events[n].Release? && events[n].key == h.key {
          assert StrayRelease(events, n, h);
        }
      }
    }
  }

  /** So a key is taken only because its time had run out or a stranger had released it. */
  lemma TakenBecause(events: seq<Event>, n: nat, h: Holding)
    requires n < |events| && events[n].TryAcquire?
    requires Granted(Run(START, events[..n]), events[n].key, events[n].ttl)
    requires h in Run(START, events[..n]).holdings && h.key == events[n].key
    ensures h.deadline <= Run(START, events[..n]).now || exists m: nat :: m < n && StrayRelease(events, m, h)
  {
    var front := events[..n];
    KeptOrStrayed(front, h);
    if exists m: nat :: m < n && StrayRelease(front, m, h) {
      var m: nat :| m < n && StrayRelease(front, m, h);
      assert front[..m] == events[..m];
      assert StrayRelease(events, m, h);
    }
  }

  lemma RunThree(a: Event, b: Event, c: Event)
    ensures Run(START, [a, b, c]) == Step(Step(Step(START, a), b), c)
  {
    assert [a, b, c][..2] == [a, b] && [a, b][..1] == [a] && [a][..0] == [];
    assert Run(START, [a]) == Step(START, a);
    assert Run(START, [a, b]) == Step(Step(START, a), b);
  }

  /** What has happened before the client's attempt number n + 1; others(i) is what happens after its i-th refusal. */
  ghost function Before(e: Event, others: nat -> seq<Event>, n: nat): seq<Event> {
    if n == 0 then [] else Before(e, others, n - 1) + [e] + others(n - 1)
  }

  lemma {:induction false} RunConcat(s: State, a: seq<Event>, b: seq<Event>)
    ensures Run(s, a + b) == Run(Run(s, a), b)
  {
    if b == [] {
      assert a + b == a;
    } else {
      assert (a + b)[..|a + b| - 1] == a + b[..|b| - 1];
      RunConcat(s, a, b[..|b| - 1]);
    }
  }

  lemma {:induction false} RunAttempt(s: State, trace: seq<Event>, e: Event, after: seq<Event>)
    ensures Run(s, trace + [e] + after) == Run(Step(Run(s, trace), e), after)
  {
    assert (trace + [e])[..|trace|] == trace;
    RunConcat(s, trace + [e], after);
  }

  class LockerService {
    var store: State

    constructor ()
      ensures store == START
    {
      store := START;
    }

    /** Tries at most RETRY_LIMIT times; `others(i)` is what the other clients and the clock do after refusal i. */
    method AcquireLock(client: Client, key: Key, ttl: nat, others: nat -> seq<Event>)
      returns (acquired: bool, attempts: nat)
      modifies this
      ensures 1 <= attempts <= RETRY_LIMIT
      ensures !acquired ==> attempts == RETRY_LIMIT
      ensures var e := TryAcquire(client, key, ttl);
              store == if acquired then Step(Run(old(store), Before(e, others, attempts - 1)), e)
                       else Run(old(store), Before(e, others, attempts))
      ensures forall i :: 0 <= i < attempts ==>
                (Granted(Run(old(store), Before(TryAcquire(client, key, ttl), others, i)), key, ttl)
                 <==> acquired && i == attempts - 1)
    {
      var e := TryAcquire(client, key, ttl);
      ghost var begin := store;
      var retryCount := 0;
      while retryCount < RETRY_LIMIT
        invariant retryCount <= RETRY_LIMIT
        invariant store == Run(begin, Before(e, others, retryCount))
        invariant forall i :: 0 <= i < retryCount ==> !Granted(Run(begin, Before(e, others, i)), key, ttl)
      {
        ghost var trace := Before(e, others, retryCount);
        var granted := Granted(store, key, ttl);
        store := Step(store, e);
        if granted {
          return true, retryCount + 1;
        }
        RunAttempt(begin, trace, e, others(retryCount));
        store := Run(store, others(retryCount));
        retryCount := retryCount + 1;
      }
      return false, retryCount;
    }

    method ReleaseLock(client: Client, key: Key)
      modifies this
      ensures store == Step(old(store), Release(client, key))
      ensures key !in store.keys && forall h <- store.holdings :: h.client != client || h.key != key
    {
      store := Step(store, Release(client, key));
    }
  }
}
