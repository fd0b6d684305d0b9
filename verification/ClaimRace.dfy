/**
 * The race both waiting tables of the gateway run (src/bridge): a waiter is registered under a key, and
 * whoever takes it out of the table under the mutex owns its resolution. Taking out, deciding and
 * resuming are separate steps of different threads, interleaved in any way.
 */
module ClaimRace {
  import opened Options

  /** A waiter somebody took out of the table, with the verdict that somebody is going to give. */
  datatype Ticket<N, V> = Ticket(node: N, verdict: V)

  datatype Race<K, N, V> = Race(
    table: map<K, N>,             // registered waiters
    verdicts: map<N, Option<V>>,  // every accepted waiter; None while its phase is pending
    claims: seq<Ticket<N, V>>,    // every taking-out there ever was
    hands: set<nat>,              // the claims whose holder has not decided the waiter yet
    waking: set<nat>,             // the claims whose holder has decided the waiter and not resumed it yet
    resumptions: seq<N>,          // every resumption there ever was
    queued: set<nat>)             // the resumptions an event loop has not run yet

  datatype Action<K, N, V> =
    | Insert(key: K, node: N)
    | Claim(keys: seq<K>, verdict: V)
    | Resolve(claim: nat)
    | Wake(claim: nat, loopRunning: bool)
    | RunQueued(resumption: nat)

  function Empty<K, N, V>(): Race<K, N, V> {
    Race(map[], map[], [], {}, {}, [], {})
  }

  /** One key: erased and handed over if present. */
  function ClaimOne<K, N, V>(s: Race<K, N, V>, k: K, v: V): Race<K, N, V> {
    if k in s.table then
      s.(table := s.table - {k}, claims := s.claims + [Ticket(s.table[k], v)], hands := s.hands + {|s.claims|})
    else s
  }

  function ClaimAll<K, N, V>(s: Race<K, N, V>, ks: seq<K>, v: V): Race<K, N, V>
    decreases |ks|
  {
    if ks == [] then s else ClaimAll(ClaimOne(s, ks[0], v), ks[1..], v)
  }

  /** The second guard, under the waiter's own mutex: only a pending waiter is decided. */
  function DecideClaim<K, N, V>(s: Race<K, N, V>, i: nat): Race<K, N, V>
    requires i < |s.claims|
  {
    var t := s.claims[i];
    if t.node !in s.verdicts || s.verdicts[t.node].Some? then s
    else s.(verdicts := s.verdicts[t.node := Some(t.verdict)], waking := s.waking + {i})
  }

  /** After the mutex: the waiter is resumed through its loop, or at once if that does not run. */
  function WakeClaim<K, N, V>(s: Race<K, N, V>, i: nat, loopRunning: bool): Race<K, N, V> {
    if i in s.waking && i < |s.claims| then
      s.(waking := s.waking - {i},
         resumptions := s.resumptions + [s.claims[i].node],
         queued := if loopRunning then s.queued + {|s.resumptions|} else s.queued)
    else s
  }

  function Step<K, N, V>(s: Race<K, N, V>, a: Action<K, N, V>): Race<K, N, V> {
    match a
    case Insert(k, n) =>
      if k in s.table || n in s.verdicts then s
      else s.(table := s.table[k := n], verdicts := s.verdicts[n := None])
    case Claim(ks, v) => ClaimAll(s, ks, v)
    case Resolve(i) => if i in s.hands && i < |s.claims| then DecideClaim(s.(hands := s.hands - {i}), i) else s
    case Wake(i, running) => WakeClaim(s, i, running)
    case RunQueued(i) => s.(queued := s.queued - {i})
  }

  function Run<K, N, V>(s: Race<K, N, V>, acts: seq<Action<K, N, V>>): Race<K, N, V>
    decreases |acts|
  {
    if acts == [] then s else Run(Step(s, acts[0]), acts[1..])
  }

  lemma {:induction false} RunAppend<K, N, V>(s: Race<K, N, V>, a: seq<Action<K, N, V>>, b: seq<Action<K, N, V>>)
    ensures Run(s, a + b) == Run(Run(s, a), b)
    decreases |a|
  {
    if a == [] {
      assert a + b == b;
    } else {
      assert (a + b)[0] == a[0] && (a + b)[1..] == a[1..] + b;
      RunAppend(Step(s, a[0]), a[1..], b);
    }
  }

  /** A claim of one key. */
  lemma ClaimSingle<K, N, V>(s: Race<K, N, V>, k: K, v: V)
    ensures ClaimAll(s, [k], v) == ClaimOne(s, k, v)
  {
    assert [k][1..] == [];
  }

  /** Taking a pending waiter out and deciding it gives it the verdict and somebody who is going to wake it. */
  lemma ClaimThenResolve<K, N, V>(s: Race<K, N, V>, k: K, v: V)
    requires k in s.table && s.table[k] in s.verdicts && s.verdicts[s.table[k]].None?
    ensures var n := s.table[k]; var r := Step(Step(s, Claim([k], v)), Resolve(|s.claims|));
      && r.table == s.table - {k}
      && r.verdicts == s.verdicts[n := Some(v)]
      && r.claims == s.claims + [Ticket(n, v)]
      && r.waking == s.waking + {|s.claims|} && r.resumptions == s.resumptions
  {
    ClaimSingle(s, k, v);
  }

  /** The tickets of claiming several keys, in their order. */
  function TicketsFor<K, N, V>(table: map<K, N>, ks: seq<K>, v: V): seq<Ticket<N, V>>
    decreases |ks|
  {
    if ks == [] then []
    else (if ks[0] in table then [Ticket(table[ks[0]], v)] else []) + TicketsFor(table - {ks[0]}, ks[1..], v)
  }

  lemma {:induction false} ClaimAllTickets<K, N, V>(s: Race<K, N, V>, ks: seq<K>, v: V)
    ensures ClaimAll(s, ks, v).claims == s.claims + TicketsFor(s.table, ks, v)
    decreases |ks|
  {
    if ks != [] {
      var m := ClaimOne(s, ks[0], v);
      assert m.table == s.table - {ks[0]};
      ClaimAllTickets(m, ks[1..], v);
    }
  }

  /** Several keys, each registered, have one ticket each. */
  lemma {:induction false} TicketsInOrder<K, N, V>(table: map<K, N>, ks: seq<K>, v: V)
    requires forall i, j | 0 <= i < j < |ks| :: ks[i] != ks[j]
    requires forall i | 0 <= i < |ks| :: ks[i] in table
    ensures |TicketsFor(table, ks, v)| == |ks|
    ensures forall i | 0 <= i < |ks| :: TicketsFor(table, ks, v)[i] == Ticket(table[ks[i]], v)
    decreases |ks|
  {
    if ks != [] {
      var rest := ks[1..];
      assert forall i | 0 <= i < |rest| :: rest[i] == ks[i + 1];
      TicketsInOrder(table - {ks[0]}, rest, v);
    }
  }

  /** A claim decided and its waiter woken. */
  function Settled<K, N, V>(s: Race<K, N, V>, i: nat, running: bool): Race<K, N, V> {
    Step(Step(s, Resolve(i)), Wake(i, running))
  }

  /** The first n claims from `from` on decided and woken one after the other, each waiter's loop running or not. */
  function SettleFrom<K, N, V>(s: Race<K, N, V>, from: nat, n: nat, running: nat -> bool): Race<K, N, V>
    decreases n
  {
    if n == 0 then s
    else SettleFrom(Settled(s, from, running(from)), from + 1, n - 1, running)
  }

  // ------------------------------------------------------------------ the invariant

  ghost predicate Registered<K, N, V>(s: Race<K, N, V>, n: N) {
    exists k :: k in s.table && s.table[k] == n
  }

  ghost predicate Claimed<K, N, V>(s: Race<K, N, V>, n: N) {
    exists i :: 0 <= i < |s.claims| && s.claims[i].node == n
  }

  /** Registered waiters are pending, distinct, and were never taken out. */
  ghost predicate TableOk<K, N, V>(s: Race<K, N, V>) {
    && (forall k | k in s.table :: s.table[k] in s.verdicts && s.verdicts[s.table[k]].None?)
    && (forall k, l | k in s.table && l in s.table && k != l :: s.table[k] != s.table[l])
    && (forall k, i | k in s.table && 0 <= i < |s.claims| :: s.claims[i].node != s.table[k])
  }

  /**
   * No waiter is taken out twice; it is pending exactly while the claim is in hand, and then has that claim's
   * verdict.
   */
  ghost predicate ClaimsOk<K, N, V>(s: Race<K, N, V>) {
    && (forall i, j | 0 <= i < j < |s.claims| :: s.claims[i].node != s.claims[j].node)
    && (forall i | 0 <= i < |s.claims| ::
         && s.claims[i].node in s.verdicts
         && s.verdicts[s.claims[i].node] == if i in s.hands then None else Some(s.claims[i].verdict))
    && (forall i | i in s.hands :: i < |s.claims|)
  }

  /** Every accepted waiter is registered or was taken out. */
  ghost predicate PlacesOk<K, N, V>(s: Race<K, N, V>) {
    forall n | n in s.verdicts :: Registered(s, n) || Claimed(s, n)
  }

  /** Somebody has decided the waiter and is going to resume it. */
  ghost predicate Waking<K, N, V>(s: Race<K, N, V>, n: N) {
    exists i :: i in s.waking && i < |s.claims| && s.claims[i].node == n
  }

  /** Only decided waiters have a resumption, and each has one at most. */
  ghost predicate ResumesOk<K, N, V>(s: Race<K, N, V>) {
    && (forall i, j | 0 <= i < j < |s.resumptions| :: s.resumptions[i] != s.resumptions[j])
    && (forall i | 0 <= i < |s.resumptions| :: s.resumptions[i] in s.verdicts && s.verdicts[s.resumptions[i]].Some?)
    && (forall i | i in s.queued :: i < |s.resumptions|)
  }

  /** The claim's waiter is decided and was not resumed. */
  ghost predicate IsWaking<K, N, V>(s: Race<K, N, V>, i: nat) {
    i < |s.claims| && i !in s.hands && s.claims[i].node !in s.resumptions
  }

  /** Every decided waiter was resumed, or somebody is going to resume it. */
  ghost predicate WakingOk<K, N, V>(s: Race<K, N, V>) {
    && (forall i | i in s.waking :: IsWaking(s, i))
    && (forall n | n in s.verdicts && s.verdicts[n].Some? :: n in s.resumptions || Waking(s, n))
  }

  ghost predicate CountsOk<K, N, V>(s: Race<K, N, V>) {
    && |s.verdicts| == |s.table| + |s.claims|
    && |s.claims| == |s.hands| + |s.waking| + |s.resumptions|
  }

  ghost predicate Inv<K, N, V>(s: Race<K, N, V>) {
    TableOk(s) && ClaimsOk(s) && PlacesOk(s) && ResumesOk(s) && WakingOk(s) && CountsOk(s)
  }

  lemma InvAtStart<K, N, V>()
    ensures Inv(Empty<K, N, V>())
  {
  }

  lemma ClaimOneKeepsClaims<K, N, V>(s: Race<K, N, V>, k: K, v: V)
    requires TableOk(s) && ClaimsOk(s) && k in s.table
    ensures TableOk(ClaimOne(s, k, v)) && ClaimsOk(ClaimOne(s, k, v))
  {
    var r := ClaimOne(s, k, v);
    assert r.claims[|s.claims|].node == s.table[k];
  }

  lemma {:induction false} ClaimAllKeepsClaims<K, N, V>(s: Race<K, N, V>, ks: seq<K>, v: V)
    requires TableOk(s) && ClaimsOk(s)
    ensures TableOk(ClaimAll(s, ks, v)) && ClaimsOk(ClaimAll(s, ks, v))
    decreases |ks|
  {
    if ks != [] {
      if ks[0] in s.table {
        ClaimOneKeepsClaims(s, ks[0], v);
      }
      ClaimAllKeepsClaims(ClaimOne(s, ks[0], v), ks[1..], v);
    }
  }

  lemma ClaimOneKeepsPlaces<K, N, V>(s: Race<K, N, V>, k: K, v: V)
    requires PlacesOk(s) && k in s.table
    ensures PlacesOk(ClaimOne(s, k, v))
  {
    var r := ClaimOne(s, k, v);
    assert r.claims[|s.claims|].node == s.table[k];
    forall n | n in r.verdicts ensures Registered(r, n) || Claimed(r, n) {
      if Claimed(s, n) {
        var i :| 0 <= i < |s.claims| && s.claims[i].node == n;
        assert r.claims[i].node == n;
      } else if n != s.table[k] {
        var l :| l in s.table && s.table[l] == n;
        assert l in r.table && r.table[l] == n;
      }
    }
  }

  lemma ClaimOneKeepsCounts<K, N, V>(s: Race<K, N, V>, k: K, v: V)
    requires ClaimsOk(s) && ResumesOk(s) && CountsOk(s) && k in s.table
    ensures ResumesOk(ClaimOne(s, k, v)) && CountsOk(ClaimOne(s, k, v))
  {
    assert |s.claims| !in s.hands;
    assert |ClaimOne(s, k, v).table| == |s.table| - 1;
  }

  lemma ClaimOneKeepsWaking<K, N, V>(s: Race<K, N, V>, k: K, v: V)
    requires WakingOk(s) && k in s.table
    ensures WakingOk(ClaimOne(s, k, v))
  {
    var r := ClaimOne(s, k, v);
    forall i | i in r.waking ensures IsWaking(r, i) {
      assert IsWaking(s, i);
    }
    forall n | n in r.verdicts && r.verdicts[n].Some? ensures n in r.resumptions || Waking(r, n) {
      if n !in s.resumptions {
        var i :| i in s.waking && i < |s.claims| && s.claims[i].node == n;
        assert r.claims[i].node == n;
      }
    }
  }

  lemma ClaimOneKeepsInv<K, N, V>(s: Race<K, N, V>, k: K, v: V)
    requires Inv(s)
    ensures Inv(ClaimOne(s, k, v))
  {
    if k in s.table {
      ClaimOneKeepsClaims(s, k, v);
      ClaimOneKeepsPlaces(s, k, v);
      ClaimOneKeepsWaking(s, k, v);
      ClaimOneKeepsCounts(s, k, v);
    }
  }

  lemma {:induction false} ClaimAllKeepsInv<K, N, V>(s: Race<K, N, V>, ks: seq<K>, v: V)
    requires Inv(s)
    ensures Inv(ClaimAll(s, ks, v))
    decreases |ks|
  {
    if ks != [] {
      ClaimOneKeepsInv(s, ks[0], v);
      ClaimAllKeepsInv(ClaimOne(s, ks[0], v), ks[1..], v);
    }
  }

  lemma InsertKeepsClaims<K, N, V>(s: Race<K, N, V>, k: K, n: N)
    requires TableOk(s) && ClaimsOk(s) && k !in s.table && n !in s.verdicts
    ensures TableOk(Step(s, Insert(k, n))) && ClaimsOk(Step(s, Insert(k, n)))
  {
  }

  lemma InsertKeepsPlaces<K, N, V>(s: Race<K, N, V>, k: K, n: N)
    requires PlacesOk(s) && k !in s.table && n !in s.verdicts
    ensures PlacesOk(Step(s, Insert(k, n)))
  {
    var r := Step(s, Insert(k, n));
    forall m | m in r.verdicts ensures Registered(r, m) || Claimed(r, m) {
      if m == n {
        assert r.table[k] == n;
      } else if Claimed(s, m) {
        assert Claimed(r, m);
      } else {
        var l :| l in s.table && s.table[l] == m;
        assert l in r.table && r.table[l] == m;
      }
    }
  }

  lemma InsertKeepsCounts<K, N, V>(s: Race<K, N, V>, k: K, n: N)
    requires ResumesOk(s) && CountsOk(s) && k !in s.table && n !in s.verdicts
    ensures ResumesOk(Step(s, Insert(k, n))) && CountsOk(Step(s, Insert(k, n)))
  {
  }

  lemma InsertKeepsWaking<K, N, V>(s: Race<K, N, V>, k: K, n: N)
    requires WakingOk(s) && k !in s.table && n !in s.verdicts
    ensures WakingOk(Step(s, Insert(k, n)))
  {
    var r := Step(s, Insert(k, n));
    forall i | i in r.waking ensures IsWaking(r, i) {
      assert IsWaking(s, i);
    }
    forall m | m in r.verdicts && r.verdicts[m].Some? ensures m in r.resumptions || Waking(r, m) {
      assert m in s.verdicts && (Waking(s, m) ==> Waking(r, m));
    }
  }

  lemma InsertKeepsInv<K, N, V>(s: Race<K, N, V>, k: K, n: N)
    requires Inv(s) && k !in s.table && n !in s.verdicts
    ensures Inv(Step(s, Insert(k, n)))
  {
    InsertKeepsClaims(s, k, n);
    InsertKeepsPlaces(s, k, n);
    InsertKeepsWaking(s, k, n);
    InsertKeepsCounts(s, k, n);
  }

  lemma ResolveKeepsClaims<K, N, V>(s: Race<K, N, V>, i: nat)
    requires TableOk(s) && ClaimsOk(s) && i in s.hands
    ensures TableOk(Step(s, Resolve(i))) && ClaimsOk(Step(s, Resolve(i)))
  {
    var r := Step(s, Resolve(i));
    forall j | 0 <= j < |r.claims| && j != i ensures r.claims[j].node != r.claims[i].node {}
  }

  /** What deciding a claim in hand does. */
  lemma ResolveEffect<K, N, V>(s: Race<K, N, V>, i: nat)
    requires ClaimsOk(s) && i in s.hands
    ensures i < |s.claims|
    ensures var r := Step(s, Resolve(i)); var t := s.claims[i];
      && t.node in s.verdicts && s.verdicts[t.node].None?
      && r == s.(hands := s.hands - {i}, verdicts := s.verdicts[t.node := Some(t.verdict)], waking := s.waking + {i})
  {
  }

  lemma ResolveKeepsResumes<K, N, V>(s: Race<K, N, V>, i: nat)
    requires ClaimsOk(s) && ResumesOk(s) && i in s.hands
    ensures ResumesOk(Step(s, Resolve(i)))
  {
    ResolveEffect(s, i);
  }

  lemma ResolveKeepsWaking<K, N, V>(s: Race<K, N, V>, i: nat)
    requires ClaimsOk(s) && WakingOk(s) && i in s.hands && i < |s.claims| && s.claims[i].node !in s.resumptions
    ensures WakingOk(Step(s, Resolve(i)))
  {
    ResolveEffect(s, i);
    var r := Step(s, Resolve(i));
    forall j | j in r.waking ensures IsWaking(r, j) {
      assert j != i ==> IsWaking(s, j);
    }
    forall n | n in r.verdicts && r.verdicts[n].Some? ensures n in r.resumptions || Waking(r, n) {
      if n == s.claims[i].node {
        assert i in r.waking && r.claims[i].node == n;
      } else if Waking(s, n) {
        var j :| j in s.waking && j < |s.claims| && s.claims[j].node == n;
        assert j in r.waking && r.claims[j].node == n;
      }
    }
  }

  lemma ResolveKeepsCounts<K, N, V>(s: Race<K, N, V>, i: nat)
    requires ClaimsOk(s) && CountsOk(s) && i in s.hands && i !in s.waking
    ensures CountsOk(Step(s, Resolve(i)))
  {
    ResolveEffect(s, i);
    assert s.verdicts[s.claims[i].node := Some(s.claims[i].verdict)].Keys == s.verdicts.Keys;
  }

  /** Deciding and waking take nobody out of the table or the claims. */
  lemma SamePlaces<K, N, V>(s: Race<K, N, V>, r: Race<K, N, V>)
    requires PlacesOk(s) && r.table == s.table && r.claims == s.claims && r.verdicts.Keys == s.verdicts.Keys
    ensures PlacesOk(r)
  {
    forall m | m in r.verdicts ensures Registered(r, m) || Claimed(r, m) {
      assert Registered(s, m) ==> Registered(r, m);
      assert Claimed(s, m) ==> Claimed(r, m);
    }
  }

  lemma ResolveKeepsPlaces<K, N, V>(s: Race<K, N, V>, i: nat)
    requires PlacesOk(s)
    ensures PlacesOk(Step(s, Resolve(i)))
  {
    SamePlaces(s, Step(s, Resolve(i)));
  }

  /** Nobody in hand was resumed or is about to be. */
  lemma HeldIsNotResumed<K, N, V>(s: Race<K, N, V>, i: nat)
    requires ClaimsOk(s) && ResumesOk(s) && WakingOk(s) && i in s.hands
    ensures i < |s.claims| && s.claims[i].node !in s.resumptions && i !in s.waking
  {
    assert forall j | 0 <= j < |s.resumptions| :: s.resumptions[j] != s.claims[i].node;
    assert i in s.waking ==> IsWaking(s, i);
  }

  lemma ResolveKeepsInv<K, N, V>(s: Race<K, N, V>, i: nat)
    requires Inv(s) && i in s.hands
    ensures Inv(Step(s, Resolve(i)))
  {
    HeldIsNotResumed(s, i);
    ResolveKeepsClaims(s, i);
    ResolveKeepsPlaces(s, i);
    ResolveKeepsResumes(s, i);
    ResolveKeepsWaking(s, i);
    ResolveKeepsCounts(s, i);
  }

  lemma WakeKeepsResumes<K, N, V>(s: Race<K, N, V>, i: nat, running: bool)
    requires ClaimsOk(s) && ResumesOk(s) && i in s.waking && IsWaking(s, i)
    ensures ResumesOk(WakeClaim(s, i, running))
  {
    var r, n := WakeClaim(s, i, running), s.claims[i].node;
    assert r.resumptions == s.resumptions + [n];
    forall j | 0 <= j < |s.resumptions| ensures s.resumptions[j] != n {
      assert s.resumptions[j] in s.resumptions;
    }
  }

  lemma WakeKeepsWaking<K, N, V>(s: Race<K, N, V>, i: nat, running: bool)
    requires ClaimsOk(s) && WakingOk(s) && i in s.waking && IsWaking(s, i)
    ensures WakingOk(WakeClaim(s, i, running))
  {
    var r, n := WakeClaim(s, i, running), s.claims[i].node;
    assert r.resumptions == s.resumptions + [n] && r.resumptions[|s.resumptions|] == n;
    forall j | j in r.waking ensures IsWaking(r, j) {
      assert IsWaking(s, j) && s.claims[j].node != n;
    }
    forall m | m in r.verdicts && r.verdicts[m].Some? ensures m in r.resumptions || Waking(r, m) {
      if m !in r.resumptions {
        assert m !in s.resumptions by {
          assert forall x | x in s.resumptions :: x in r.resumptions;
        }
        var j :| j in s.waking && j < |s.claims| && s.claims[j].node == m;
        assert j in r.waking && r.claims[j].node == m;
      }
    }
  }

  /** Table and claims know nothing of wakings and resumptions. */
  lemma SameClaims<K, N, V>(s: Race<K, N, V>, r: Race<K, N, V>)
    requires TableOk(s) && ClaimsOk(s)
    requires r.table == s.table && r.claims == s.claims && r.verdicts == s.verdicts && r.hands == s.hands
    ensures TableOk(r) && ClaimsOk(r)
  {
  }

  lemma WakeKeepsCounts<K, N, V>(s: Race<K, N, V>, i: nat, running: bool)
    requires CountsOk(s) && i in s.waking && i < |s.claims|
    ensures CountsOk(WakeClaim(s, i, running))
  {
    assert |s.waking - {i}| == |s.waking| - 1;
  }

  lemma WakeKeepsInv<K, N, V>(s: Race<K, N, V>, i: nat, running: bool)
    requires Inv(s) && i in s.waking
    ensures Inv(WakeClaim(s, i, running))
  {
    assert IsWaking(s, i);
    var r := WakeClaim(s, i, running);
    SameClaims(s, r);
    SamePlaces(s, r);
    WakeKeepsResumes(s, i, running);
    WakeKeepsWaking(s, i, running);
    WakeKeepsCounts(s, i, running);
  }

  lemma LoopRunKeepsInv<K, N, V>(s: Race<K, N, V>, i: nat)
    requires Inv(s)
    ensures Inv(s.(queued := s.queued - {i}))
  {
    var r := s.(queued := s.queued - {i});
    SamePlaces(s, r);
    forall j | j in r.waking ensures IsWaking(r, j) {
      assert IsWaking(s, j);
    }
    forall n | n in r.verdicts && r.verdicts[n].Some? ensures n in r.resumptions || Waking(r, n) {
      assert Waking(s, n) ==> Waking(r, n);
    }
  }

  lemma StepKeepsInv<K, N, V>(s: Race<K, N, V>, a: Action<K, N, V>)
    requires Inv(s)
    ensures Inv(Step(s, a))
  {
    match a {
      case Insert(k, n) => if k !in s.table && n !in s.verdicts { InsertKeepsInv(s, k, n); }
      case Claim(ks, v) => ClaimAllKeepsInv(s, ks, v);
      case Resolve(i) => if i in s.hands { ResolveKeepsInv(s, i); }
      case Wake(i, running) => if i in s.waking { WakeKeepsInv(s, i, running); }
      case RunQueued(i) => LoopRunKeepsInv(s, i);
    }
  }

  /** Over every run the invariant holds. */
  lemma {:induction false} RunKeepsInv<K, N, V>(s: Race<K, N, V>, acts: seq<Action<K, N, V>>)
    requires Inv(s)
    ensures Inv(Run(s, acts))
    decreases |acts|
  {
    if acts != [] {
      StepKeepsInv(s, acts[0]);
      RunKeepsInv(Step(s, acts[0]), acts[1..]);
    }
  }

  // ------------------------------------------------------------------ what the invariant gives

  /** The i-th claim is the only one on n: in hand while n is pending, and the giver of its verdict afterwards. */
  ghost predicate OnlyClaim<K, N, V>(s: Race<K, N, V>, n: N, i: nat)
    requires n in s.verdicts
  {
    && i < |s.claims| && s.claims[i].node == n
    && (forall j | 0 <= j < |s.claims| && s.claims[j].node == n :: j == i)
    && (i in s.hands <==> s.verdicts[n].None?)
    && (i in s.waking <==> Waking(s, n))
    && (i !in s.hands ==> s.verdicts[n] == Some(s.claims[i].verdict))
  }

  ghost predicate ResumedAtMostOnce<K, N, V>(s: Race<K, N, V>, n: N) {
    forall i, j | 0 <= i < j < |s.resumptions| && s.resumptions[i] == n :: s.resumptions[j] != n
  }

  /** A waiter is decided exactly if it was resumed, once, or the holder of its claim is about to resume it. */
  ghost predicate ResumedIfDecided<K, N, V>(s: Race<K, N, V>, n: N)
    requires n in s.verdicts
  {
    && (s.verdicts[n].Some? <==> n in s.resumptions || Waking(s, n))
    && !(n in s.resumptions && Waking(s, n))
    && ResumedAtMostOnce(s, n)
  }

  lemma ResumedOnce<K, N, V>(s: Race<K, N, V>, n: N)
    requires ClaimsOk(s) && ResumesOk(s) && WakingOk(s) && n in s.verdicts
    ensures ResumedIfDecided(s, n)
  {
    if Waking(s, n) {
      var i :| i in s.waking && i < |s.claims| && s.claims[i].node == n;
      assert IsWaking(s, i);
    }
  }

  lemma OnlyClaimIs<K, N, V>(s: Race<K, N, V>, n: N, i: nat)
    requires ClaimsOk(s) && n in s.verdicts && i < |s.claims| && s.claims[i].node == n
    ensures OnlyClaim(s, n, i)
  {
    forall j | 0 <= j < |s.claims| && s.claims[j].node == n ensures j == i {
      assert !(j < i) && !(i < j);
    }
  }

  lemma RegisteredOrClaimed<K, N, V>(s: Race<K, N, V>, n: N)
    requires TableOk(s) && PlacesOk(s) && n in s.verdicts
    ensures Registered(s, n) != Claimed(s, n)
    ensures Registered(s, n) ==> s.verdicts[n].None?
  {
  }

  /**
   * Every accepted waiter is in exactly one place: registered, in exactly one hand, or decided with the
   * verdict of its only claim, and then resumed once or about to be.
   */
  lemma OnePlaceEach<K, N, V>(s: Race<K, N, V>, n: N)
    requires Inv(s) && n in s.verdicts
    ensures Registered(s, n) != Claimed(s, n)
    ensures Registered(s, n) ==> s.verdicts[n].None? && n !in s.resumptions
    ensures Claimed(s, n) ==> exists i: nat :: OnlyClaim(s, n, i)
    ensures ResumedIfDecided(s, n)
  {
    RegisteredOrClaimed(s, n);
    ResumedOnce(s, n);
    if Claimed(s, n) {
      var i :| 0 <= i < |s.claims| && s.claims[i].node == n;
      OnlyClaimIs(s, n, i);
    }
  }

  ghost predicate TakenFrom<K, N>(table: map<K, N>, ks: seq<K>, n: N) {
    exists k :: k in ks && k in table && table[k] == n
  }

  lemma {:induction false} ClaimAllEffect<K, N, V>(s: Race<K, N, V>, ks: seq<K>, v: V)
    ensures var r := ClaimAll(s, ks, v);
      && r.table == s.table - (set k | k in ks)
      && r.verdicts == s.verdicts
      && r.waking == s.waking && r.resumptions == s.resumptions && r.queued == s.queued
      && s.claims <= r.claims && s.hands <= r.hands
      && (forall i | |s.claims| <= i < |r.claims| ::
           i in r.hands && r.claims[i].verdict == v && TakenFrom(s.table, ks, r.claims[i].node))
    decreases |ks|
  {
    if ks != [] {
      var m := ClaimOne(s, ks[0], v);
      ClaimAllEffect(m, ks[1..], v);
      var r := ClaimAll(s, ks, v);
      assert ks == [ks[0]] + ks[1..];
      assert r.table == s.table - (set k | k in ks);
      forall i | |s.claims| <= i < |r.claims|
        ensures i in r.hands && r.claims[i].verdict == v && TakenFrom(s.table, ks, r.claims[i].node)
      {
        if i < |m.claims| {
          assert r.claims[i] == m.claims[i] && ks[0] in ks;
          assert TakenFrom(s.table, ks, s.table[ks[0]]);
        } else {
          assert TakenFrom(m.table, ks[1..], r.claims[i].node);
          var k :| k in ks[1..] && k in m.table && m.table[k] == r.claims[i].node;
          assert k in ks && k in s.table;
        }
      }
    }
  }

  /** What a waiter keeps for good: its verdict once given, and that it left the table. */
  ghost predicate Settling<K, N, V>(s: Race<K, N, V>, r: Race<K, N, V>) {
    && s.verdicts.Keys <= r.verdicts.Keys
    && s.claims <= r.claims
    && (forall n | n in s.verdicts && s.verdicts[n].Some? :: r.verdicts[n] == s.verdicts[n])
    && (forall n | n in s.verdicts && Registered(r, n) :: Registered(s, n))
  }

  lemma StepSettles<K, N, V>(s: Race<K, N, V>, a: Action<K, N, V>)
    ensures Settling(s, Step(s, a))
  {
    var r := Step(s, a);
    match a {
      case Insert(k, n) =>
        forall m | m in s.verdicts && Registered(r, m) ensures Registered(s, m) {
          var l :| l in r.table && r.table[l] == m;
          assert l in s.table ==> s.table[l] == r.table[l] || l == k;
        }
      case Claim(ks, v) =>
        ClaimAllEffect(s, ks, v);
        forall m | m in s.verdicts && Registered(r, m) ensures Registered(s, m) {
          var l :| l in r.table && r.table[l] == m;
          assert l in s.table && s.table[l] == m;
        }
      case _ =>
        forall m | m in s.verdicts && Registered(r, m) ensures Registered(s, m) {}
    }
  }

  /** A verdict, once given, is never changed; a waiter that left the table never comes back. */
  lemma {:induction false} RunSettles<K, N, V>(s: Race<K, N, V>, acts: seq<Action<K, N, V>>)
    ensures Settling(s, Run(s, acts))
    decreases |acts|
  {
    if acts != [] {
      var m := Step(s, acts[0]);
      StepSettles(s, acts[0]);
      RunSettles(m, acts[1..]);
      forall n | n in s.verdicts && Registered(Run(s, acts), n) ensures Registered(s, n) {
        assert Registered(m, n);
      }
    } else {
      forall n | n in s.verdicts && Registered(Run(s, acts), n) ensures Registered(s, n) {}
    }
  }

  ghost predicate Held<K, N, V>(s: Race<K, N, V>, n: N) {
    exists i :: i in s.hands && i < |s.claims| && s.claims[i].node == n
  }

  /** Out of the table, a waiter is pending exactly while somebody holds its ticket. */
  lemma PendingIsHeld<K, N, V>(s: Race<K, N, V>, n: N)
    requires Inv(s) && n in s.verdicts && !Registered(s, n)
    ensures s.verdicts[n].None? <==> Held(s, n)
  {
    assert Claimed(s, n);
    var i :| 0 <= i < |s.claims| && s.claims[i].node == n;
    assert i in s.hands <==> s.verdicts[n].None?;
  }

  /** The waiter of one of the claims from..from + n. */
  predicate Between<K, N, V>(s: Race<K, N, V>, from: nat, n: nat, w: N) {
    exists j: nat | from <= j < from + n && j < |s.claims| :: s.claims[j].node == w
  }

  lemma SettledKeeps<K, N, V>(s: Race<K, N, V>, i: nat, running: bool)
    ensures var r := Settled(s, i, running);
      && r.table == s.table && r.claims == s.claims && r.verdicts.Keys == s.verdicts.Keys && s.hands - {i} <= r.hands
  {
  }

  lemma SettledOnlyItsOwn<K, N, V>(s: Race<K, N, V>, i: nat, running: bool, w: N)
    requires w in s.verdicts && (s.verdicts[w].Some? || (i < |s.claims| ==> s.claims[i].node != w))
    ensures var r := Settled(s, i, running); w in r.verdicts && r.verdicts[w] == s.verdicts[w]
  {
  }

  lemma SettledDecides<K, N, V>(s: Race<K, N, V>, i: nat, running: bool)
    requires i in s.hands && i < |s.claims| && s.claims[i].node in s.verdicts && s.verdicts[s.claims[i].node].None?
    ensures var r := Settled(s, i, running); var w := s.claims[i].node;
      w in r.verdicts && r.verdicts[w] == Some(s.claims[i].verdict)
  {
  }

  lemma {:induction false} SettleFromKeeps<K, N, V>(s: Race<K, N, V>, from: nat, n: nat, running: nat -> bool)
    ensures var r := SettleFrom(s, from, n, running);
      r.table == s.table && r.claims == s.claims && r.verdicts.Keys == s.verdicts.Keys
    decreases n
  {
    if n != 0 {
      SettledKeeps(s, from, running(from));
      SettleFromKeeps(Settled(s, from, running(from)), from + 1, n - 1, running);
    }
  }

  lemma BetweenNext<K, N, V>(s: Race<K, N, V>, m: Race<K, N, V>, from: nat, n: nat, w: N)
    requires n > 0 && m.claims == s.claims && !Between(s, from, n, w)
    ensures !Between(m, from + 1, n - 1, w) && (from < |s.claims| ==> s.claims[from].node != w)
  {
  }

  /** Settling leaves everybody else, and everybody decided, alone. */
  lemma {:induction false} SettleFromOthers<K, N, V>(s: Race<K, N, V>, from: nat, n: nat, running: nat -> bool, w: N)
    requires w in s.verdicts && (s.verdicts[w].Some? || !Between(s, from, n, w))
    ensures var r := SettleFrom(s, from, n, running); w in r.verdicts && r.verdicts[w] == s.verdicts[w]
    decreases n
  {
    if n != 0 {
      var m := Settled(s, from, running(from));
      SettledKeeps(s, from, running(from));
      SettledOnlyItsOwn(s, from, running(from), w);
      if !Between(s, from, n, w) {
        BetweenNext(s, m, from, n, w);
      }
      SettleFromOthers(m, from + 1, n - 1, running, w);
    }
  }

  lemma FirstOfItsNode<K, N, V>(s: Race<K, N, V>, from: nat, i: nat)
    requires ClaimsOk(s) && from <= i < |s.claims|
    ensures s.claims[i].node in s.verdicts && !Between(s, from, i - from, s.claims[i].node)
    ensures i in s.hands ==> s.verdicts[s.claims[i].node].None?
  {
  }

  /** Settling claims in hand one after the other gives each of their waiters the claim's verdict. */
  lemma {:induction false} SettleFromDecides<K, N, V>(s: Race<K, N, V>, from: nat, n: nat, running: nat -> bool, i: nat)
    requires from <= i < from + n && i < |s.claims| && i in s.hands
    requires var w := s.claims[i].node; w in s.verdicts && s.verdicts[w].None? && !Between(s, from, i - from, w)
    ensures var r := SettleFrom(s, from, n, running); var w := s.claims[i].node;
      w in r.verdicts && r.verdicts[w] == Some(s.claims[i].verdict)
    decreases n
  {
    var m, w := Settled(s, from, running(from)), s.claims[i].node;
    SettledKeeps(s, from, running(from));
    if i == from {
      SettledDecides(s, i, running(i));
      SettleFromOthers(m, from + 1, n - 1, running, w);
    } else {
      BetweenNext(s, m, from, i - from, w);
      SettledOnlyItsOwn(s, from, running(from), w);
      SettleFromDecides(m, from + 1, n - 1, running, i);
    }
  }

  /** Every key taken out, each once: the tickets in their order. */
  lemma TakeAllOutTickets<K, N, V>(s: Race<K, N, V>, ks: seq<K>, v: V)
    requires forall i, j | 0 <= i < j < |ks| :: ks[i] != ks[j]
    requires forall k :: k in ks <==> k in s.table
    ensures var d := ClaimAll(s, ks, v);
      && |d.claims| == |s.claims| + |ks|
      && (forall i | 0 <= i < |ks| :: d.claims[|s.claims| + i] == Ticket(s.table[ks[i]], v))
  {
    ClaimAllTickets(s, ks, v);
    assert forall i | 0 <= i < |ks| :: ks[i] in ks;
    TicketsInOrder(s.table, ks, v);
  }

  /** Nothing is registered any more, nobody is decided yet, and the new claims are all in hand. */
  lemma TakeAllOutState<K, N, V>(s: Race<K, N, V>, ks: seq<K>, v: V)
    requires TableOk(s) && ClaimsOk(s) && forall k :: k in ks <==> k in s.table
    ensures var d := ClaimAll(s, ks, v);
      && ClaimsOk(d) && d.table == map[] && d.verdicts == s.verdicts
      && (forall j: nat | |s.claims| <= j < |d.claims| :: j in d.hands)
  {
    ClaimAllEffect(s, ks, v);
    ClaimAllKeepsClaims(s, ks, v);
    assert s.table - (set k | k in ks) == map[];
  }

  /** Whoever holds a claim can end it: its waiter gets the claim's verdict, and then its one resumption. */
  lemma HolderEnds<K, N, V>(s: Race<K, N, V>, i: nat, running: bool)
    requires ClaimsOk(s) && WakingOk(s) && i in s.hands
    ensures i < |s.claims|
    ensures var n := s.claims[i].node; var d := Step(s, Resolve(i)); var r := Step(d, Wake(i, running));
      && d.verdicts == s.verdicts[n := Some(s.claims[i].verdict)] && d.hands == s.hands - {i}
      && r.verdicts == d.verdicts && r.resumptions == s.resumptions + [n] && r.waking == s.waking
      && r.queued == if running then s.queued + {|s.resumptions|} else s.queued
  {
    assert i in s.waking ==> IsWaking(s, i);
    assert s.waking + {i} - {i} == s.waking;
  }

  /**
   * A drain takes out every registered waiter. From then on, whatever else happens, a waiter accepted
   * before it is pending only while somebody still holds its ticket.
   */
  lemma DrainLeavesOnlyHands<K, N, V>(s: Race<K, N, V>, ks: seq<K>, v: V, acts: seq<Action<K, N, V>>, n: N)
    requires Inv(s) && n in s.verdicts && (forall k | k in s.table :: k in ks)
    ensures var r := Run(ClaimAll(s, ks, v), acts);
      n in r.verdicts && !Registered(r, n) && (r.verdicts[n].None? <==> Held(r, n))
  {
    var d := ClaimAll(s, ks, v);
    var r := Run(d, acts);
    ClaimAllEffect(s, ks, v);
    ClaimAllKeepsInv(s, ks, v);
    RunKeepsInv(d, acts);
    RunSettles(d, acts);
    assert !Registered(r, n) by {
      assert d.table == map[];
      assert !Registered(d, n);
    }
    PendingIsHeld(r, n);
  }
}
