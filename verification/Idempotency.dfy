/**
 * The idempotency cache of the send routes (src/http/idempotency_cache.hpp): keys in the order of their
 * first claim, evicted from the front, with the answers of finished requests.
 */
module Idempotency {
  import opened Sequences

  datatype Entry = Entry(done: bool, status: int, body: string)

  const PENDING := Entry(false, 0, "")

  datatype Cache = Cache(max: nat, entries: map<string, Entry>, order: seq<string>)

  datatype Answer = Yours | InFlight | Replay(status: int, body: string)

  datatype Op = Claim(key: string) | Store(key: string, status: int, body: string) | Release(key: string)

  /** A cache made for no entries still holds the one just claimed. */
  function Capacity(c: Cache): nat {
    if c.max == 0 then 1 else c.max
  }

  predicate NoRepeats(s: seq<string>) {
    forall i, j | 0 <= i < j < |s| :: s[i] != s[j]
  }

  /** The order holds exactly the keys of the entries, each once, and no more than the capacity. */
  ghost predicate Valid(c: Cache) {
    && NoRepeats(c.order)
    && (forall k :: k in c.order <==> k in c.entries)
    && |c.order| <= Capacity(c)
  }

  /** Room for one more: the oldest keys go until fewer than the capacity are left. */
  function Evicted(c: Cache): Cache
    decreases |c.order|
  {
    if |c.order| >= c.max && c.order != [] then
      Evicted(c.(entries := c.entries - {c.order[0]}, order := c.order[1..]))
    else c
  }

  function Claimed(c: Cache, k: string): (Cache, Answer) {
    if k !in c.entries then
      var e := Evicted(c);
      (e.(entries := e.entries[k := PENDING], order := e.order + [k]), Yours)
    else if !c.entries[k].done then (c, InFlight)
    else (c, Replay(c.entries[k].status, c.entries[k].body))
  }

  function Apply(c: Cache, op: Op): Cache {
    match op
    case Claim(k) => Claimed(c, k).0
    case Store(k, status, body) =>
      if k in c.entries then c.(entries := c.entries[k := Entry(true, status, body)]) else c
    case Release(k) => c.(entries := c.entries - {k}, order := Without(c.order, k))
  }

  function Run(c: Cache, ops: seq<Op>): Cache
    decreases |ops|
  {
    if ops == [] then c else Run(Apply(c, ops[0]), ops[1..])
  }

  // ------------------------------------------------------------------ the invariant

  lemma DropOldest(c: Cache)
    requires Valid(c) && c.order != []
    ensures Valid(c.(entries := c.entries - {c.order[0]}, order := c.order[1..]))
  {
    var rest := c.order[1..];
    assert c.order == [c.order[0]] + rest;
    assert forall i | 0 <= i < |rest| :: rest[i] == c.order[i + 1];
    forall k ensures k in rest <==> k in c.entries && k != c.order[0] {
      assert k in c.order <==> k == c.order[0] || k in rest;
    }
  }

  /** In a valid cache at most one key goes: the oldest, and only when the cache is full. */
  lemma EvictedKeeps(c: Cache)
    requires Valid(c)
    ensures var e := Evicted(c);
      && Valid(e) && e.max == c.max && |e.order| < Capacity(c)
      && (|c.order| < Capacity(c) ==> e == c)
      && (|c.order| == Capacity(c) ==> e.order == c.order[1..])
      && (forall k | k in e.entries :: k in c.entries && e.entries[k] == c.entries[k])
  {
    if |c.order| == Capacity(c) {
      DropOldest(c);
      var n := c.(entries := c.entries - {c.order[0]}, order := c.order[1..]);
      assert Evicted(c) == Evicted(n) == n;
    }
  }

  lemma {:induction false} WithoutIs(s: seq<string>, k: string)
    requires NoRepeats(s)
    ensures var r := Without(s, k);
      && NoRepeats(r) && |r| <= |s|
      && (forall j :: j in r <==> j in s && j != k)
    decreases |s|
  {
    if s != [] {
      var rest := s[1..];
      assert s == [s[0]] + rest;
      assert forall i | 0 <= i < |rest| :: rest[i] == s[i + 1];
      WithoutIs(rest, k);
      assert s[0] !in rest;
      var w := Without(rest, k);
      if s[0] != k {
        forall i, j | 0 <= i < j < |w| + 1 ensures ([s[0]] + w)[i] != ([s[0]] + w)[j] {
          assert w[j - 1] in w;
        }
      }
      forall j ensures j in Without(s, k) <==> j in s && j != k {
        assert j in s <==> j == s[0] || j in rest;
      }
    }
  }

  lemma ClaimKeepsValid(c: Cache, k: string)
    requires Valid(c)
    ensures Valid(Apply(c, Claim(k))) && Apply(c, Claim(k)).max == c.max
  {
    if k !in c.entries {
      EvictedKeeps(c);
      var e, d := Evicted(c), Apply(c, Claim(k));
      assert k !in e.order;
      forall j ensures j in d.order <==> j in d.entries {
        assert j in d.order <==> j in e.order || j == k;
      }
    }
  }

  lemma ApplyKeepsValid(c: Cache, op: Op)
    requires Valid(c)
    ensures Valid(Apply(c, op)) && Apply(c, op).max == c.max
  {
    match op {
      case Claim(k) => ClaimKeepsValid(c, k);
      case Store(_, _, _) =>
      case Release(k) => WithoutIs(c.order, k);
    }
  }

  /** After any operations the two containers hold the same keys, once each, within the capacity. */
  lemma {:induction false} RunKeepsValid(c: Cache, ops: seq<Op>)
    requires Valid(c)
    ensures Valid(Run(c, ops)) && Run(c, ops).max == c.max
    decreases |ops|
  {
    if ops != [] {
      ApplyKeepsValid(c, ops[0]);
      RunKeepsValid(Apply(c, ops[0]), ops[1..]);
    }
  }

  // ------------------------------------------------------------------ how long a key is remembered

  /** How many of the operations are claims answered with Yours. */
  function FreshClaims(c: Cache, ops: seq<Op>): nat
    decreases |ops|
  {
    if ops == [] then 0
    else (if ops[0].Claim? && ops[0].key !in c.entries then 1 else 0) + FreshClaims(Apply(c, ops[0]), ops[1..])
  }

  /** What the operations leave stored for a key that had e: the last store. */
  function LastStored(ops: seq<Op>, k: string, e: Entry): Entry
    decreases |ops|
  {
    if ops == [] then e
    else
      var stored := if ops[0].Store? && ops[0].key == k then Entry(true, ops[0].status, ops[0].body) else e;
      LastStored(ops[1..], k, stored)
  }

  /** How many keys would be evicted after k. */
  function Behind(s: seq<string>, k: string): nat {
    if s == [] then 0 else if s[0] == k then |s| - 1 else Behind(s[1..], k)
  }

  lemma {:induction false} BehindAppend(s: seq<string>, k: string, x: string)
    requires k in s && x != k
    ensures Behind(s + [x], k) == Behind(s, k) + 1
    decreases |s|
  {
    assert (s + [x])[0] == s[0] && (s + [x])[1..] == s[1..] + [x];
    if s[0] != k {
      BehindAppend(s[1..], k, x);
    }
  }

  lemma {:induction false} BehindWithout(s: seq<string>, k: string, x: string)
    requires k in s && x != k
    ensures k in Without(s, x) && Behind(Without(s, x), k) <= Behind(s, k)
    ensures |Without(s, x)| <= |s|
    decreases |s|
  {
    if s[0] == k {
      WithoutShortens(s[1..], x);
      assert Without(s, x) == [k] + Without(s[1..], x);
    } else if s[0] != x {
      BehindWithout(s[1..], k, x);
      assert Without(s, x)[1..] == Without(s[1..], x);
    }
  }

  lemma {:induction false} WithoutShortens(s: seq<string>, x: string)
    ensures |Without(s, x)| <= |s|
    decreases |s|
  {
    if s != [] {
      WithoutShortens(s[1..], x);
    }
  }

  lemma {:induction false} BehindLast(s: seq<string>, k: string)
    requires k !in s
    ensures Behind(s + [k], k) == 0
    decreases |s|
  {
    if s != [] {
      assert (s + [k])[0] == s[0] && (s + [k])[1..] == s[1..] + [k];
      BehindLast(s[1..], k);
    }
  }

  /** Making room leaves a key that is not the last to stay. */
  lemma EvictedBehind(c: Cache, k: string)
    requires Valid(c) && k in c.entries && Behind(c.order, k) + 1 < Capacity(c)
    ensures var e := Evicted(c); Behind(e.order, k) == Behind(c.order, k) && k in e.order && k in e.entries
  {
    EvictedKeeps(c);
    var e := Evicted(c);
    if |c.order| == Capacity(c) {
      assert c.order[0] != k;
      assert c.order == [c.order[0]] + e.order;
    }
    assert k in e.order;
  }

  /** A fresh claim of another key moves a key one place towards eviction, and evicts it from the last place only. */
  lemma ClaimMovesKey(c: Cache, x: string, k: string)
    requires Valid(c) && k in c.entries && x !in c.entries
    requires Behind(c.order, k) + 1 < Capacity(c)
    ensures var r := Claimed(c, x).0;
      k in r.entries && Behind(r.order, k) == Behind(c.order, k) + 1 && r.entries[k] == c.entries[k]
  {
    EvictedKeeps(c);
    EvictedBehind(c, k);
    BehindAppend(Evicted(c).order, k, x);
  }

  /** One operation moves a key at most one place towards eviction, and only a fresh claim does. */
  lemma OpKeepsKey(c: Cache, op: Op, k: string)
    requires Valid(c) && k in c.entries && op != Release(k)
    requires Behind(c.order, k) + FreshClaims(c, [op]) < Capacity(c)
    ensures var r := Apply(c, op);
      && k in r.entries
      && Behind(r.order, k) <= Behind(c.order, k) + FreshClaims(c, [op])
      && r.entries[k] == LastStored([op], k, c.entries[k])
  {
    assert [op][1..] == [];
    match op {
      case Claim(x) => if x !in c.entries { ClaimMovesKey(c, x, k); }
      case Store(_, _, _) =>
      case Release(x) => BehindWithout(c.order, k, x);
    }
  }

  lemma {:induction false} KeyKept(c: Cache, ops: seq<Op>, k: string)
    requires Valid(c) && k in c.entries && Release(k) !in ops
    requires Behind(c.order, k) + FreshClaims(c, ops) < Capacity(c)
    ensures var r := Run(c, ops); k in r.entries && r.entries[k] == LastStored(ops, k, c.entries[k])
    decreases |ops|
  {
    if ops != [] {
      var m := Apply(c, ops[0]);
      assert [ops[0]][1..] == [] && ops[0] in ops;
      OpKeepsKey(c, ops[0], k);
      ApplyKeepsValid(c, ops[0]);
      KeyKept(m, ops[1..], k);
    }
  }

  /** What a claim of a remembered key is answered. */
  function AnswerFor(e: Entry): Answer {
    if e.done then Replay(e.status, e.body) else InFlight
  }

  /**
   * A key claimed freshly and never released is still there after any operations with fewer fresh claims
   * than the capacity; until then every claim of it is answered InFlight before anything was stored for
   * it, and with exactly what was stored last after that, and claims nothing anew.
   */
  lemma ClaimedIsRemembered(c: Cache, k: string, ops: seq<Op>)
    requires Valid(c) && k !in c.entries && Release(k) !in ops
    requires var d := Claimed(c, k).0; FreshClaims(d, ops) < Capacity(c)
    ensures Claimed(c, k).1 == Yours
    ensures var r := Run(Claimed(c, k).0, ops);
      k in r.entries && Claimed(r, k) == (r, AnswerFor(LastStored(ops, k, PENDING)))
  {
    var d := Claimed(c, k).0;
    ApplyKeepsValid(c, Claim(k));
    EvictedKeeps(c);
    BehindLast(Evicted(c).order, k);
    KeyKept(d, ops, k);
  }

  // ------------------------------------------------------------------ exactly when a key goes

  /** The operation takes k out: it releases it, or it is a fresh claim and k is the oldest of a full cache. */
  predicate Drops(c: Cache, op: Op, k: string) {
    || op == Release(k)
    || (op.Claim? && op.key !in c.entries && c.order != [] && |c.order| == Capacity(c) && c.order[0] == k)
  }

  /** The keys a fresh claim leaves, and their order. */
  lemma ClaimEffect(c: Cache, x: string)
    requires Valid(c) && x !in c.entries
    ensures var d := Claimed(c, x).0; var kept := if |c.order| == Capacity(c) then c.order[1..] else c.order;
      d.order == kept + [x] && forall k :: k in d.entries <==> k in kept || k == x
  {
    EvictedKeeps(c);
    ApplyKeepsValid(c, Claim(x));
    var d := Claimed(c, x).0;
    assert forall k :: k in d.entries <==> k in d.order;
  }

  lemma OldestIsOnlyFirst(c: Cache, k: string)
    requires Valid(c) && k in c.entries && c.order != []
    ensures k in c.order[1..] <==> c.order[0] != k
  {
    assert c.order == [c.order[0]] + c.order[1..];
    assert k in c.order;
  }

  /** No other operation takes a key out. */
  lemma GoesExactly(c: Cache, op: Op, k: string)
    requires Valid(c) && k in c.entries
    ensures k !in Apply(c, op).entries <==> Drops(c, op, k)
  {
    assert k in c.order;
    OldestIsOnlyFirst(c, k);
    if op.Claim? && op.key !in c.entries {
      ClaimEffect(c, op.key);
    }
  }

  /** The key is there after each of the operations. */
  predicate Survives(c: Cache, ops: seq<Op>, k: string)
    decreases |ops|
  {
    k in c.entries && (ops == [] || Survives(Apply(c, ops[0]), ops[1..], k))
  }

  predicate NoReleases(ops: seq<Op>) {
    forall op | op in ops :: !op.Release?
  }

  lemma {:induction false} BehindBounds(s: seq<string>, k: string)
    requires k in s
    ensures Behind(s, k) < |s|
    ensures Behind(s, k) == |s| - 1 <==> s[0] == k
    decreases |s|
  {
    if s[0] != k {
      BehindBounds(s[1..], k);
    }
  }

  /** A fresh claim takes the key out of the last place, and otherwise moves it one place towards it. */
  lemma ClaimMoves(c: Cache, x: string, k: string)
    requires Valid(c) && k in c.entries && x !in c.entries
    ensures var d := Claimed(c, x).0;
      && Behind(c.order, k) < Capacity(c)
      && (k in d.entries <==> Behind(c.order, k) + 1 < Capacity(c))
      && (k in d.entries ==> Behind(d.order, k) == Behind(c.order, k) + 1)
  {
    assert k in c.order;
    BehindBounds(c.order, k);
    GoesExactly(c, Claim(x), k);
    if Behind(c.order, k) + 1 < Capacity(c) {
      ClaimMovesKey(c, x, k);
    }
  }

  /**
   * With no releases, a key survives any claims and stores, of itself and of others, if and only if the
   * fresh claims among them and the keys behind it are fewer than the capacity.
   */
  lemma {:induction false} SurvivesExactly(c: Cache, ops: seq<Op>, k: string)
    requires Valid(c) && k in c.entries && NoReleases(ops)
    ensures Survives(c, ops, k) <==> Behind(c.order, k) + FreshClaims(c, ops) < Capacity(c)
    decreases |ops|
  {
    if ops == [] {
      assert k in c.order;
      BehindBounds(c.order, k);
    } else {
      var op, d := ops[0], Apply(c, ops[0]);
      assert op in ops;
      ApplyKeepsValid(c, op);
      GoesExactly(c, op, k);
      if op.Claim? && op.key !in c.entries {
        ClaimMoves(c, op.key, k);
      }
      if k in d.entries {
        assert NoReleases(ops[1..]);
        SurvivesExactly(d, ops[1..], k);
      }
    }
  }

  /** A key that is gone comes back by a claim only. */
  lemma {:induction false} GoneStays(c: Cache, ops: seq<Op>, k: string)
    requires Valid(c) && k !in c.entries && Claim(k) !in ops
    ensures k !in Run(c, ops).entries
    decreases |ops|
  {
    if ops != [] {
      assert ops[0] in ops;
      if ops[0].Claim? && ops[0].key !in c.entries {
        EvictedKeeps(c);
      }
      ApplyKeepsValid(c, ops[0]);
      GoneStays(Apply(c, ops[0]), ops[1..], k);
    }
  }

  lemma {:induction false} ThereIfSurvived(c: Cache, ops: seq<Op>, k: string)
    requires Valid(c) && k in c.entries && Claim(k) !in ops
    ensures k in Run(c, ops).entries <==> Survives(c, ops, k)
    decreases |ops|
  {
    if ops != [] {
      var d := Apply(c, ops[0]);
      ApplyKeepsValid(c, ops[0]);
      if k in d.entries {
        ThereIfSurvived(d, ops[1..], k);
      } else {
        GoneStays(d, ops[1..], k);
      }
    }
  }

  /** So a key nobody claims again is there in the end exactly then, whatever its request is doing. */
  lemma RememberedExactly(c: Cache, ops: seq<Op>, k: string)
    requires Valid(c) && k in c.entries && NoReleases(ops) && Claim(k) !in ops
    ensures k in Run(c, ops).entries <==> Behind(c.order, k) + FreshClaims(c, ops) < Capacity(c)
  {
    SurvivesExactly(c, ops, k);
    ThereIfSurvived(c, ops, k);
  }

  // ------------------------------------------------------------------ the cache, in place

  class IdempotencyCache {
    const maxEntries: nat
    var entries: map<string, Entry>
    var order: seq<string>

    function View(): Cache
      reads this
    {
      Cache(maxEntries, entries, order)
    }

    constructor (max: nat)
      ensures View() == Cache(max, map[], []) && Valid(View())
    {
      maxEntries := max;
      entries, order := map[], [];
    }

    method EvictIfNeeded()
      modifies this
      ensures View() == Evicted(old(View()))
    {
      while |order| >= maxEntries && order != []
        invariant Evicted(View()) == Evicted(old(View()))
        decreases |order|
      {
        entries := entries - {order[0]};
        order := order[1..];
      }
    }

    method ClaimKey(k: string) returns (a: Answer)
      requires Valid(View())
      modifies this
      ensures (View(), a) == Claimed(old(View()), k)
      ensures Valid(View())
      ensures k in old(entries) ==> entries == old(entries) && order == old(order)
      ensures k in old(entries) ==>
        a == if entries[k].done then Replay(entries[k].status, entries[k].body) else InFlight
      ensures k !in old(entries) ==> a == Yours && k in entries && !entries[k].done && order[|order| - 1] == k
    {
      ApplyKeepsValid(View(), Claim(k));
      if k !in entries {
        EvictIfNeeded();
        entries := entries[k := PENDING];
        order := order + [k];
        return Yours;
      }
      if !entries[k].done { return InFlight; }
      a := Replay(entries[k].status, entries[k].body);
    }

    method StoreAnswer(k: string, status: int, body: string)
      requires Valid(View())
      modifies this
      ensures View() == Apply(old(View()), Store(k, status, body)) && Valid(View())
      ensures order == old(order)
      ensures entries == if k in old(entries) then old(entries)[k := Entry(true, status, body)] else old(entries)
    {
      if k in entries {
        entries := entries[k := Entry(true, status, body)];
      }
    }

    method ReleaseKey(k: string)
      requires Valid(View())
      modifies this
      ensures View() == Apply(old(View()), Release(k)) && Valid(View())
      ensures entries == old(entries) - {k} && k !in order
    {
      ApplyKeepsValid(View(), Release(k));
      entries := entries - {k};
      ghost var start := order;
      var i := 0;
      while i < |order|
        invariant i <= |order| && order == start && k !in order[..i] && entries == old(entries) - {k}
      {
        if order[i] == k {
          WithoutAt(start, i, k);
          order := order[..i] + order[i + 1..];
          return;
        }
        i := i + 1;
      }
      WithoutAt(start, i, k);
    }
  }
}
