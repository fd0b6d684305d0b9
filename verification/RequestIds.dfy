/** The request id generator (src/bridge/request_id.hpp): a 64-bit counter that skips 0 when it wraps. */
module RequestIds {
  const WORD: nat := 0x1_0000_0000_0000_0000

  /** The id handed out by the n-th call, counting from 1. */
  function IdAt(n: nat): (id: nat)
    requires n >= 1
  {
    (n - 1) % (WORD - 1) + 1
  }

  lemma IdSuccessor(n: nat)
    requires n >= 1
    ensures IdAt(n + 1) == if IdAt(n) == WORD - 1 then 1 else IdAt(n) + 1
  {
  }

  class RequestIdGenerator {
    var counter: nat
    var calls: nat  // how many ids were handed out; the program does not keep this count

    ghost predicate Valid()
      reads this
    {
      counter < WORD && counter == if calls == 0 then 0 else IdAt(calls)
    }

    constructor ()
      ensures Valid() && calls == 0
    {
      counter, calls := 0, 0;
    }

    /** fetch_add and one more step, repeated while the sum wrapped to 0. */
    method Next() returns (id: nat)
      requires Valid()
      modifies this
      ensures Valid() && calls == old(calls) + 1
      ensures id == IdAt(calls)
    {
      id := (counter + 1) % WORD;
      counter := id;
      while id == 0
        invariant counter == id < WORD && calls == old(calls)
        invariant id == (old(counter) + 1) % WORD || (id == 1 && (old(counter) + 1) % WORD == 0)
        decreases id == 0
      {
        id := (counter + 1) % WORD;
        counter := id;
      }
      if calls > 0 { IdSuccessor(calls); }
      calls := calls + 1;
    }
  }

  /** No call ever hands out 0, and two calls hand out the same id exactly when 2^64 - 1 divides their distance. */
  lemma IdsRepeatExactly(n: nat, m: nat)
    requires n >= 1 && m >= 1
    ensures 0 < IdAt(n) < WORD
    ensures IdAt(n) == IdAt(m) <==> (n - m) % (WORD - 1) == 0
  {
    var p := WORD - 1;
    var a, b := (n - 1) / p, (m - 1) / p;
    var x, y := (n - 1) % p, (m - 1) % p;
    assert n - m == p * (a - b) + (x - y);
    ModShift(p, a - b, x - y);
  }

  lemma ModShift(p: int, q: int, d: int)
    requires p == WORD - 1 && -p < d < p
    ensures (p * q + d) % p == 0 <==> d == 0
  {
  }

  /** The first 2^64 - 1 calls hand out pairwise distinct ids. */
  lemma IdsDistinct(n: nat, m: nat)
    requires 1 <= n <= WORD - 1 && 1 <= m <= WORD - 1 && n != m
    ensures IdAt(n) != IdAt(m)
  {
  }
}
