/** Taking one element out of a list, which the caches and queues do in place. */
module Sequences {
  /** The list without the first occurrence of x. */
  function Without<T(==)>(s: seq<T>, x: T): seq<T> {
    if s == [] then [] else if s[0] == x then s[1..] else [s[0]] + Without(s[1..], x)
  }

  /** Erasing at the place a search found is taking the element out. */
  lemma {:induction false} WithoutAt<T>(s: seq<T>, i: nat, x: T)
    requires i <= |s| && x !in s[..i] && (i < |s| ==> s[i] == x)
    ensures Without(s, x) == if i < |s| then s[..i] + s[i + 1..] else s
    decreases i
  {
    if i > 0 {
      assert s[0] in s[..i] && s[1..][..i - 1] == s[..i][1..];
      WithoutAt(s[1..], i - 1, x);
      if i < |s| {
        assert s[1..][i..] == s[i + 1..];
        assert [s[0]] + s[1..][..i - 1] == s[..i];
      }
    }
  }
}
