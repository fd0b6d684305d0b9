/**
 * Base64 (src/util/base64.cpp) against the bit stream of section 4 of RFC 4648: bytes are eight bits each,
 * characters six, and the last character is filled up with zero bits. Shifts and masks are written as
 * division and remainder; the decoder's accumulator has 32 bits.
 */
module Base64 {
  import opened Options

  const WORD: nat := 0x1_0000_0000

  // ------------------------------------------------------------------ bits

  function Pow2(k: nat): (p: nat)
    ensures p > 0
  {
    if k == 0 then 1 else 2 * Pow2(k - 1)
  }

  /** The k low bits of n, most significant first. */
  function BitsOf(n: nat, k: nat): (b: seq<bool>)
    ensures |b| == k
  {
    if k == 0 then [] else BitsOf(n / 2, k - 1) + [n % 2 == 1]
  }

  function ValueOf(b: seq<bool>): nat
    decreases |b|
  {
    if b == [] then 0 else 2 * ValueOf(b[..|b| - 1]) + if b[|b| - 1] then 1 else 0
  }

  lemma {:induction false} ValueOfBits(n: nat, k: nat)
    requires n < Pow2(k)
    ensures ValueOf(BitsOf(n, k)) == n
    decreases k
  {
    if k > 0 {
      ValueOfBits(n / 2, k - 1);
      assert BitsOf(n, k)[..k - 1] == BitsOf(n / 2, k - 1);
    }
  }

  lemma {:induction false} BitsOfValue(b: seq<bool>)
    ensures BitsOf(ValueOf(b), |b|) == b && ValueOf(b) < Pow2(|b|)
    decreases |b|
  {
    if b != [] {
      BitsOfValue(b[..|b| - 1]);
      assert ValueOf(b) / 2 == ValueOf(b[..|b| - 1]);
    }
  }

  /** The bits of a number with b in its k low bits. */
  lemma {:induction false} BitsConcat(a: nat, j: nat, b: nat, k: nat)
    requires b < Pow2(k)
    ensures BitsOf(a * Pow2(k) + b, j + k) == BitsOf(a, j) + BitsOf(b, k)
    decreases k
  {
    if k > 0 {
      var h := a * Pow2(k - 1);
      assert a * Pow2(k) == 2 * h;
      assert (2 * h + b) / 2 == h + b / 2 && (2 * h + b) % 2 == b % 2;
      BitsConcat(a, j, b / 2, k - 1);
    }
  }

  lemma Appended(a: nat, j: nat, b: nat, k: nat, m: nat, n: nat)
    requires m == Pow2(k) && b < m && n == a * m + b
    ensures BitsOf(n, j + k) == BitsOf(a, j) + BitsOf(b, k)
  {
    BitsConcat(a, j, b, k);
  }

  /** The bits of numbers of k bits each, one after the other. */
  function Join(xs: seq<nat>, k: nat): seq<bool>
    decreases |xs|
  {
    if xs == [] then [] else Join(xs[..|xs| - 1], k) + BitsOf(xs[|xs| - 1], k)
  }

  /** n is a multiple of k. */
  predicate Whole(n: nat, k: nat)
    requires k > 0
  {
    n == 0 || (n >= k && Whole(n - k, k))
  }

  /** The bits cut into numbers of k bits; what is left at the end is dropped. */
  function Split(b: seq<bool>, k: nat): seq<nat>
    requires k > 0
    decreases |b|
  {
    if |b| < k then [] else [ValueOf(b[..k])] + Split(b[k..], k)
  }

  lemma Associates(a: seq<bool>, b: seq<bool>, c: seq<bool>)
    ensures (a + b) + c == a + (b + c)
  {
  }

  lemma JoinSnoc(xs: seq<nat>, x: nat, k: nat)
    ensures Join(xs + [x], k) == Join(xs, k) + BitsOf(x, k)
  {
    assert (xs + [x])[..|xs|] == xs;
  }

  lemma {:induction false} JoinConcat(xs: seq<nat>, ys: seq<nat>, k: nat)
    ensures Join(xs + ys, k) == Join(xs, k) + Join(ys, k)
    decreases |ys|
  {
    if ys == [] {
      assert xs + ys == xs && Join(xs, k) + [] == Join(xs, k);
    } else {
      var front, y := ys[..|ys| - 1], ys[|ys| - 1];
      JoinConcat(xs, front, k);
      JoinSnoc(xs + front, y, k);
      assert xs + ys == (xs + front) + [y];
      Associates(Join(xs, k), Join(front, k), BitsOf(y, k));
    }
  }

  lemma JoinOne(x: nat, k: nat)
    ensures Join([x], k) == BitsOf(x, k)
  {
    assert [x][..0] == [];
  }

  lemma {:induction false} SplitConcat(a: seq<bool>, b: seq<bool>, k: nat)
    requires k > 0 && Whole(|a|, k)
    ensures Split(a + b, k) == Split(a, k) + Split(b, k)
    decreases |a|
  {
    if a == [] {
      assert a + b == b;
    } else {
      assert (a + b)[..k] == a[..k] && (a + b)[k..] == a[k..] + b;
      SplitConcat(a[k..], b, k);
    }
  }

  predicate Below(xs: seq<nat>, bound: nat) {
    forall i | 0 <= i < |xs| :: xs[i] < bound
  }

  lemma SplitCons(h: seq<bool>, b: seq<bool>, k: nat)
    requires k > 0 && |h| == k
    ensures Split(h + b, k) == [ValueOf(h)] + Split(b, k)
  {
    assert (h + b)[..k] == h && (h + b)[k..] == b;
  }

  lemma JoinCons(x: nat, tail: seq<nat>, k: nat, rest: seq<bool>)
    ensures Join([x] + tail, k) + rest == BitsOf(x, k) + (Join(tail, k) + rest)
  {
    JoinConcat([x], tail, k);
    JoinOne(x, k);
    Associates(BitsOf(x, k), Join(tail, k), rest);
  }

  /** Cutting what was joined gives it back, whatever incomplete rest follows. */
  lemma {:induction false} SplitJoin(xs: seq<nat>, k: nat, rest: seq<bool>)
    requires k > 0 && Below(xs, Pow2(k)) && |rest| < k
    ensures Split(Join(xs, k) + rest, k) == xs
    decreases |xs|
  {
    if xs == [] {
      assert Join(xs, k) + rest == rest;
    } else {
      var x, tail := xs[0], xs[1..];
      assert xs == [x] + tail;
      JoinCons(x, tail, k, rest);
      SplitCons(BitsOf(x, k), Join(tail, k) + rest, k);
      ValueOfBits(x, k);
      SplitJoin(tail, k, rest);
    }
  }

  /** Joining what was cut gives it back when nothing was left over. */
  lemma {:induction false} JoinSplit(b: seq<bool>, k: nat)
    requires k > 0 && Whole(|b|, k)
    ensures Join(Split(b, k), k) == b
    decreases |b|
  {
    if b != [] {
      var v, rest := ValueOf(b[..k]), b[k..];
      JoinSplit(rest, k);
      SplitFirst(b, k);
      var vs := Split(rest, k);
      JoinConcat([v], vs, k);
      JoinOne(v, k);
      assert Split(b, k) == [v] + vs;
    }
  }

  lemma {:induction false} SplitBelow(b: seq<bool>, k: nat)
    requires k > 0
    ensures Below(Split(b, k), Pow2(k))
    decreases |b|
  {
    if |b| >= k {
      SplitBelow(b[k..], k);
      SplitFirst(b, k);
    }
  }

  lemma SplitFirst(b: seq<bool>, k: nat)
    requires 0 < k <= |b|
    ensures var v := ValueOf(b[..k]);
      v < Pow2(k) && Split(b, k) == [v] + Split(b[k..], k) && b == BitsOf(v, k) + b[k..]
  {
    var h, rest := b[..k], b[k..];
    assert b == h + rest;
    BitsOfValue(h);
    SplitCons(h, rest, k);
  }

  // ------------------------------------------------------------------ the alphabet

  function Letter(v: nat): char
    requires v < 64
  {
    if v < 26 then ('A' as int + v) as char
    else if v < 52 then ('a' as int + v - 26) as char
    else if v < 62 then ('0' as int + v - 52) as char
    else if v == 62 then '+'
    else '/'
  }

  /** The place of a character in the alphabet, -1 if it has none. */
  function Reverse(c: char): (v: int)
    ensures -1 <= v < 64
    ensures v >= 0 ==> Letter(v) == c
  {
    if 'A' <= c <= 'Z' then c as int - 'A' as int
    else if 'a' <= c <= 'z' then c as int - 'a' as int + 26
    else if '0' <= c <= '9' then c as int - '0' as int + 52
    else if c == '+' then 62
    else if c == '/' then 63
    else -1
  }

  lemma ReverseOfLetter(v: nat)
    requires v < 64
    ensures Reverse(Letter(v)) == v && Letter(v) != '='
  {
  }

  predicate IsReverseTable(table: seq<int>) {
    |table| == 256 && forall b | 0 <= b < 256 :: table[b] == Reverse(b as char)
  }

  /** The 256-entry table the decoder builds once. */
  method BuildReverse() returns (table: seq<int>)
    ensures IsReverseTable(table)
  {
    var entries := new int[256](_ => -1);
    var i := 0;
    while i < 64
      invariant 0 <= i <= 64
      invariant forall b | 0 <= b < 256 :: entries[b] == if Reverse(b as char) < i then Reverse(b as char) else -1
    {
      ReverseOfLetter(i);
      entries[Letter(i) as int] := i;
      i := i + 1;
    }
    table := entries[..];
  }

  // ------------------------------------------------------------------ what base64 is

  predicate IsBytes(x: seq<nat>) {
    Below(x, 256)
  }

  lemma Powers()
    ensures Pow2(2) == 4 && Pow2(4) == 16 && Pow2(6) == 64 && Pow2(8) == 256 && Pow2(12) == 4096
    ensures Pow2(16) == 65536 && Pow2(18) == 262144
  {
    assert Pow2(2) == 4;
    assert Pow2(4) == 4 * Pow2(2);
    assert Pow2(6) == 4 * Pow2(4);
    assert Pow2(8) == 4 * Pow2(6);
    assert Pow2(10) == 4 * Pow2(8);
    assert Pow2(12) == 4 * Pow2(10);
    assert Pow2(14) == 4 * Pow2(12);
    assert Pow2(16) == 4 * Pow2(14);
    assert Pow2(18) == 4 * Pow2(16);
  }

  function Zeros(n: nat): seq<bool> {
    seq(n, _ => false)
  }

  /** How many bits are missing to a whole number of characters, and how many characters to a whole group. */
  function Missing(bytes: nat): nat {
    if bytes % 3 == 0 then 0 else if bytes % 3 == 1 then 4 else 2
  }

  function Padding(bytes: nat): string {
    if bytes % 3 == 0 then "" else if bytes % 3 == 1 then "==" else "="
  }

  function Letters(vs: seq<nat>): string
    requires Below(vs, 64)
  {
    seq(|vs|, i requires 0 <= i < |vs| => Letter(vs[i]))
  }

  /** The sextets of the zero-filled bit stream of x. */
  function Sextets(x: seq<nat>): seq<nat> {
    Split(Join(x, 8) + Zeros(Missing(|x|)), 6)
  }

  lemma SextetsBelow(x: seq<nat>)
    ensures Below(Sextets(x), 64)
  {
    Powers();
    SplitBelow(Join(x, 8) + Zeros(Missing(|x|)), 6);
  }

  /** The text of x. */
  function Text(x: seq<nat>): string {
    SextetsBelow(x);
    Letters(Sextets(x)) + Padding(|x|)
  }

  // ------------------------------------------------------------------ the encoder

  lemma {:induction false} ZeroBits(n: nat)
    ensures BitsOf(0, n) == Zeros(n)
    decreases n
  {
    if n > 0 {
      ZeroBits(n - 1);
      assert Zeros(n) == Zeros(n - 1) + [false];
    }
  }

  lemma {:induction false} WholeAdds(a: nat, b: nat, k: nat)
    requires k > 0 && Whole(a, k) && Whole(b, k)
    ensures Whole(a + b, k)
    decreases a
  {
    if a > 0 {
      WholeAdds(a - k, b, k);
    }
  }

  lemma Join2(a: nat, b: nat, k: nat)
    ensures Join([a, b], k) == BitsOf(a, k) + BitsOf(b, k)
  {
    assert [a, b] == [a] + [b];
    JoinSnoc([a], b, k);
    JoinOne(a, k);
  }

  lemma Join3(a: nat, b: nat, c: nat, k: nat)
    ensures Join([a, b, c], k) == BitsOf(a, k) + BitsOf(b, k) + BitsOf(c, k)
  {
    assert [a, b, c] == [a, b] + [c];
    JoinSnoc([a, b], c, k);
    Join2(a, b, k);
  }

  /** Digits to the base m, and the width of n of them. */
  function Number(xs: seq<nat>, m: nat): nat
    decreases |xs|
  {
    if xs == [] then 0 else Number(xs[..|xs| - 1], m) * m + xs[|xs| - 1]
  }

  function Width(n: nat, k: nat): nat
    decreases n
  {
    if n == 0 then 0 else Width(n - 1, k) + k
  }

  lemma {:induction false} JoinIsNumber(xs: seq<nat>, k: nat, m: nat)
    requires m == Pow2(k) && Below(xs, m)
    ensures Join(xs, k) == BitsOf(Number(xs, m), Width(|xs|, k))
    decreases |xs|
  {
    if xs != [] {
      var front, x := xs[..|xs| - 1], xs[|xs| - 1];
      JoinIsNumber(front, k, m);
      BitsConcat(Number(front, m), Width(|front|, k), x, k);
    }
  }

  lemma NumberSnoc(xs: seq<nat>, x: nat, m: nat)
    ensures Number(xs + [x], m) == Number(xs, m) * m + x
  {
    assert (xs + [x])[..|xs|] == xs;
  }

  lemma Number2(a: nat, b: nat, m: nat)
    ensures Number([a, b], m) == a * m + b
  {
    assert [] + [a] == [a] && [a] + [b] == [a, b];
    NumberSnoc([], a, m);
    NumberSnoc([a], b, m);
  }

  lemma Number3(a: nat, b: nat, c: nat, m: nat)
    ensures Number([a, b, c], m) == (a * m + b) * m + c
  {
    assert [a, b] + [c] == [a, b, c];
    Number2(a, b, m);
    NumberSnoc([a, b], c, m);
  }

  lemma Number4(a: nat, b: nat, c: nat, d: nat, m: nat)
    ensures Number([a, b, c, d], m) == ((a * m + b) * m + c) * m + d
  {
    assert [a, b, c] + [d] == [a, b, c, d];
    Number3(a, b, c, m);
    NumberSnoc([a, b, c], d, m);
  }

  lemma FourSextets(n: nat, v0: nat, v1: nat, v2: nat, v3: nat)
    requires n < 16777216 && v0 == n / 262144 % 64 && v1 == n / 4096 % 64 && v2 == n / 64 % 64 && v3 == n % 64
    ensures ((v0 * 64 + v1) * 64 + v2) * 64 + v3 == n
  {
    assert n / 64 / 64 == n / 4096 && n / 4096 / 64 == n / 262144;
  }

  lemma TwoSextets(a: nat)
    requires a < 256
    ensures (a / 4 % 64) * 64 + a * 16 % 64 == a * 16
  {
  }

  lemma ThreeSextets(a: nat, b: nat, v0: nat, v1: nat, v2: nat)
    requires a < 256 && b < 256 && v0 == a / 4 % 64 && v1 == (a * 16 + b / 16) % 64 && v2 == b * 4 % 64
    ensures (v0 * 64 + v1) * 64 + v2 == (a * 256 + b) * 4
  {
    ThreeParts(a, b, a / 4, a % 4, b / 16, b % 16);
  }

  lemma ThreeParts(a: nat, b: nat, p: nat, q: nat, s: nat, t: nat)
    requires p < 64 && q < 4 && s < 16 && t < 16 && a == 4 * p + q && b == 16 * s + t
    ensures a / 4 % 64 == p && (a * 16 + b / 16) % 64 == 16 * q + s && b * 4 % 64 == 4 * t
    ensures (p * 64 + (16 * q + s)) * 64 + 4 * t == (a * 256 + b) * 4
  {
    assert a / 4 == p && b / 16 == s;
    assert a * 16 + b / 16 == 64 * p + (16 * q + s);
    assert b * 4 == 64 * s + 4 * t;
  }

  lemma Widths()
    ensures Width(2, 8) == 16 && Width(3, 8) == 24 && Width(2, 6) == 12 && Width(3, 6) == 18 && Width(4, 6) == 24
  {
  }

  /** Three bytes are four sextets. */
  lemma WholeGroup(a: nat, b: nat, c: nat, n: nat)
    requires a < 256 && b < 256 && c < 256 && n == a * 65536 + b * 256 + c
    ensures Join([a, b, c], 8) == Join([n / 262144 % 64, n / 4096 % 64, n / 64 % 64, n % 64], 6)
  {
    var v0, v1, v2, v3 := n / 262144 % 64, n / 4096 % 64, n / 64 % 64, n % 64;
    Powers();
    Widths();
    FourSextets(n, v0, v1, v2, v3);
    Number3(a, b, c, 256);
    Number4(v0, v1, v2, v3, 64);
    JoinIsNumber([a, b, c], 8, 256);
    JoinIsNumber([v0, v1, v2, v3], 6, 64);
  }

  lemma OneLeftBits(a: nat, m: nat)
    requires a < 256 && m == a * 16
    ensures BitsOf(a, 8) + Zeros(4) == BitsOf(m, 12)
  {
    Powers();
    ZeroBits(4);
    Appended(a, 8, 0, 4, 16, m);
  }

  lemma OneLeftSextets(m: nat, v0: nat, v1: nat)
    requires v0 < 64 && v1 < 64 && m == v0 * 64 + v1
    ensures BitsOf(m, 12) == Join([v0, v1], 6)
  {
    Powers();
    Widths();
    Number2(v0, v1, 64);
    JoinIsNumber([v0, v1], 6, 64);
  }

  /** One byte and four zero bits are two sextets. */
  lemma OneLeft(a: nat)
    requires a < 256
    ensures BitsOf(a, 8) + Zeros(4) == Join([a / 4 % 64, a * 16 % 64], 6)
  {
    OneLeftBits(a, a * 16);
    TwoSextets(a);
    OneLeftSextets(a * 16, a / 4 % 64, a * 16 % 64);
  }

  lemma TwoLeftBits(a: nat, b: nat, n: nat, m: nat)
    requires a < 256 && b < 256 && n == a * 256 + b && m == n * 4
    ensures BitsOf(a, 8) + BitsOf(b, 8) + Zeros(2) == BitsOf(m, 18)
  {
    Powers();
    ZeroBits(2);
    Appended(a, 8, b, 8, 256, n);
    Appended(n, 16, 0, 2, 4, m);
  }

  lemma TwoLeftSextets(a: nat, b: nat, m: nat, v0: nat, v1: nat, v2: nat)
    requires a < 256 && b < 256 && m == (a * 256 + b) * 4
    requires v0 == a / 4 % 64 && v1 == (a * 16 + b / 16) % 64 && v2 == b * 4 % 64
    ensures BitsOf(m, 18) == Join([v0, v1, v2], 6)
  {
    Powers();
    Widths();
    ThreeSextets(a, b, v0, v1, v2);
    Number3(v0, v1, v2, 64);
    JoinIsNumber([v0, v1, v2], 6, 64);
  }

  /** Two bytes and two zero bits are three sextets. */
  lemma TwoLeft(a: nat, b: nat)
    requires a < 256 && b < 256
    ensures BitsOf(a, 8) + BitsOf(b, 8) + Zeros(2) == Join([a / 4 % 64, (a * 16 + b / 16) % 64, b * 4 % 64], 6)
  {
    var n := a * 256 + b;
    TwoLeftBits(a, b, n, n * 4);
    TwoLeftSextets(a, b, n * 4, a / 4 % 64, (a * 16 + b / 16) % 64, b * 4 % 64);
  }

  /** Sextets appended to a whole number of sextets. */
  lemma AppendSextets(bits: seq<bool>, vs: seq<nat>)
    requires Whole(|bits|, 6) && Below(vs, 64)
    ensures Split(bits + Join(vs, 6), 6) == Split(bits, 6) + vs
  {
    Powers();
    SplitConcat(bits, Join(vs, 6), 6);
    SplitJoin(vs, 6, []);
    assert Join(vs, 6) + [] == Join(vs, 6);
  }

  lemma LettersConcat(vs: seq<nat>, ws: seq<nat>)
    requires Below(vs, 64) && Below(ws, 64)
    ensures Below(vs + ws, 64) && Letters(vs + ws) == Letters(vs) + Letters(ws)
  {
  }

  /** What the encoder has after whole groups: their letters, and a whole number of sextets. */
  ghost predicate Encoded(x: seq<nat>, out: string) {
    var b := Join(x, 8);
    Whole(|b|, 6) && Below(Split(b, 6), 64) && out == Letters(Split(b, 6))
  }

  /** The four letters of a group, of one byte left over, and of two. */
  function GroupLetters(n: nat): string {
    [Letter(n / 262144 % 64), Letter(n / 4096 % 64), Letter(n / 64 % 64), Letter(n % 64)]
  }

  function OneLetters(a: nat): string {
    [Letter(a / 4 % 64), Letter(a * 16 % 64)]
  }

  function TwoLetters(a: nat, b: nat): string {
    [Letter(a / 4 % 64), Letter((a * 16 + b / 16) % 64), Letter(b * 4 % 64)]
  }

  lemma EncodedGrows(x: seq<nat>, out: string, t: seq<nat>, vs: seq<nat>)
    requires Encoded(x, out) && Below(vs, 64) && Join(t, 8) == Join(vs, 6) && Whole(|Join(t, 8)|, 6)
    ensures Encoded(x + t, out + Letters(vs))
  {
    JoinConcat(x, t, 8);
    AppendSextets(Join(x, 8), vs);
    LettersConcat(Split(Join(x, 8), 6), vs);
    WholeAdds(|Join(x, 8)|, |Join(t, 8)|, 6);
  }

  lemma GroupEncoded(x: seq<nat>, out: string, a: nat, b: nat, c: nat, n: nat)
    requires Encoded(x, out) && a < 256 && b < 256 && c < 256 && n == a * 65536 + b * 256 + c
    ensures Encoded(x + [a, b, c], out + GroupLetters(n))
  {
    var vs := [n / 262144 % 64, n / 4096 % 64, n / 64 % 64, n % 64];
    WholeGroup(a, b, c, n);
    Join3(a, b, c, 8);
    assert Whole(24, 6);
    EncodedGrows(x, out, [a, b, c], vs);
    assert Letters(vs) == GroupLetters(n);
  }

  lemma RestOfGroup(n: nat, r: nat)
    requires n % 3 == 0 && r < 3
    ensures Missing(n + r) == Missing(r) && Padding(n + r) == Padding(r)
  {
    assert (n + r) % 3 == r;
  }

  lemma TailSextets(x: seq<nat>, t: seq<nat>, vs: seq<nat>)
    requires |x| % 3 == 0 && |t| < 3 && Below(vs, 64) && Whole(|Join(x, 8)|, 6)
    requires Join(t, 8) + Zeros(Missing(|t|)) == Join(vs, 6)
    ensures Sextets(x + t) == Split(Join(x, 8), 6) + vs
  {
    RestOfGroup(|x|, |t|);
    JoinConcat(x, t, 8);
    Associates(Join(x, 8), Join(t, 8), Zeros(Missing(|t|)));
    AppendSextets(Join(x, 8), vs);
  }

  lemma TextOfSextets(y: seq<nat>, vs: seq<nat>, ws: seq<nat>, pad: string)
    requires Below(vs, 64) && Below(ws, 64) && Sextets(y) == vs + ws && Padding(|y|) == pad
    ensures Text(y) == Letters(vs) + (Letters(ws) + pad)
  {
    LettersConcat(vs, ws);
  }

  lemma TailEncoded(x: seq<nat>, out: string, t: seq<nat>, vs: seq<nat>)
    requires Encoded(x, out) && |x| % 3 == 0 && |t| < 3 && Below(vs, 64)
    requires Join(t, 8) + Zeros(Missing(|t|)) == Join(vs, 6)
    ensures Text(x + t) == out + (Letters(vs) + Padding(|t|))
  {
    RestOfGroup(|x|, |t|);
    TailSextets(x, t, vs);
    TextOfSextets(x + t, Split(Join(x, 8), 6), vs, Padding(|t|));
  }

  lemma OneLeftEncoded(x: seq<nat>, out: string, a: nat)
    requires Encoded(x, out) && |x| % 3 == 0 && a < 256
    ensures Text(x + [a]) == out + (OneLetters(a) + "==")
  {
    var vs := [a / 4 % 64, a * 16 % 64];
    OneLeft(a);
    JoinOne(a, 8);
    TailEncoded(x, out, [a], vs);
    assert Letters(vs) == OneLetters(a);
  }

  lemma TwoLeftEncoded(x: seq<nat>, out: string, a: nat, b: nat)
    requires Encoded(x, out) && |x| % 3 == 0 && a < 256 && b < 256
    ensures Text(x + [a, b]) == out + (TwoLetters(a, b) + "=")
  {
    var vs := [a / 4 % 64, (a * 16 + b / 16) % 64, b * 4 % 64];
    TwoLeft(a, b);
    Join2(a, b, 8);
    TailEncoded(x, out, [a, b], vs);
    assert Letters(vs) == TwoLetters(a, b);
  }

  lemma NoneLeftEncoded(x: seq<nat>, out: string)
    requires Encoded(x, out) && |x| % 3 == 0
    ensures Text(x) == out
  {
    assert x + [] == x;
    TailEncoded(x, out, [], []);
  }

  /** The 24 bits of a group. */
  function GroupNumber(a: nat, b: nat, c: nat): nat {
    a * 65536 + b * 256 + c
  }

  /** The letters of the whole groups of x. */
  function Groups(x: seq<nat>): string
    decreases |x|
  {
    var n := |x|;
    if n < 3 then "" else Groups(x[..n - 3]) + LastGroup(x)
  }

  /** The letters and the padding of what is left over. */
  function Rest(t: seq<nat>): string {
    if |t| == 1 then OneLetters(t[0]) + "==" else if |t| == 2 then TwoLetters(t[0], t[1]) + "=" else ""
  }

  /** The last three bytes of x as a group. */
  function LastGroup(x: seq<nat>): string
    requires |x| >= 3
  {
    GroupLetters(GroupNumber(x[|x| - 3], x[|x| - 2], x[|x| - 1]))
  }

  lemma LastGroupEncoded(x: seq<nat>, out: string)
    requires |x| >= 3 && IsBytes(x) && Encoded(x[..|x| - 3], out)
    ensures Encoded(x, out + LastGroup(x))
  {
    var front, a, b, c := x[..|x| - 3], x[|x| - 3], x[|x| - 2], x[|x| - 1];
    assert x == front + [a, b, c];
    GroupEncoded(front, out, a, b, c, GroupNumber(a, b, c));
  }

  lemma {:induction false} GroupsEncode(x: seq<nat>)
    requires IsBytes(x) && |x| % 3 == 0
    ensures Encoded(x, Groups(x))
    decreases |x|
  {
    if x == [] {
      assert Whole(0, 6);
    } else {
      GroupsEncode(x[..|x| - 3]);
      LastGroupEncoded(x, Groups(x[..|x| - 3]));
    }
  }

  lemma RestEncodes(x: seq<nat>, t: seq<nat>, out: string)
    requires Encoded(x, out) && IsBytes(t) && |x| % 3 == 0 && |t| < 3
    ensures Text(x + t) == out + Rest(t)
  {
    if |t| == 1 {
      OneLeftEncoded(x, out, t[0]);
      assert t == [t[0]];
    } else if |t| == 2 {
      TwoLeftEncoded(x, out, t[0], t[1]);
      assert t == [t[0], t[1]];
    } else {
      NoneLeftEncoded(x, out);
      assert x + t == x && out + "" == out;
    }
  }

  method Encode(input: seq<nat>) returns (out: string)
    requires IsBytes(input)
    ensures out == Text(input)
  {
    out := "";
    var i := 0;
    while i + 3 <= |input|
      invariant i <= |input| && i % 3 == 0 && out == Groups(input[..i])
    {
      assert input[..i + 3][..i] == input[..i];
      out := out + GroupLetters(GroupNumber(input[i], input[i + 1], input[i + 2]));
      i := i + 3;
    }
    assert input == input[..i] + input[i..];
    GroupsEncode(input[..i]);
    RestEncodes(input[..i], input[i..], out);
    var rem := |input| - i;
    if rem == 1 {
      out := out + (OneLetters(input[i]) + "==");
    } else if rem == 2 {
      out := out + (TwoLetters(input[i], input[i + 1]) + "=");
    }
  }

  // ------------------------------------------------------------------ what the decoder accepts

  predicate IsBlank(c: char) {
    c == '\n' || c == '\r' || c == ' ' || c == '\t'
  }

  /** The text without line breaks, spaces and tabs. */
  function Strip(s: string): string
    decreases |s|
  {
    if s == [] then [] else Strip(s[..|s| - 1]) + if IsBlank(s[|s| - 1]) then [] else [s[|s| - 1]]
  }

  /** Only letters, then only padding. */
  predicate WellFormed(t: string) {
    && (forall j | 0 <= j < |t| :: t[j] == '=' || Reverse(t[j]) >= 0)
    && (forall j, k | 0 <= j < k < |t| && t[j] == '=' :: t[k] == '=')
  }

  /** The values of the letters. */
  function Values(t: string): seq<nat>
    decreases |t|
  {
    if t == [] then []
    else
      var c := t[|t| - 1];
      Values(t[..|t| - 1]) + if c == '=' || Reverse(c) < 0 then [] else [Reverse(c)]
  }

  /** The whole bytes of the letters' bits; the rest of the bits is dropped. */
  function Decoded(s: string): Option<seq<nat>> {
    if WellFormed(Strip(s)) then Some(Split(Join(Values(Strip(s)), 6), 8)) else None
  }

  lemma {:induction false} StripPrefix(s: string, i: nat)
    requires i <= |s|
    ensures Strip(s[..i]) <= Strip(s)
    decreases |s| - i
  {
    if i == |s| {
      assert s[..i] == s;
    } else {
      StripPrefix(s, i + 1);
      assert s[..i + 1][..i] == s[..i];
    }
  }

  lemma StripSnoc(s: string, c: char)
    ensures Strip(s + [c]) == Strip(s) + if IsBlank(c) then [] else [c]
  {
    assert (s + [c])[..|s|] == s;
  }

  lemma WellFormedSnoc(t: string, c: char)
    requires WellFormed(t)
    ensures WellFormed(t + [c]) <==> c == '=' || (Reverse(c) >= 0 && '=' !in t)
    ensures Values(t + [c]) == Values(t) + if c == '=' || Reverse(c) < 0 then [] else [Reverse(c)]
  {
    var r := t + [c];
    assert r[..|t|] == t && r[|t|] == c;
    assert forall j | 0 <= j < |t| :: r[j] == t[j];
  }

  lemma WellFormedPrefix(t: string, r: string)
    requires t <= r && WellFormed(r)
    ensures WellFormed(t)
  {
    assert forall j | 0 <= j < |t| :: t[j] == r[j];
  }

  /** Once refused, always refused. */
  lemma RefusedAt(s: string, i: nat)
    requires i <= |s| && !WellFormed(Strip(s[..i]))
    ensures Decoded(s) == None
  {
    StripPrefix(s, i);
    if WellFormed(Strip(s)) {
      WellFormedPrefix(Strip(s[..i]), Strip(s));
    }
  }

  // ------------------------------------------------------------------ the decoder

  predicate IsCount(bits: nat) {
    bits == 0 || bits == 2 || bits == 4 || bits == 6
  }

  /** The low `bits` bits. */
  function Low(n: nat, bits: nat): nat
    requires IsCount(bits)
  {
    if bits == 0 then 0 else if bits == 2 then n % 4 else if bits == 4 then n % 16 else n % 64
  }

  /** n >> bits, its low eight bits. */
  function ByteAt(n: nat, bits: nat): nat {
    (if bits == 0 then n else if bits == 2 then n / 4 else if bits == 4 then n / 16 else n / 64) % 256
  }

  /** Between characters 0, 2, 4 or 6 bits are undelivered: the low `bits` bits of the accumulator. */
  ghost predicate Undelivered(vs: seq<nat>, out: seq<nat>, acc: nat, bits: nat) {
    IsCount(bits) && Below(out, 256) && Join(vs, 6) == Join(out, 8) + BitsOf(Low(acc, bits), bits)
  }

  lemma Remainder64(y: nat, k: int, r: nat)
    requires y == k * 64 + r && r < 64
    ensures y % 64 == r
  {
  }

  lemma Remainder256(y: nat, k: int, r: nat)
    requires y == k * 256 + r && r < 256
    ensures y % 256 == r
  {
  }

  lemma Remainder1024(y: nat, k: int, r: nat)
    requires y == k * 1024 + r && r < 1024
    ensures y % 1024 == r
  {
  }

  lemma Remainder4096(y: nat, k: int, r: nat)
    requires y == k * 4096 + r && r < 4096
    ensures y % 4096 == r
  {
  }

  /** Shifting six bits into a 32-bit word: the low six bits and those that were there. */
  lemma ShiftIn(acc: nat, bits: nat, v: nat, n: nat)
    requires IsCount(bits) && v < 64 && n == (acc * 64 + v) % WORD
    ensures bits == 0 ==> Low(n, 6) == v
    ensures bits == 2 ==> n % 256 == Low(acc, 2) * 64 + v
    ensures bits == 4 ==> n % 1024 == Low(acc, 4) * 64 + v
    ensures bits == 6 ==> n % 4096 == Low(acc, 6) * 64 + v
  {
    var x := acc * 64 + v;
    var w := x / WORD;
    assert n == x - w * WORD;
    Remainder64(n, acc - w * 67108864, v);
    Remainder256(n, acc / 4 - w * 16777216, acc % 4 * 64 + v);
    Remainder1024(n, acc / 16 - w * 4194304, acc % 16 * 64 + v);
    Remainder4096(n, acc / 64 - w * 1048576, acc % 64 * 64 + v);
  }

  lemma TakeByte(n: nat)
    ensures n % 256 == ByteAt(n, 0)
    ensures n % 1024 == ByteAt(n, 2) * 4 + Low(n, 2)
    ensures n % 4096 == ByteAt(n, 4) * 16 + Low(n, 4)
  {
    Remainder1024(n, n / 4 / 256, n / 4 % 256 * 4 + n % 4);
    Remainder4096(n, n / 16 / 256, n / 16 % 256 * 16 + n % 16);
  }

  lemma TakenIn(vs: seq<nat>, out: seq<nat>, low: nat, bits: nat, v: nat, n: nat)
    requires Join(vs, 6) == Join(out, 8) + BitsOf(low, bits) && v < 64 && n == low * 64 + v
    ensures Join(vs + [v], 6) == Join(out, 8) + BitsOf(n, bits + 6)
  {
    Powers();
    JoinSnoc(vs, v, 6);
    Appended(low, bits, v, 6, 64, n);
    Associates(Join(out, 8), BitsOf(low, bits), BitsOf(v, 6));
  }

  lemma GivenOut(all: seq<bool>, out: seq<nat>, byte: nat, low: nat, bits: nat, m: nat, n: nat)
    requires m == Pow2(bits) && low < m && byte < 256 && n == byte * m + low
    requires Below(out, 256) && all == Join(out, 8) + BitsOf(n, 8 + bits)
    ensures Below(out + [byte], 256) && all == Join(out + [byte], 8) + BitsOf(low, bits)
  {
    Appended(byte, 8, low, bits, m, n);
    JoinSnoc(out, byte, 8);
    Associates(Join(out, 8), BitsOf(byte, 8), BitsOf(low, bits));
  }

  /** Six bits in and eight out, with the number they make. */
  lemma InAndOut2(vs: seq<nat>, out: seq<nat>, low: nat, v: nat, byte: nat, rest: nat)
    requires v < 64 && byte < 256 && rest < 1 && low * 64 + v == byte * 1 + rest
    requires Below(out, 256) && Join(vs, 6) == Join(out, 8) + BitsOf(low, 2)
    ensures Below(out + [byte], 256) && Join(vs + [v], 6) == Join(out + [byte], 8) + BitsOf(rest, 0)
  {
    var n := low * 64 + v;
    Powers();
    TakenIn(vs, out, low, 2, v, n);
    GivenOut(Join(vs + [v], 6), out, byte, rest, 0, 1, n);
  }

  lemma InAndOut4(vs: seq<nat>, out: seq<nat>, low: nat, v: nat, byte: nat, rest: nat)
    requires v < 64 && byte < 256 && rest < 4 && low * 64 + v == byte * 4 + rest
    requires Below(out, 256) && Join(vs, 6) == Join(out, 8) + BitsOf(low, 4)
    ensures Below(out + [byte], 256) && Join(vs + [v], 6) == Join(out + [byte], 8) + BitsOf(rest, 2)
  {
    var n := low * 64 + v;
    Powers();
    TakenIn(vs, out, low, 4, v, n);
    GivenOut(Join(vs + [v], 6), out, byte, rest, 2, 4, n);
  }

  lemma InAndOut6(vs: seq<nat>, out: seq<nat>, low: nat, v: nat, byte: nat, rest: nat)
    requires v < 64 && byte < 256 && rest < 16 && low * 64 + v == byte * 16 + rest
    requires Below(out, 256) && Join(vs, 6) == Join(out, 8) + BitsOf(low, 6)
    ensures Below(out + [byte], 256) && Join(vs + [v], 6) == Join(out + [byte], 8) + BitsOf(rest, 4)
  {
    var n := low * 64 + v;
    Powers();
    TakenIn(vs, out, low, 6, v, n);
    GivenOut(Join(vs + [v], 6), out, byte, rest, 4, 16, n);
  }

  /** The bits there were and the six new ones, as a byte and the rest. */
  lemma Carry(acc: nat, bits: nat, v: nat, n: nat)
    requires IsCount(bits) && bits > 0 && v < 64 && n == (acc * 64 + v) % WORD
    ensures ByteAt(n, bits - 2) < 256
    ensures bits == 2 ==> Low(acc, 2) * 64 + v == ByteAt(n, 0)
    ensures bits == 4 ==> Low(acc, 4) * 64 + v == ByteAt(n, 2) * 4 + Low(n, 2)
    ensures bits == 6 ==> Low(acc, 6) * 64 + v == ByteAt(n, 4) * 16 + Low(n, 4)
  {
    ShiftIn(acc, bits, v, n);
    TakeByte(n);
  }

  lemma StayUndelivered0(vs: seq<nat>, out: seq<nat>, acc: nat, v: nat, n: nat)
    requires Undelivered(vs, out, acc, 0) && v < 64 && n == (acc * 64 + v) % WORD
    ensures Undelivered(vs + [v], out, n, 6)
  {
    TakenIn(vs, out, Low(acc, 0), 0, v, Low(acc, 0) * 64 + v);
    ShiftIn(acc, 0, v, n);
  }

  lemma StayUndelivered2(vs: seq<nat>, out: seq<nat>, acc: nat, v: nat, n: nat)
    requires Undelivered(vs, out, acc, 2) && v < 64 && n == (acc * 64 + v) % WORD
    ensures Undelivered(vs + [v], out + [ByteAt(n, 0)], n, 0)
  {
    Carry(acc, 2, v, n);
    InAndOut2(vs, out, Low(acc, 2), v, ByteAt(n, 0), 0);
  }

  lemma StayUndelivered4(vs: seq<nat>, out: seq<nat>, acc: nat, v: nat, n: nat)
    requires Undelivered(vs, out, acc, 4) && v < 64 && n == (acc * 64 + v) % WORD
    ensures Undelivered(vs + [v], out + [ByteAt(n, 2)], n, 2)
  {
    Carry(acc, 4, v, n);
    InAndOut4(vs, out, Low(acc, 4), v, ByteAt(n, 2), Low(n, 2));
  }

  lemma StayUndelivered6(vs: seq<nat>, out: seq<nat>, acc: nat, v: nat, n: nat)
    requires Undelivered(vs, out, acc, 6) && v < 64 && n == (acc * 64 + v) % WORD
    ensures Undelivered(vs + [v], out + [ByteAt(n, 4)], n, 4)
  {
    Carry(acc, 6, v, n);
    InAndOut6(vs, out, Low(acc, 6), v, ByteAt(n, 4), Low(n, 4));
  }

  /** The decoder's variables between two letters. */
  datatype Machine = Machine(out: seq<nat>, acc: nat, bits: nat)

  /** Six bits in, and a byte out once there are eight. */
  function Next(m: Machine, v: nat): Machine {
    var acc, bits := (m.acc * 64 + v) % WORD, m.bits + 6;
    if bits >= 8 then Machine(m.out + [ByteAt(acc, bits - 8)], acc, bits - 8) else Machine(m.out, acc, bits)
  }

  function Scan(vs: seq<nat>): Machine
    decreases |vs|
  {
    if vs == [] then Machine([], 0, 0) else Next(Scan(vs[..|vs| - 1]), vs[|vs| - 1])
  }

  ghost predicate Holds(vs: seq<nat>, m: Machine) {
    Undelivered(vs, m.out, m.acc, m.bits)
  }

  lemma NextKeeps0(vs: seq<nat>, m: Machine, v: nat)
    requires Holds(vs, m) && v < 64 && m.bits == 0
    ensures Holds(vs + [v], Next(m, v))
  {
    StayUndelivered0(vs, m.out, m.acc, v, Next(m, v).acc);
  }

  lemma NextKeeps2(vs: seq<nat>, m: Machine, v: nat)
    requires Holds(vs, m) && v < 64 && m.bits == 2
    ensures Holds(vs + [v], Next(m, v))
  {
    StayUndelivered2(vs, m.out, m.acc, v, Next(m, v).acc);
  }

  lemma NextKeeps4(vs: seq<nat>, m: Machine, v: nat)
    requires Holds(vs, m) && v < 64 && m.bits == 4
    ensures Holds(vs + [v], Next(m, v))
  {
    StayUndelivered4(vs, m.out, m.acc, v, Next(m, v).acc);
  }

  lemma NextKeeps6(vs: seq<nat>, m: Machine, v: nat)
    requires Holds(vs, m) && v < 64 && m.bits == 6
    ensures Holds(vs + [v], Next(m, v))
  {
    StayUndelivered6(vs, m.out, m.acc, v, Next(m, v).acc);
  }

  /** One letter keeps the bits, whatever count is undelivered before it. */
  lemma NextKeepsBits(vs: seq<nat>, m: Machine, v: nat)
    requires Holds(vs, m) && v < 64
    ensures Holds(vs + [v], Next(m, v))
  {
    if m.bits == 0 {
      NextKeeps0(vs, m, v);
    } else if m.bits == 2 {
      NextKeeps2(vs, m, v);
    } else if m.bits == 4 {
      NextKeeps4(vs, m, v);
    } else {
      NextKeeps6(vs, m, v);
    }
  }

  /** Whatever was taken in stands in the output and in the low bits of the accumulator. */
  lemma {:induction false} ScanKeepsBits(vs: seq<nat>)
    requires Below(vs, 64)
    ensures Holds(vs, Scan(vs))
    decreases |vs|
  {
    if vs == [] {
      assert BitsOf(0, 0) == [];
    } else {
      var front, v := vs[..|vs| - 1], vs[|vs| - 1];
      ScanKeepsBits(front);
      NextKeepsBits(front, Scan(front), v);
      assert vs == front + [v];
    }
  }

  lemma {:induction false} ValuesBelow(t: string)
    ensures Below(Values(t), 64)
    decreases |t|
  {
    if t != [] {
      ValuesBelow(t[..|t| - 1]);
    }
  }

  /** At the end of an accepted text the output is the whole bytes of its bits. */
  lemma ScanDecodes(s: string)
    requires WellFormed(Strip(s))
    ensures Decoded(s) == Some(Scan(Values(Strip(s))).out) && IsBytes(Scan(Values(Strip(s))).out)
  {
    var vs := Values(Strip(s));
    ValuesBelow(Strip(s));
    ScanKeepsBits(vs);
    var m := Scan(vs);
    Powers();
    SplitJoin(m.out, 8, BitsOf(Low(m.acc, m.bits), m.bits));
  }

  /** Where the decoder stands after the stripped text t. */
  ghost predicate Scanned(t: string, m: Machine, seenPadding: bool) {
    WellFormed(t) && (seenPadding <==> '=' in t) && m == Scan(Values(t))
  }

  lemma PaddingScanned(t: string, m: Machine, seenPadding: bool)
    requires Scanned(t, m, seenPadding)
    ensures Scanned(t + ['='], m, true)
  {
    WellFormedSnoc(t, '=');
    assert Values(t) + [] == Values(t);
  }

  lemma BadRefused(t: string, c: char, m: Machine, seenPadding: bool)
    requires Scanned(t, m, seenPadding) && c != '=' && (seenPadding || Reverse(c) < 0)
    ensures !WellFormed(t + [c])
  {
    WellFormedSnoc(t, c);
  }

  lemma LetterScanned(t: string, c: char, m: Machine)
    requires Scanned(t, m, false) && c != '=' && Reverse(c) >= 0
    ensures Scanned(t + [c], Next(m, Reverse(c)), false)
  {
    WellFormedSnoc(t, c);
    assert (Values(t) + [Reverse(c)])[..|Values(t)|] == Values(t);
  }

  method Push(v: nat, out0: seq<nat>, acc0: nat, bits0: nat) returns (out: seq<nat>, acc: nat, bits: nat)
    ensures Machine(out, acc, bits) == Next(Machine(out0, acc0, bits0), v)
  {
    out, acc, bits := out0, (acc0 * 64 + v) % WORD, bits0 + 6;
    if bits >= 8 {
      bits := bits - 8;
      out := out + [ByteAt(acc, bits)];
    }
  }

  method Decode(input: string) returns (r: Option<seq<nat>>)
    requires forall i | 0 <= i < |input| :: input[i] as int < 256
    ensures r == Decoded(input)
    ensures r.Some? ==> IsBytes(r.value)
  {
    var reverse := BuildReverse();
    var out: seq<nat> := [];
    var acc: nat, bits: nat, seenPadding := 0, 0, false;
    var i := 0;
    while i < |input|
      invariant i <= |input|
      invariant Scanned(Strip(input[..i]), Machine(out, acc, bits), seenPadding)
    {
      var c := input[i];
      assert input[..i + 1] == input[..i] + [c];
      StripSnoc(input[..i], c);
      ghost var t, m := Strip(input[..i]), Machine(out, acc, bits);
      i := i + 1;
      if c == '\n' || c == '\r' || c == ' ' || c == '\t' {
        assert t + [] == t;
        continue;
      }
      if c == '=' {
        PaddingScanned(t, m, seenPadding);
        seenPadding := true;
        continue;
      }
      var v := reverse[c as int];
      assert v == Reverse(c);
      if seenPadding || v < 0 {
        BadRefused(t, c, m, seenPadding);
        RefusedAt(input, i);
        return None;
      }
      LetterScanned(t, c, m);
      out, acc, bits := Push(v, out, acc, bits);
    }
    assert input[..i] == input;
    ScanDecodes(input);
    r := Some(out);
  }

  // ------------------------------------------------------------------ the round trip

  /** A text of letters with these values. */
  predicate Spells(t: string, vs: seq<nat>) {
    WellFormed(t) && Values(t) == vs && '=' !in t
  }

  lemma SpellsMore(t: string, vs: seq<nat>, c: char, v: nat)
    requires Spells(t, vs) && Reverse(c) == v && c != '='
    ensures Spells(t + [c], vs + [v])
  {
    WellFormedSnoc(t, c);
  }

  lemma {:induction false} ValuesOfLetters(vs: seq<nat>)
    requires Below(vs, 64)
    ensures Spells(Letters(vs), vs)
    decreases |vs|
  {
    if vs != [] {
      var front, v := vs[..|vs| - 1], vs[|vs| - 1];
      ValuesOfLetters(front);
      ReverseOfLetter(v);
      SpellsMore(Letters(front), front, Letter(v), v);
      assert Letters(vs) == Letters(front) + [Letter(v)];
      assert vs == front + [v];
    }
  }

  lemma {:induction false} PaddingAdds(t: string, pad: string)
    requires WellFormed(t) && forall j | 0 <= j < |pad| :: pad[j] == '='
    ensures WellFormed(t + pad) && Values(t + pad) == Values(t)
    decreases |pad|
  {
    if pad == [] {
      assert t + pad == t;
    } else {
      var front := pad[..|pad| - 1];
      PaddingAdds(t, front);
      assert t + pad == (t + front) + ['='];
      WellFormedSnoc(t + front, '=');
    }
  }

  lemma {:induction false} BytesMakeWhole(n: nat)
    ensures Whole(8 * n + Missing(n), 6)
    decreases n
  {
    if n < 3 {
      assert Whole(12, 6) && Whole(18, 6);
    } else {
      BytesMakeWhole(n - 3);
      assert Missing(n) == Missing(n - 3);
      assert Whole(24, 6);
      WholeAdds(24, 8 * (n - 3) + Missing(n - 3), 6);
    }
  }

  lemma {:induction false} JoinLength(x: seq<nat>)
    ensures |Join(x, 8)| == 8 * |x|
    decreases |x|
  {
    if x != [] {
      JoinLength(x[..|x| - 1]);
    }
  }

  lemma WholeStream(x: seq<nat>)
    ensures Whole(|Join(x, 8) + Zeros(Missing(|x|))|, 6)
  {
    JoinLength(x);
    BytesMakeWhole(|x|);
  }

  /** The sextets of x carry exactly the bits of x and fewer than eight zeros. */
  lemma SextetsCarry(x: seq<nat>)
    ensures Join(Sextets(x), 6) == Join(x, 8) + Zeros(Missing(|x|))
  {
    var b := Join(x, 8) + Zeros(Missing(|x|));
    WholeStream(x);
    JoinSplit(b, 6);
  }

  /**
   * Decoding gives back exactly the bytes encoded, for every byte string, and also when the text was
   * broken up with any number of spaces, tabs and line ends anywhere.
   */
  lemma DecodeEncode(x: seq<nat>, s: string)
    requires IsBytes(x) && Strip(s) == Text(x)
    ensures Decoded(s) == Some(x)
  {
    SextetsBelow(x);
    ValuesOfLetters(Sextets(x));
    PaddingAdds(Letters(Sextets(x)), Padding(|x|));
    SextetsCarry(x);
    Powers();
    SplitJoin(x, 8, Zeros(Missing(|x|)));
  }

  lemma {:induction false} TextHasNoBlanks(t: string)
    requires forall c | c in t :: !IsBlank(c)
    ensures Strip(t) == t
    decreases |t|
  {
    if t != [] {
      TextHasNoBlanks(t[..|t| - 1]);
      assert t[|t| - 1] in t;
    }
  }

  /** A blank put in anywhere is not seen. */
  lemma {:induction false} BlankInserted(a: string, c: char, b: string)
    requires IsBlank(c)
    ensures Strip(a + [c] + b) == Strip(a + b)
    decreases |b|
  {
    if b == [] {
      assert a + [c] + b == a + [c] && a + b == a;
      StripSnoc(a, c);
    } else {
      var front, l := b[..|b| - 1], b[|b| - 1];
      BlankInserted(a, c, front);
      assert a + [c] + b == (a + [c] + front) + [l] && a + b == (a + front) + [l];
      StripSnoc(a + [c] + front, l);
      StripSnoc(a + front, l);
    }
  }

  /** The plain round trip, through the two methods' results. */
  lemma DecodeOfText(x: seq<nat>)
    requires IsBytes(x)
    ensures Decoded(Text(x)) == Some(x)
  {
    SextetsBelow(x);
    forall c | c in Text(x) ensures !IsBlank(c) {
      var j :| 0 <= j < |Text(x)| && Text(x)[j] == c;
      if j < |Sextets(x)| {
        assert c == Letter(Sextets(x)[j]);
      }
    }
    TextHasNoBlanks(Text(x));
    DecodeEncode(x, Text(x));
  }
}
