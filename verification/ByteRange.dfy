/**
 * The single byte range of a Range header (src/http/byte_range.hpp) against section 14.1.2 of RFC 9110:
 * "first-", "first-last" or "-suffix" after "bytes=", numbers below 2^64.
 */
module ByteRange {
  import opened Options
  import opened Decimal

  const WORD: nat := 0x1_0000_0000_0000_0000

  datatype Range = From(first: nat) | FromTo(first: nat, last: nat) | Suffix(length: nat)

  datatype Slice = Slice(offset: nat, length: nat)

  // ------------------------------------------------------------------ what a range is

  /** x is the range's text with its dash at i. */
  predicate WrittenAt(x: string, i: nat, r: Range) {
    && i < |x| && x[i] == '-'
    && match r
       case From(a) => AllDigits(x[..i]) && Value(x[..i]) == a && x[i + 1..] == ""
       case FromTo(a, b) => AllDigits(x[..i]) && Value(x[..i]) == a && AllDigits(x[i + 1..]) && Value(x[i + 1..]) == b
       case Suffix(n) => i == 0 && AllDigits(x[1..]) && Value(x[1..]) == n
  }

  predicate Prefixed(header: string) {
    |header| > 6 && header[..6] == "bytes="
  }

  predicate Denotes(header: string, r: Range) {
    Prefixed(header) && exists i | 0 <= i < |header[6..]| :: WrittenAt(header[6..], i, r)
  }

  /** Every number of the range fits 64 bits. */
  predicate Fits(r: Range) {
    match r
    case From(a) => a < WORD
    case FromTo(a, b) => a < WORD && b < WORD
    case Suffix(n) => n < WORD
  }

  predicate Satisfiable(r: Range, size: nat) {
    match r
    case From(a) => a < size
    case FromTo(a, b) => a < size && a <= b
    case Suffix(n) => n > 0 && size > 0
  }

  /** The positions a range selects in a file. */
  predicate Selects(r: Range, size: nat, p: int) {
    && 0 <= p < size
    && match r
       case From(a) => a <= p
       case FromTo(a, b) => a <= p <= b
       case Suffix(n) => size - n <= p
  }

  predicate Good(header: string, r: Range, size: nat) {
    Denotes(header, r) && Fits(r) && Satisfiable(r, size)
  }

  predicate SelectsExactly(r: Range, size: nat, s: Slice) {
    && s.length >= 1 && s.offset + s.length <= size
    && forall p | 0 <= p < size :: s.offset <= p < s.offset + s.length <==> Selects(r, size, p)
  }

  /** The answer for a header: a slice exactly when it denotes a satisfiable range, and then the selected one. */
  ghost predicate IsAnswer(header: string, size: nat, a: Option<Slice>) {
    match a
    case None => forall r :: !Good(header, r, size)
    case Some(s) => exists r :: Good(header, r, size) && SelectsExactly(r, size, s)
  }

  // ------------------------------------------------------------------ a text has one reading

  /** Around its dash a range is all digits. */
  lemma OthersAreDigits(x: string, i: nat, r: Range)
    requires WrittenAt(x, i, r)
    ensures forall j | 0 <= j < |x| && j != i :: IsDigit(x[j])
  {
    forall j | 0 <= j < |x| && j != i ensures IsDigit(x[j]) {
      if j < i {
        assert x[..i][j] == x[j];
      } else if !r.From? {
        assert x[i + 1..][j - i - 1] == x[j];
      }
    }
  }

  /** The kind and the numbers of a range are those around the only dash. */
  lemma OneReading(x: string, i: nat, r: Range, j: nat, q: Range)
    requires WrittenAt(x, i, r) && WrittenAt(x, j, q)
    ensures i == j && r == q
  {
    OthersAreDigits(x, i, r);
  }

  lemma DenotesOne(header: string, r: Range, q: Range)
    requires Denotes(header, r) && Denotes(header, q)
    ensures r == q
  {
    var x := header[6..];
    var i :| 0 <= i < |x| && WrittenAt(x, i, r);
    var j :| 0 <= j < |x| && WrittenAt(x, j, q);
    OneReading(x, i, r, j, q);
  }

  lemma SliceIsUnique(r: Range, size: nat, s: Slice, t: Slice)
    requires SelectsExactly(r, size, s) && SelectsExactly(r, size, t)
    ensures s == t
  {
    assert Selects(r, size, s.offset) && Selects(r, size, t.offset);
    assert Selects(r, size, s.offset + s.length - 1) && Selects(r, size, t.offset + t.length - 1);
  }

  /** There is one answer for a header. */
  lemma AnswerIsUnique(header: string, size: nat, a: Option<Slice>, b: Option<Slice>)
    requires IsAnswer(header, size, a) && IsAnswer(header, size, b)
    ensures a == b
  {
    if a.Some? && b.Some? {
      var r :| Good(header, r, size) && SelectsExactly(r, size, a.value);
      var q :| Good(header, q, size) && SelectsExactly(q, size, b.value);
      DenotesOne(header, r, q);
      SliceIsUnique(r, size, a.value, b.value);
    }
  }

  // ------------------------------------------------------------------ the parser

  method IsAllDigits(s: string) returns (all: bool)
    ensures all <==> AllDigits(s)
  {
    if s == "" { return false; }
    var i := 0;
    while i < |s|
      invariant i <= |s| && forall j | 0 <= j < i :: IsDigit(s[j])
    {
      if !('0' <= s[i] <= '9') { return false; }
      i := i + 1;
    }
    all := true;
  }

  /** None where not every character is a digit or the number overflows 64 bits, on which stoull throws. */
  method ParseDigits(s: string) returns (n: Option<nat>)
    ensures n.Some? <==> AllDigits(s) && Value(s) < WORD
    ensures n.Some? ==> n.value == Value(s)
  {
    var digits := IsAllDigits(s);
    if !digits { return None; }
    var v := 0;
    var i := 0;
    while i < |s|
      invariant i <= |s| && v == Value(s[..i]) < WORD
    {
      assert s[..i + 1][..i] == s[..i];
      v := 10 * v + DigitValue(s[i]);
      i := i + 1;
      if v >= WORD {
        ValueOfPrefix(s, i);
        return None;
      }
    }
    assert s[..i] == s;
    n := Some(v);
  }

  method Find(s: string, c: char) returns (at: Option<nat>)
    ensures at.Some? ==> at.value < |s| && s[at.value] == c && c !in s[..at.value]
    ensures at.None? ==> c !in s
  {
    var i := 0;
    while i < |s|
      invariant i <= |s| && c !in s[..i]
    {
      if s[i] == c { return Some(i); }
      assert s[..i + 1] == s[..i] + [s[i]];
      i := i + 1;
    }
    assert s[..i] == s;
    at := None;
  }

  /** Without a dash, or with a comma, a text is no range. */
  lemma NotWritten(header: string, size: nat)
    requires Prefixed(header) ==> '-' !in header[6..] || ',' in header[6..]
    ensures forall r :: !Good(header, r, size)
  {
    forall r ensures !Denotes(header, r) {
      if Denotes(header, r) {
        var x := header[6..];
        var i :| 0 <= i < |x| && WrittenAt(x, i, r);
        assert x[i] in x;
        OthersAreDigits(x, i, r);
      }
    }
  }

  /** What a range with its dash at i must be. */
  lemma ReadAt(header: string, i: nat, r: Range)
    requires Denotes(header, r) && i < |header[6..]| && header[6..][i] == '-'
    ensures WrittenAt(header[6..], i, r)
  {
    var x := header[6..];
    var j :| 0 <= j < |x| && WrittenAt(x, j, r);
    OthersAreDigits(x, j, r);
  }

  lemma Refuse(header: string, i: nat, size: nat)
    requires Prefixed(header) && i < |header[6..]| && header[6..][i] == '-'
    requires forall r :: WrittenAt(header[6..], i, r) && Fits(r) ==> !Satisfiable(r, size)
    ensures forall r :: !Good(header, r, size)
  {
    forall r ensures !Good(header, r, size) {
      if Denotes(header, r) {
        ReadAt(header, i, r);
      }
    }
  }

  lemma Accept(header: string, i: nat, r: Range, size: nat, s: Slice)
    requires Prefixed(header) && WrittenAt(header[6..], i, r) && Fits(r) && Satisfiable(r, size)
    requires SelectsExactly(r, size, s)
    ensures IsAnswer(header, size, Some(s))
  {
    assert Good(header, r, size);
  }

  /** Around a dash that is not first, the first number is no position of the file. */
  lemma RefuseFirst(header: string, i: nat, size: nat)
    requires Prefixed(header) && 0 < i < |header[6..]| && header[6..][i] == '-'
    requires var from := header[6..][..i]; AllDigits(from) && Value(from) < WORD ==> Value(from) >= size
    ensures forall r :: !Good(header, r, size)
  {
    Refuse(header, i, size);
  }

  /** Or there is a last number that is none or lies before the first. */
  lemma RefuseLast(header: string, i: nat, size: nat)
    requires Prefixed(header) && 0 < i < |header[6..]| && header[6..][i] == '-' && header[6..][i + 1..] != ""
    requires var from, to := header[6..][..i], header[6..][i + 1..];
      AllDigits(from) && AllDigits(to) && Value(to) < WORD ==> Value(to) < Value(from)
    ensures forall r :: !Good(header, r, size)
  {
    Refuse(header, i, size);
  }

  /** The suffix form, its dash first. */
  method ParseSuffix(header: string, size: nat) returns (a: Option<Slice>)
    requires Prefixed(header) && header[6..][0] == '-' && 0 < size < WORD
    ensures IsAnswer(header, size, a)
  {
    var to := header[6..][1..];
    var n := ParseDigits(to);
    if n.None? || n.value == 0 {
      Refuse(header, 0, size);
      return None;
    }
    var length := if n.value <= size then n.value else size;
    Accept(header, 0, Suffix(n.value), size, Slice(size - length, length));
    a := Some(Slice(size - length, length));
  }

  lemma AcceptTo(header: string, i: nat, first: nat, to: nat, size: nat, last: nat)
    requires Prefixed(header) && WrittenAt(header[6..], i, FromTo(first, to)) && Fits(FromTo(first, to))
    requires first < size && last == (if to <= size - 1 then to else size - 1) && first <= last
    ensures IsAnswer(header, size, Some(Slice(first, last - first + 1)))
  {
    Accept(header, i, FromTo(first, to), size, Slice(first, last - first + 1));
  }

  lemma AcceptFrom(header: string, i: nat, first: nat, size: nat)
    requires Prefixed(header) && WrittenAt(header[6..], i, From(first)) && Fits(From(first)) && first < size
    ensures IsAnswer(header, size, Some(Slice(first, size - first)))
  {
    Accept(header, i, From(first), size, Slice(first, size - first));
  }

  /** The other two forms, with something before the dash. */
  method ParseFrom(header: string, i: nat, size: nat) returns (a: Option<Slice>)
    requires Prefixed(header) && 0 < i < |header[6..]| && header[6..][i] == '-' && 0 < size < WORD
    ensures IsAnswer(header, size, a)
  {
    var from, to := header[6..][..i], header[6..][i + 1..];
    var offset := ParseDigits(from);
    if offset.None? || offset.value >= size {
      RefuseFirst(header, i, size);
      return None;
    }
    var last := size - 1;
    if to != "" {
      var toValue := ParseDigits(to);
      if toValue.None? {
        RefuseLast(header, i, size);
        return None;
      }
      last := if toValue.value <= size - 1 then toValue.value else size - 1;
      if last < offset.value {
        RefuseLast(header, i, size);
        return None;
      }
      AcceptTo(header, i, offset.value, toValue.value, size, last);
    } else {
      AcceptFrom(header, i, offset.value, size);
    }
    a := Some(Slice(offset.value, last - offset.value + 1));
  }

  /** True answers are slices with at least one byte inside the file; a false answer is None. */
  method ParseByteRange(header: string, size: nat) returns (a: Option<Slice>)
    requires size < WORD
    ensures IsAnswer(header, size, a)
  {
    if |header| <= 6 || header[..6] != "bytes=" || size == 0 {
      if Prefixed(header) {
        forall r ensures !Satisfiable(r, size) {}
      }
      return None;
    }
    var spec := header[6..];
    var dash := Find(spec, '-');
    var comma := Find(spec, ',');
    if dash.None? || comma.Some? {
      NotWritten(header, size);
      return None;
    }
    if dash.value == 0 {
      a := ParseSuffix(header, size);
    } else {
      a := ParseFrom(header, dash.value, size);
    }
  }

  // ------------------------------------------------------------------ the round trip

  /** The header of the range from a to b. */
  function Header(a: nat, b: nat): string {
    "bytes=" + (Print(a) + "-" + Print(b))
  }

  lemma Pieces(p: string, q: string)
    ensures var x := p + "-" + q; |x| > |p| && x[|p|] == '-' && x[..|p|] == p && x[|p| + 1..] == q
  {
  }

  lemma AfterUnit(x: string)
    requires x != ""
    ensures Prefixed("bytes=" + x) && ("bytes=" + x)[6..] == x
  {
  }

  lemma HeaderIsWritten(a: nat, b: nat)
    ensures Prefixed(Header(a, b)) && WrittenAt(Header(a, b)[6..], |Print(a)|, FromTo(a, b))
  {
    var x := Print(a) + "-" + Print(b);
    ValueOfPrint(a);
    ValueOfPrint(b);
    Pieces(Print(a), Print(b));
    AfterUnit(x);
  }

  /** Whatever range of a file is printed, its answer is that range. */
  lemma PrintedIsAnswered(a: nat, b: nat, size: nat, answer: Option<Slice>)
    requires a <= b < size < WORD && IsAnswer(Header(a, b), size, answer)
    ensures answer == Some(Slice(a, b - a + 1))
  {
    HeaderIsWritten(a, b);
    Accept(Header(a, b), |Print(a)|, FromTo(a, b), size, Slice(a, b - a + 1));
    AnswerIsUnique(Header(a, b), size, answer, Some(Slice(a, b - a + 1)));
  }
}
