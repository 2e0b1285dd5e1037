/** Small vocabulary shared by the models: optional values, integer bounds, sums over
    sequences, and order-preserving filters. */
module Base {

  datatype Option<+T> = None | Some(value: T)

  function Max(a: int, b: int): int { if a < b then b else a }

  function Min(a: int, b: int): int { if a < b then a else b }

  /** The elements satisfying `p`, in order. */
  function Filter<T(!new)>(p: T -> bool, s: seq<T>): (r: seq<T>)
    ensures forall x :: x in r <==> x in s && p(x)
    ensures |r| <= |s|
  {
    if s == [] then []
    else if p(s[0]) then [s[0]] + Filter(p, s[1..])
    else Filter(p, s[1..])
  }

  lemma {:induction false} FilterAppend<T(!new)>(p: T -> bool, a: seq<T>, b: seq<T>)
    ensures Filter(p, a + b) == Filter(p, a) + Filter(p, b)
  {
    if a == [] {
      assert a + b == b;
    } else {
      assert (a + b)[1..] == a[1..] + b;
      FilterAppend(p, a[1..], b);
    }
  }

  lemma FilterSnoc<T(!new)>(p: T -> bool, s: seq<T>, x: T)
    ensures Filter(p, s + [x]) == Filter(p, s) + (if p(x) then [x] else [])
  {
    FilterAppend(p, s, [x]);
  }

  lemma {:induction false} FilterAll<T(!new)>(p: T -> bool, s: seq<T>)
    requires forall x :: x in s ==> p(x)
    ensures Filter(p, s) == s
  {
    if s != [] {
      FilterAll(p, s[1..]);
      assert s == [s[0]] + s[1..];
    }
  }

  lemma {:induction false} FilterNone<T(!new)>(p: T -> bool, s: seq<T>)
    requires forall x :: x in s ==> !p(x)
    ensures Filter(p, s) == []
  {
    if s != [] { FilterNone(p, s[1..]); }
  }

  function Map<T, R>(f: T -> R, s: seq<T>): (r: seq<R>)
    ensures |r| == |s| && forall i :: 0 <= i < |s| ==> r[i] == f(s[i])
  {
    seq(|s|, i requires 0 <= i < |s| => f(s[i]))
  }

  /** ASCII whitespace. */
  predicate IsSpace(c: char) {
    9 as char <= c <= 13 as char || 28 as char <= c <= 32 as char
  }

  function StripLeft(s: string): string {
    if s != [] && IsSpace(s[0]) then StripLeft(s[1..]) else s
  }

  function StripRight(s: string): string {
    if s != [] && IsSpace(s[|s| - 1]) then StripRight(s[..|s| - 1]) else s
  }

  /** A string without leading and trailing whitespace. */
  function Strip(s: string): string { StripRight(StripLeft(s)) }

  lemma {:induction false} FilterSame<T(!new)>(p: T -> bool, q: T -> bool, s: seq<T>)
    requires forall x :: x in s ==> p(x) == q(x)
    ensures Filter(p, s) == Filter(q, s)
  {
    if s != [] { FilterSame(p, q, s[1..]); }
  }

  /** Only whitespace between two places. */
  ghost predicate SpaceBetween(s: string, i: nat, j: nat)
    requires j <= |s|
  {
    forall k :: i <= k < j ==> IsSpace(s[k])
  }

  /** The stretch from `i` to `j` has whitespace all around and none at its own ends. */
  ghost predicate TrimAt(s: string, i: nat, j: nat) {
    && i <= j <= |s| && SpaceBetween(s, 0, i) && SpaceBetween(s, j, |s|)
    && (i < j ==> !IsSpace(s[i]) && !IsSpace(s[j - 1]))
  }

  /** `t` is `s` without a run of whitespace in front and one behind, and has none at its own ends. */
  ghost predicate TrimsTo(s: string, t: string) { exists i: nat, j: nat :: TrimAt(s, i, j) && t == s[i..j] }

  /** Whitespace is the blank, tab, line feed, vertical tab, form feed, carriage return and the four
      separators. */
  lemma SpacesAre(c: char)
    ensures IsSpace(c) <==> c == ' ' || c == '\t' || c == '\n' || c == '\r' || c as int in {11, 12, 28, 29, 30, 31}
  {
  }

  lemma {:induction false} StripLeftAt(s: string) returns (i: nat)
    ensures i <= |s| && StripLeft(s) == s[i..] && SpaceBetween(s, 0, i) && (i < |s| ==> !IsSpace(s[i]))
    decreases |s|
  {
    if s != [] && IsSpace(s[0]) {
      i := StripLeftAt(s[1..]);
      assert s[1..][i..] == s[i + 1..];
      forall k | 1 <= k < i + 1 ensures IsSpace(s[k]) { assert s[k] == s[1..][k - 1]; }
      i := i + 1;
    } else {
      i := 0;
    }
  }

  lemma {:induction false} StripRightAt(s: string) returns (j: nat)
    ensures j <= |s| && StripRight(s) == s[..j] && SpaceBetween(s, j, |s|) && (0 < j ==> !IsSpace(s[j - 1]))
    decreases |s|
  {
    var n := |s| - 1;
    if s != [] && IsSpace(s[n]) {
      j := StripRightAt(s[..n]);
      assert s[..n][..j] == s[..j];
      forall k | j <= k < n ensures IsSpace(s[k]) { assert s[k] == s[..n][k]; }
    } else {
      j := |s|;
    }
  }

  lemma StripTrims(s: string)
    ensures TrimsTo(s, Strip(s))
  {
    var i := StripLeftAt(s);
    var l := s[i..];
    var j := StripRightAt(l);
    assert l[..j] == s[i..i + j];
    forall k | i + j <= k < |s| ensures IsSpace(s[k]) { assert s[k] == l[k - i]; }
    if j > 0 { assert l[j - 1] == s[i + j - 1]; }
    assert TrimAt(s, i, i + j);
  }

  /** Trimming has one result: what `Strip` gives. */
  lemma TrimIsStrip(s: string, t: string)
    ensures TrimsTo(s, t) <==> t == Strip(s)
  {
    hide Strip;
    StripTrims(s);
    if TrimsTo(s, t) { TrimUnique(s, t, Strip(s)); }
  }

  lemma TrimUnique(s: string, t: string, u: string)
    requires TrimsTo(s, t) && TrimsTo(s, u)
    ensures t == u
  {
    var i: nat, j: nat :| TrimAt(s, i, j) && t == s[i..j];
    var k: nat, l: nat :| TrimAt(s, k, l) && u == s[k..l];
    TrimInside(s, i, j, k, l);
    TrimInside(s, k, l, i, j);
  }

  lemma TrimInside(s: string, i: nat, j: nat, k: nat, l: nat)
    requires TrimAt(s, i, j) && TrimAt(s, k, l)
    ensures j <= |s| && l <= |s| && i <= j && k <= l && (i < j ==> k <= i && j <= l)
  {
  }

  /** `q` is `x` divided by `d` and rounded down. */
  predicate FloorOf(q: int, x: int, d: int) { q * d <= x < (q + 1) * d }

  lemma MulKeepsOrder(a: int, b: int, d: int)
    requires a <= b && d > 0
    ensures a * d <= b * d
  {
    assert (b - a) * d >= 0;
  }

  lemma QuotientIsFloor(x: int, d: int)
    requires d > 0
    ensures FloorOf(x / d, x, d)
  {
    assert x == x / d * d + x % d;
    assert (x / d + 1) * d == x / d * d + d;
  }

  lemma FloorIsUnique(p: int, q: int, x: int, d: int)
    requires d > 0 && FloorOf(p, x, d) && FloorOf(q, x, d)
    ensures p <= q
  {
    if q < p { MulKeepsOrder(q + 1, p, d); }
  }

  lemma FloorOfIff(q: int, x: int, d: int)
    requires d > 0
    ensures FloorOf(q, x, d) <==> q == x / d
  {
    hide FloorOf;
    QuotientIsFloor(x, d);
    if FloorOf(q, x, d) {
      FloorIsUnique(q, x / d, x, d);
      FloorIsUnique(x / d, q, x, d);
    }
  }
}
