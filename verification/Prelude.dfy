// Small datatypes and sequence folds shared by the other modules.

module Prelude {

  datatype Option<+T> = None | Some(value: T)

  datatype Result<+T, +E> = Ok(value: T) | Err(error: E)

  function Flatten<T>(ss: seq<seq<T>>): seq<T> {
    if ss == [] then [] else ss[0] + Flatten(ss[1..])
  }

  lemma {:induction false} FlattenAppend<T>(a: seq<seq<T>>, b: seq<seq<T>>)
    ensures Flatten(a + b) == Flatten(a) + Flatten(b)
  {
    if a == [] {
      assert a + b == b;
    } else {
      assert (a + b)[1..] == a[1..] + b;
      FlattenAppend(a[1..], b);
    }
  }

  lemma FlattenSnoc<T>(a: seq<seq<T>>, x: seq<T>)
    ensures Flatten(a + [x]) == Flatten(a) + x
  {
    FlattenAppend(a, [x]);
    assert [x][1..] == [];
  }

  function Map<A, B>(f: A -> B, s: seq<A>): (r: seq<B>)
    ensures |r| == |s|
    ensures forall i :: 0 <= i < |s| ==> r[i] == f(s[i])
  {
    seq(|s|, i requires 0 <= i < |s| => f(s[i]))
  }

  ghost predicate Distinct<T>(s: seq<T>) {
    forall i, j :: 0 <= i < j < |s| ==> s[i] != s[j]
  }

  // The UTF-8 encoding of a text.
  function Utf8(text: string): seq<nat> {
    if text == "" then [] else Utf8Char(text[0]) + Utf8(text[1..])
  }

  function Utf8Char(c: char): (code: seq<nat>)
    ensures 1 <= |code| <= 4
  {
    var n := c as nat;
    if n < 0x80 then [n]
    else if n < 0x800 then [0xC0 + n / 0x40, 0x80 + n % 0x40]
    else if n < 0x10000 then [0xE0 + n / 0x1000, 0x80 + n / 0x40 % 0x40, 0x80 + n % 0x40]
    else [0xF0 + n / 0x40000, 0x80 + n / 0x1000 % 0x40, 0x80 + n / 0x40 % 0x40, 0x80 + n % 0x40]
  }

  // The first byte of a code gives its length.
  lemma Utf8FirstByte(c: char)
    ensures |Utf8Char(c)| == 1 <==> Utf8Char(c)[0] < 0xC0
    ensures |Utf8Char(c)| == 2 <==> 0xC0 <= Utf8Char(c)[0] < 0xE0
    ensures |Utf8Char(c)| == 3 <==> 0xE0 <= Utf8Char(c)[0] < 0xF0
  {
  }

  lemma Utf8CharIsInjective(c: char, d: char)
    requires Utf8Char(c) == Utf8Char(d)
    ensures c == d
  {
    var m, n := c as nat, d as nat;
    var code := Utf8Char(c);
    Utf8FirstByte(c);
    Utf8FirstByte(d);
    if |code| == 2 {
      assert m == (code[0] - 0xC0) * 0x40 + (code[1] - 0x80);
      assert n == (code[0] - 0xC0) * 0x40 + (code[1] - 0x80);
    } else if |code| == 3 {
      DigitsOf(m);
      DigitsOf(n);
    } else if |code| == 4 {
      DigitsOf(m);
      DigitsOf(n);
    }
  }

  lemma DigitsOf(n: nat)
    ensures n == n / 0x1000 * 0x1000 + n / 0x40 % 0x40 * 0x40 + n % 0x40
    ensures n == n / 0x40000 * 0x40000 + n / 0x1000 % 0x40 * 0x1000 + n / 0x40 % 0x40 * 0x40 + n % 0x40
  {
  }

  // No character's code is a prefix of another's.
  lemma Utf8CharIsPrefixFree(c: char, d: char, x: seq<nat>, y: seq<nat>)
    requires Utf8Char(c) + x == Utf8Char(d) + y
    ensures c == d && x == y
  {
    hide Utf8Char;
    var left, right := Utf8Char(c) + x, Utf8Char(d) + y;
    assert left[0] == Utf8Char(c)[0] && right[0] == Utf8Char(d)[0];
    Utf8FirstByte(c);
    Utf8FirstByte(d);
    assert Utf8Char(c) == left[..|Utf8Char(c)|] && Utf8Char(d) == right[..|Utf8Char(d)|];
    Utf8CharIsInjective(c, d);
    assert x == left[|Utf8Char(c)|..] && y == right[|Utf8Char(d)|..];
  }

  lemma {:induction false} Utf8IsInjective(a: string, b: string)
    requires Utf8(a) == Utf8(b)
    ensures a == b
  {
    if a != "" && b != "" {
      Utf8CharIsPrefixFree(a[0], b[0], Utf8(a[1..]), Utf8(b[1..]));
      Utf8IsInjective(a[1..], b[1..]);
      assert a == [a[0]] + a[1..] && b == [b[0]] + b[1..];
    }
  }

  // The hexadecimal SHA-256 digest, taken to be injective.
  type Digest = seq<nat> -> string

  ghost predicate Injective(digest: Digest) {
    forall x, y :: digest(x) == digest(y) ==> x == y
  }

  // ----- NUL-separated identities -----

  const NUL := '\0'

  // Where the last NUL is, is settled by what has none after it.
  lemma LastNul(a: string, x: string, b: string, y: string)
    requires NUL !in x && NUL !in y && a + [NUL] + x == b + [NUL] + y
    ensures a == b && x == y
  {
    var left, right := a + [NUL] + x, b + [NUL] + y;
    assert left[|a|] == NUL && right[|b|] == NUL;
    assert forall i :: |a| < i < |left| ==> left[i] == x[i - |a| - 1];
    assert forall i :: |b| < i < |right| ==> right[i] == y[i - |b| - 1];
    assert |a| == |b|;
    assert a == left[..|a|] && b == right[..|b|];
    assert x == left[|a| + 1..] && y == right[|b| + 1..];
  }

  lemma FirstNul(a: string, x: string, b: string, y: string)
    requires NUL !in a && NUL !in b && a + [NUL] + x == b + [NUL] + y
    ensures a == b && x == y
  {
    var left, right := a + [NUL] + x, b + [NUL] + y;
    assert left[|a|] == NUL && right[|b|] == NUL;
    assert forall i :: 0 <= i < |a| ==> left[i] == a[i];
    assert forall i :: 0 <= i < |b| ==> right[i] == b[i];
    assert |a| == |b|;
    assert a == left[..|a|] && b == right[..|b|];
    assert x == left[|a| + 1..] && y == right[|b| + 1..];
  }

  lemma SuffixOf(head: string, x: string, y: string)
    requires head + x == head + y
    ensures x == y
  {
    assert x == (head + x)[|head|..] && y == (head + y)[|head|..];
  }

  function Filter<T>(p: T -> bool, s: seq<T>): seq<T> {
    if s == [] then [] else (if p(s[0]) then [s[0]] else []) + Filter(p, s[1..])
  }

  lemma {:induction false} FilterMembers<T>(p: T -> bool, s: seq<T>)
    ensures |Filter(p, s)| <= |s|
    ensures forall x | x in Filter(p, s) :: x in s && p(x)
    ensures forall x | x in s :: p(x) ==> x in Filter(p, s)
  {
    if s != [] { FilterMembers(p, s[1..]); }
  }

  // No two elements share a key.
  ghost predicate DistinctBy<T, K>(key: T -> K, s: seq<T>) {
    forall i, j :: 0 <= i < j < |s| ==> key(s[i]) != key(s[j])
  }

  lemma {:induction false} FilterKeepsDistinct<T, K>(key: T -> K, p: T -> bool, s: seq<T>)
    requires DistinctBy(key, s)
    ensures DistinctBy(key, Filter(p, s))
  {
    if s != [] {
      var rest := Filter(p, s[1..]);
      FilterKeepsDistinct(key, p, s[1..]);
      FilterMembers(p, s[1..]);
      forall k | 0 <= k < |rest| ensures key(rest[k]) != key(s[0]) { assert rest[k] in s[1..]; }
    }
  }

  lemma {:induction false} FilterAll<T>(p: T -> bool, s: seq<T>)
    requires forall i :: 0 <= i < |s| ==> p(s[i])
    ensures Filter(p, s) == s
  {
    if s != [] { FilterAll(p, s[1..]); }
  }

  lemma {:induction false} FilterNone<T>(p: T -> bool, s: seq<T>)
    requires forall i :: 0 <= i < |s| ==> !p(s[i])
    ensures Filter(p, s) == []
  {
    if s != [] { FilterNone(p, s[1..]); }
  }

  lemma {:induction false} FilterCongruent<T>(p: T -> bool, q: T -> bool, s: seq<T>)
    requires forall i :: 0 <= i < |s| ==> (p(s[i]) <==> q(s[i]))
    ensures Filter(p, s) == Filter(q, s)
  {
    if s != [] { FilterCongruent(p, q, s[1..]); }
  }

  lemma {:induction false} FilterTwice<T>(p: T -> bool, q: T -> bool, s: seq<T>)
    requires forall i :: 0 <= i < |s| && p(s[i]) ==> q(s[i])
    ensures Filter(p, Filter(q, s)) == Filter(p, s)
  {
    if s != [] {
      FilterTwice(p, q, s[1..]);
      FilterAppend(p, if q(s[0]) then [s[0]] else [], Filter(q, s[1..]));
    }
  }

  // How a filter splits around one position, and what is left when that position goes.
  lemma FilterAround<T>(p: T -> bool, s: seq<T>, at: nat)
    requires at < |s|
    ensures Filter(p, s) == Filter(p, s[..at]) + (if p(s[at]) then [s[at]] else []) + Filter(p, s[at + 1..])
    ensures Filter(p, s[..at] + s[at + 1..]) == Filter(p, s[..at]) + Filter(p, s[at + 1..])
  {
    hide Filter;
    SplitsAround(s, at);
    FilterMiddle(p, s[..at], s[at], s[at + 1..]);
  }

  lemma SplitsAround<T>(s: seq<T>, at: nat)
    requires at < |s|
    ensures s == s[..at] + [s[at]] + s[at + 1..]
  {
  }

  lemma FilterMiddle<T>(p: T -> bool, left: seq<T>, x: T, right: seq<T>)
    ensures Filter(p, left + [x] + right) == Filter(p, left) + (if p(x) then [x] else []) + Filter(p, right)
    ensures Filter(p, left + right) == Filter(p, left) + Filter(p, right)
  {
    hide Filter;
    FilterAppend(p, left + [x], right);
    FilterSnoc(p, left, x);
    FilterAppend(p, left, right);
  }

  lemma NothingFiltered<T>(p: T -> bool)
    ensures Filter(p, []) == []
  {
  }

  lemma FilterSnoc<T>(p: T -> bool, s: seq<T>, x: T)
    ensures Filter(p, s + [x]) == if p(x) then Filter(p, s) + [x] else Filter(p, s)
  {
    FilterAppend(p, s, [x]);
    assert [x][1..] == [];
  }

  lemma {:induction false} FilterAppend<T>(p: T -> bool, a: seq<T>, b: seq<T>)
    ensures Filter(p, a + b) == Filter(p, a) + Filter(p, b)
  {
    if a == [] {
      assert a + b == b;
    } else {
      var head := if p(a[0]) then [a[0]] else [];
      FilterAppend(p, a[1..], b);
      assert (a + b)[0] == a[0] && (a + b)[1..] == a[1..] + b;
      assert Filter(p, a + b) == head + (Filter(p, a[1..]) + Filter(p, b));
      AppendAssociates(head, Filter(p, a[1..]), Filter(p, b));
    }
  }

  lemma AppendAssociates<T>(a: seq<T>, b: seq<T>, c: seq<T>)
    ensures a + (b + c) == (a + b) + c
  {
  }

  // Two complementary filters together keep every element.
  lemma {:induction false} FilterSplits<T>(p: T -> bool, q: T -> bool, s: seq<T>)
    requires forall i :: 0 <= i < |s| ==> (q(s[i]) <==> !p(s[i]))
    ensures multiset(Filter(p, s)) + multiset(Filter(q, s)) == multiset(s)
  {
    if s != [] {
      assert s == [s[0]] + s[1..];
      FilterSplits(p, q, s[1..]);
    }
  }

  lemma {:induction false} FilterCounts<T>(p: T -> bool, s: seq<T>, x: T)
    ensures multiset(Filter(p, s))[x] == if p(x) then multiset(s)[x] else 0
  {
    if s != [] {
      assert s == [s[0]] + s[1..];
      FilterCounts(p, s[1..], x);
    }
  }

  lemma FilterOfPermutation<T(!new)>(p: T -> bool, a: seq<T>, b: seq<T>)
    requires multiset(a) == multiset(b)
    ensures multiset(Filter(p, a)) == multiset(Filter(p, b))
    ensures |Filter(p, a)| == |Filter(p, b)|
  {
    hide Filter;
    var fa, fb := multiset(Filter(p, a)), multiset(Filter(p, b));
    forall x: T ensures fa[x] == fb[x] {
      FilterCounts(p, a, x);
      FilterCounts(p, b, x);
    }
    assert fa == fb;
    assert |Filter(p, a)| == |fa| && |Filter(p, b)| == |fb|;
  }
}
