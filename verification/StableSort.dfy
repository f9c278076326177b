// Python's stable sort, as insertion from the right, with the facts the other modules use.

module StableSort {
  import opened Prelude

  ghost predicate TotalPreorder<T(!new)>(le: (T, T) -> bool) {
    && (forall x, y :: le(x, y) || le(y, x))
    && (forall x, y, z :: le(x, y) && le(y, z) ==> le(x, z))
  }

  ghost predicate Sorted<T>(s: seq<T>, le: (T, T) -> bool) {
    forall i, j :: 0 <= i < j < |s| ==> le(s[i], s[j])
  }

  // An element goes in front of everything it is not greater than, so ties keep their order.
  function Insert<T>(x: T, s: seq<T>, le: (T, T) -> bool): seq<T> {
    if s == [] || le(x, s[0]) then [x] + s else [s[0]] + Insert(x, s[1..], le)
  }

  function Sort<T>(s: seq<T>, le: (T, T) -> bool): seq<T> {
    if s == [] then [] else Insert(s[0], Sort(s[1..], le), le)
  }

  lemma {:induction false} InsertPermutes<T>(x: T, s: seq<T>, le: (T, T) -> bool)
    ensures multiset(Insert(x, s, le)) == multiset{x} + multiset(s)
  {
    if s != [] && !le(x, s[0]) {
      InsertPermutes(x, s[1..], le);
      assert s == [s[0]] + s[1..];
    }
  }

  lemma {:induction false} SortPermutes<T>(s: seq<T>, le: (T, T) -> bool)
    ensures multiset(Sort(s, le)) == multiset(s)
    ensures |Sort(s, le)| == |s|
  {
    if s != [] {
      SortPermutes(s[1..], le);
      InsertPermutes(s[0], Sort(s[1..], le), le);
      assert s == [s[0]] + s[1..];
    }
    assert |multiset(Sort(s, le))| == |multiset(s)|;
  }

  lemma {:induction false} InsertSorts<T(!new)>(x: T, s: seq<T>, le: (T, T) -> bool)
    requires TotalPreorder(le) && Sorted(s, le)
    ensures Sorted(Insert(x, s, le), le)
  {
    if s != [] && !le(x, s[0]) {
      var tail := Insert(x, s[1..], le);
      InsertSorts(x, s[1..], le);
      InsertPermutes(x, s[1..], le);
      forall y | y in tail ensures le(s[0], y) {
        assert y in multiset(tail);
        assert y == x || y in s[1..];
      }
    }
  }

  lemma {:induction false} SortSorts<T(!new)>(s: seq<T>, le: (T, T) -> bool)
    requires TotalPreorder(le)
    ensures Sorted(Sort(s, le), le)
  {
    if s != [] {
      SortSorts(s[1..], le);
      InsertSorts(s[0], Sort(s[1..], le), le);
    }
  }

  function TiedWith<T>(le: (T, T) -> bool, pivot: T): T -> bool {
    x => le(pivot, x) && le(x, pivot)
  }

  // Among elements tied with `pivot` the sort keeps input order.
  lemma {:induction false} SortIsStable<T(!new)>(s: seq<T>, le: (T, T) -> bool, pivot: T)
    requires TotalPreorder(le)
    ensures Filter(TiedWith(le, pivot), Sort(s, le)) == Filter(TiedWith(le, pivot), s)
  {
    if s != [] {
      SortIsStable(s[1..], le, pivot);
      SortSorts(s[1..], le);
      InsertIsStable(s[0], Sort(s[1..], le), le, pivot);
    }
  }

  lemma {:induction false} InsertIsStable<T(!new)>(x: T, s: seq<T>, le: (T, T) -> bool, pivot: T)
    requires TotalPreorder(le) && Sorted(s, le)
    ensures Filter(TiedWith(le, pivot), Insert(x, s, le)) == Filter(TiedWith(le, pivot), [x] + s)
  {
    assert ([x] + s)[1..] == s;
    if s != [] && !le(x, s[0]) {
      InsertIsStable(x, s[1..], le, pivot);
      assert ([x] + s[1..])[1..] == s[1..];
      var tail := Insert(x, s[1..], le);
      assert ([s[0]] + tail)[1..] == tail;
    }
  }

  // The first minimum of a list leads its stable sort; the rest is the sort of what remains.
  lemma {:induction false} FirstMinimumLeads<T(!new)>(s: seq<T>, k: nat, le: (T, T) -> bool)
    requires TotalPreorder(le) && k < |s|
    requires forall i :: 0 <= i < k ==> !le(s[i], s[k])
    requires forall i :: k <= i < |s| ==> le(s[k], s[i])
    ensures Sort(s, le) == [s[k]] + Sort(s[..k] + s[k + 1..], le)
  {
    var remaining := s[..k] + s[k + 1..];
    if k == 0 {
      assert remaining == s[1..];
      SortPermutes(s[1..], le);
      if Sort(s[1..], le) != [] {
        var head := Sort(s[1..], le)[0];
        assert head in multiset(s[1..]);
        assert head in s[1..];
      }
    } else {
      FirstMinimumLeads(s[1..], k - 1, le);
      assert remaining[1..] == s[1..][..k - 1] + s[1..][k..];
      var tail := Sort(remaining[1..], le);
      assert ([s[k]] + tail)[1..] == tail;
    }
  }

  // A sorted list is its own sort.
  lemma {:induction false} SortOfSorted<T>(s: seq<T>, le: (T, T) -> bool)
    requires Sorted(s, le)
    ensures Sort(s, le) == s
  {
    if s != [] { SortOfSorted(s[1..], le); }
  }
}
