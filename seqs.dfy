/** Facts about sequences used by both halves of the model: duplicate-free
    lists, Java's `List.removeAll`, and index lookup. */
module Seqs {
  import opened Wrappers

  /** No element occurs twice. */
  predicate Distinct<T(==)>(s: seq<T>) {
    forall i, j :: 0 <= i < j < |s| ==> s[i] != s[j]
  }

  /** `list.removeAll(c)`: every element that occurs in `c` is dropped, the
      others keep their order. */
  function RemoveAll<T(==)>(s: seq<T>, c: seq<T>): (r: seq<T>)
    ensures forall i :: 0 <= i < |r| ==> r[i] in s && r[i] !in c
    ensures forall i :: 0 <= i < |s| && s[i] !in c ==> s[i] in r
    ensures |r| <= |s|
  {
    if s == [] then []
    else if s[0] in c then RemoveAll(s[1..], c)
    else [s[0]] + RemoveAll(s[1..], c)
  }

  /** First position of `x` in `s`, or None when `x` does not occur. */
  function IndexOf<T(==)>(s: seq<T>, x: T): (r: Option<nat>)
    ensures r.Some? ==> r.value < |s| && s[r.value] == x && x !in s[..r.value]
    ensures r.None? <==> x !in s
  {
    if s == [] then None
    else if s[0] == x then Some(0)
    else match IndexOf(s[1..], x)
      case None => None
      case Some(i) => assert s[1..][..i] == s[1..i + 1]; Some(i + 1)
  }

  lemma {:induction false} DistinctIndexOf<T>(s: seq<T>, i: nat)
    requires Distinct(s) && i < |s|
    ensures IndexOf(s, s[i]) == Some(i)
  {
    var r := IndexOf(s, s[i]);
    var k := r.value;
    assert s[k] == s[i];
  }

  /** In a duplicate-free sequence every element occurs exactly once. */
  lemma {:induction false} DistinctMultiplicity<T>(s: seq<T>, x: T)
    requires Distinct(s)
    ensures multiset(s)[x] == if x in s then 1 else 0
  {
    if s != [] {
      assert s == [s[0]] + s[1..];
      assert Distinct(s[1..]);
      DistinctMultiplicity(s[1..], x);
      if x == s[0] {
        assert x !in s[1..];
      }
    }
  }

  /** A sequence is duplicate-free exactly when no element occurs twice in its multiset. */
  lemma {:induction false} DistinctIffMultiplicityAtMostOne<T>(s: seq<T>)
    ensures Distinct(s) <==> forall x :: multiset(s)[x] <= 1
  {
    if s == [] {
    } else {
      var t := s[1..];
      assert s == [s[0]] + t;
      DistinctIffMultiplicityAtMostOne(t);
      if Distinct(s) {
        assert Distinct(t);
        assert s[0] !in t;
        forall x ensures multiset(s)[x] <= 1 {
          if x == s[0] {
            assert multiset(t)[x] == 0;
          }
        }
      }
      if forall x :: multiset(s)[x] <= 1 {
        assert forall x :: multiset(t)[x] <= 1 by {
          forall x ensures multiset(t)[x] <= 1 {
            assert multiset(s)[x] == multiset([s[0]])[x] + multiset(t)[x];
          }
        }
        assert multiset(t)[s[0]] == 0 by {
          assert multiset(s)[s[0]] == 1 + multiset(t)[s[0]];
        }
        assert s[0] !in t;
        forall i, j | 0 <= i < j < |s| ensures s[i] != s[j] {
          if i == 0 {
            assert s[j] == t[j - 1];
          } else {
            assert s[i] == t[i - 1] && s[j] == t[j - 1];
          }
        }
      }
    }
  }

  /** What `removeAll` leaves, counted element by element. */
  lemma {:induction false} RemoveAllMultiplicity<T>(s: seq<T>, c: seq<T>, x: T)
    ensures multiset(RemoveAll(s, c))[x] == if x in c then 0 else multiset(s)[x]
  {
    if s != [] {
      assert s == [s[0]] + s[1..];
      RemoveAllMultiplicity(s[1..], c, x);
    }
  }

  /** Removing a duplicate-free sub-collection `c` from a duplicate-free `s` and
      putting `c` in front gives a permutation of `s` without duplicates. */
  lemma PrefixThenRest<T>(s: seq<T>, c: seq<T>)
    requires Distinct(s) && Distinct(c)
    requires forall x :: x in c ==> x in s
    ensures multiset(c + RemoveAll(s, c)) == multiset(s)
    ensures Distinct(c + RemoveAll(s, c))
  {
    var r := c + RemoveAll(s, c);
    forall x ensures multiset(r)[x] == multiset(s)[x] {
      RemoveAllMultiplicity(s, c, x);
      DistinctMultiplicity(s, x);
      DistinctMultiplicity(c, x);
    }
    assert multiset(r) == multiset(s);
    DistinctIffMultiplicityAtMostOne(s);
    DistinctIffMultiplicityAtMostOne(r);
  }
}
