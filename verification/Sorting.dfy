/** Python's stable `sorted`, and the facts every caller needs: the result is sorted, holds the
    same elements, and is the only such arrangement when the order tells elements apart. */
module Sorting {

  /** `leq` behaves as a total preorder on the elements of `s`. */
  ghost predicate Preorder<T(!new)>(leq: (T, T) -> bool, s: seq<T>) {
    && (forall a, b | a in s && b in s :: leq(a, b) || leq(b, a))
    && (forall a, b, c | a in s && b in s && c in s && leq(a, b) && leq(b, c) :: leq(a, c))
  }

  /** Distinct elements of `s` are never equivalent under `leq`. */
  ghost predicate Separates<T(!new)>(leq: (T, T) -> bool, s: seq<T>) {
    forall a, b | a in s && b in s && leq(a, b) && leq(b, a) :: a == b
  }

  ghost predicate Sorted<T(!new)>(leq: (T, T) -> bool, s: seq<T>) {
    forall i, j | 0 <= i < j < |s| :: leq(s[i], s[j])
  }

  /** Insert after every element that is not greater, so equal elements keep their order. */
  function Insert<T(!new)>(leq: (T, T) -> bool, s: seq<T>, x: T): (r: seq<T>)
    ensures multiset(r) == multiset(s) + multiset{x}
  {
    if s == [] then [x]
    else if leq(s[|s| - 1], x) then s + [x]
    else
      var r := Insert(leq, s[..|s| - 1], x) + [s[|s| - 1]];
      assert s == s[..|s| - 1] + [s[|s| - 1]];
      r
  }

  function Sort<T(!new)>(leq: (T, T) -> bool, s: seq<T>): (r: seq<T>)
    ensures multiset(r) == multiset(s)
  {
    if s == [] then []
    else
      assert s == s[..|s| - 1] + [s[|s| - 1]];
      Insert(leq, Sort(leq, s[..|s| - 1]), s[|s| - 1])
  }

  lemma SameMembers<T(!new)>(a: seq<T>, b: seq<T>)
    requires multiset(a) == multiset(b)
    ensures |a| == |b|
    ensures forall x :: x in a <==> x in b
  {
    assert |multiset(a)| == |multiset(b)|;
    forall x ensures x in a <==> x in b {
      assert x in a <==> x in multiset(a);
      assert x in b <==> x in multiset(b);
    }
  }

  lemma InsertMembers<T(!new)>(leq: (T, T) -> bool, s: seq<T>, x: T)
    ensures forall y :: y in Insert(leq, s, x) <==> y in s || y == x
  {
    assert multiset(s + [x]) == multiset(s) + multiset{x};
    SameMembers(Insert(leq, s, x), s + [x]);
  }

  lemma {:induction false} InsertSorted<T(!new)>(leq: (T, T) -> bool, s: seq<T>, x: T)
    requires Preorder(leq, s + [x]) && Sorted(leq, s)
    ensures Sorted(leq, Insert(leq, s, x))
  {
    assert forall y | y in s :: y in s + [x];
    assert x in s + [x];
    if s == [] {
    } else if leq(s[|s| - 1], x) {
      forall i | 0 <= i < |s| ensures leq(s[i], x) {
        assert i < |s| - 1 ==> leq(s[i], s[|s| - 1]);
      }
    } else {
      var init, last := s[..|s| - 1], s[|s| - 1];
      assert forall y | y in init :: y in s;
      assert forall y | y in init + [x] :: y in s + [x];
      InsertSorted(leq, init, x);
      InsertMembers(leq, init, x);
      var r := Insert(leq, init, x);
      forall y | y in r ensures leq(y, last) {
        if y != x {
          assert y in init;
          var i :| 0 <= i < |init| && init[i] == y;
          assert leq(s[i], s[|s| - 1]);
        }
      }
    }
  }

  lemma {:induction false} SortSorted<T(!new)>(leq: (T, T) -> bool, s: seq<T>)
    requires Preorder(leq, s)
    ensures Sorted(leq, Sort(leq, s))
  {
    if s != [] {
      var init, last := s[..|s| - 1], s[|s| - 1];
      assert forall y | y in init :: y in s;
      SortSorted(leq, init);
      var r := Sort(leq, init);
      SameMembers(r, init);
      forall y | y in r + [last] ensures y in s {
        assert y in r || y == last;
      }
      InsertSorted(leq, r, last);
    }
  }

  lemma SortedHead<T(!new)>(leq: (T, T) -> bool, a: seq<T>, b: seq<T>)
    requires a != [] && b != [] && a[0] in b && b[0] in a
    requires Sorted(leq, a) && Sorted(leq, b) && Separates(leq, a)
    ensures a[0] == b[0]
  {
    var i :| 0 <= i < |b| && b[i] == a[0];
    var j :| 0 <= j < |a| && a[j] == b[0];
    assert i == 0 || leq(b[0], b[i]);
    assert j == 0 || leq(a[0], a[j]);
  }

  /** Two sorted arrangements of the same elements coincide when `leq` separates them. */
  lemma {:induction false} SortedUnique<T(!new)>(leq: (T, T) -> bool, a: seq<T>, b: seq<T>)
    requires multiset(a) == multiset(b)
    requires Sorted(leq, a) && Sorted(leq, b) && Separates(leq, a)
    ensures a == b
  {
    SameMembers(a, b);
    if a != [] {
      SortedHead(leq, a, b);
      var x, ta, tb := a[0], a[1..], b[1..];
      assert a == [x] + ta && b == [x] + tb;
      SameTails(a, b);
      TailFacts(leq, a);
      TailFacts(leq, b);
      hide Sorted, Separates;
      SortedUnique(leq, ta, tb);
    }
  }

  lemma SameTails<T>(a: seq<T>, b: seq<T>)
    requires multiset(a) == multiset(b) && a != [] && b != [] && a[0] == b[0]
    ensures multiset(a[1..]) == multiset(b[1..])
  {
    assert a == [a[0]] + a[1..] && b == [b[0]] + b[1..];
    assert multiset(a[1..]) == multiset(a) - multiset{a[0]};
    assert multiset(b[1..]) == multiset(b) - multiset{b[0]};
  }

  lemma TailFacts<T(!new)>(leq: (T, T) -> bool, a: seq<T>)
    requires a != [] && Sorted(leq, a)
    ensures Sorted(leq, a[1..])
    ensures Separates(leq, a) ==> Separates(leq, a[1..])
  {
    assert forall y | y in a[1..] :: y in a;
    forall i, j | 0 <= i < j < |a[1..]| ensures leq(a[1..][i], a[1..][j]) {
      assert leq(a[i + 1], a[j + 1]);
    }
  }

  /** The premises of sorting speak of members only. */
  lemma OrderOfMembers<T(!new)>(leq: (T, T) -> bool, a: seq<T>, b: seq<T>)
    requires Preorder(leq, a) && Separates(leq, a) && forall x | x in b :: x in a
    ensures Preorder(leq, b) && Separates(leq, b)
  {
  }

  /** Sorting any rearrangement gives the same sequence. */
  lemma SortPermutation<T(!new)>(leq: (T, T) -> bool, a: seq<T>, b: seq<T>)
    requires multiset(a) == multiset(b)
    requires Preorder(leq, a) && Separates(leq, a)
    ensures Sort(leq, a) == Sort(leq, b)
  {
    SameMembers(a, b);
    var ra, rb := Sort(leq, a), Sort(leq, b);
    SameMembers(ra, a);
    OrderOfMembers(leq, a, b);
    OrderOfMembers(leq, a, ra);
    SortSorted(leq, a);
    SortSorted(leq, b);
    SortedUnique(leq, ra, rb);
  }

  /** A sorted sequence is already its own sorting. */
  lemma SortIdentity<T(!new)>(leq: (T, T) -> bool, s: seq<T>)
    requires Preorder(leq, s) && Separates(leq, s) && Sorted(leq, s)
    ensures Sort(leq, s) == s
  {
    SortSorted(leq, s);
    SortedUnique(leq, s, Sort(leq, s));
  }

  /** A sequence that climbs strictly in a numeric key is already sorted by that key. */
  lemma ClimbingSorts<T(!new)>(leq: (T, T) -> bool, key: T -> int, s: seq<T>)
    requires forall a, b :: leq(a, b) <==> key(a) <= key(b)
    requires forall i, j | 0 <= i < j < |s| :: key(s[i]) < key(s[j])
    ensures Sort(leq, s) == s
  {
    forall a, b | a in s && b in s && leq(a, b) && leq(b, a) ensures a == b {
      var i :| 0 <= i < |s| && s[i] == a;
      var j :| 0 <= j < |s| && s[j] == b;
      assert i < j || j < i || i == j;
    }
    forall i, j | 0 <= i < j < |s| ensures leq(s[i], s[j]) {
      assert key(s[i]) < key(s[j]);
    }
    SortIdentity(leq, s);
  }

  // Python compares strings by code point, position by position.

  predicate TextLeq(a: string, b: string) {
    if a == "" then true
    else if b == "" then false
    else if a[0] != b[0] then a[0] < b[0]
    else TextLeq(a[1..], b[1..])
  }

  lemma {:induction false} TextLeqTotal(a: string, b: string)
    ensures TextLeq(a, b) || TextLeq(b, a)
  {
    if a != "" && b != "" && a[0] == b[0] {
      TextLeqTotal(a[1..], b[1..]);
    }
  }

  lemma {:induction false} TextLeqTransitive(a: string, b: string, c: string)
    requires TextLeq(a, b) && TextLeq(b, c)
    ensures TextLeq(a, c)
  {
    if a != "" && b != "" && c != "" && a[0] == b[0] == c[0] {
      TextLeqTransitive(a[1..], b[1..], c[1..]);
    }
  }

  lemma {:induction false} TextLeqAntisymmetric(a: string, b: string)
    requires TextLeq(a, b) && TextLeq(b, a)
    ensures a == b
  {
    if a != "" && b != "" {
      TextLeqAntisymmetric(a[1..], b[1..]);
      assert a == [a[0]] + a[1..] && b == [b[0]] + b[1..];
    }
  }

  lemma TextOrder(s: seq<string>)
    ensures Preorder(TextLeq, s) && Separates(TextLeq, s)
  {
    forall a, b ensures TextLeq(a, b) || TextLeq(b, a) { TextLeqTotal(a, b); }
    forall a, b, c | TextLeq(a, b) && TextLeq(b, c) ensures TextLeq(a, c) { TextLeqTransitive(a, b, c); }
    forall a, b | TextLeq(a, b) && TextLeq(b, a) ensures a == b { TextLeqAntisymmetric(a, b); }
  }

  // Rows of a table, listed by `ORDER BY` on a numeric column.

  ghost function Listing<T(!new)>(s: set<T>): (r: seq<T>)
    ensures multiset(r) == multiset(s)
  {
    if s == {} then [] else
      var x :| x in s;
      assert multiset(s) == multiset(s - {x}) + multiset{x};
      Listing(s - {x}) + [x]
  }

  function Rank(rank: map<string, int>, key: string): int {
    if key in rank then rank[key] else 0
  }

  ghost function OrderedBy(rank: map<string, int>): (r: seq<string>)
    ensures multiset(r) == multiset(rank.Keys)
  {
    Sort((a: string, b: string) => Rank(rank, a) <= Rank(rank, b), Listing(rank.Keys))
  }

  /** A listing of every key with strictly increasing ranks is the ordered listing. */
  lemma OrderedByIs(rank: map<string, int>, s: seq<string>)
    requires forall key :: key in rank <==> key in s
    requires forall i, j | 0 <= i < j < |s| :: Rank(rank, s[i]) < Rank(rank, s[j])
    ensures OrderedBy(rank) == s
  {
    var leq := (a: string, b: string) => Rank(rank, a) <= Rank(rank, b);
    assert Distinct(s);
    DistinctListing(rank.Keys, s);
    assert multiset(s) == multiset(Listing(rank.Keys));
    forall a, b | a in s && b in s && leq(a, b) && leq(b, a) ensures a == b {
      var i :| 0 <= i < |s| && s[i] == a;
      var j :| 0 <= j < |s| && s[j] == b;
      assert i < j || j < i || i == j;
    }
    forall i, j | 0 <= i < j < |s| ensures leq(s[i], s[j]) {}
    SortPermutation(leq, s, Listing(rank.Keys));
    SortIdentity(leq, s);
  }

  ghost predicate Distinct<T>(s: seq<T>) {
    forall i, j | 0 <= i < j < |s| :: s[i] != s[j]
  }

  /** A listing without repeats holds each key once. */
  lemma {:induction false} DistinctListing<T(!new)>(keys: set<T>, s: seq<T>)
    requires Distinct(s) && forall key :: key in keys <==> key in s
    ensures multiset(s) == multiset(keys)
  {
    if s == [] {
      assert keys == {};
    } else {
      var last, init := s[|s| - 1], s[..|s| - 1];
      assert s == init + [last];
      assert last !in init;
      DistinctListing(keys - {last}, init);
      assert keys == (keys - {last}) + {last};
    }
  }

  /** A listing with the elements of a set as its multiset holds each of them once. */
  lemma ListedOnce<T(!new)>(list: seq<T>, s: set<T>)
    requires multiset(list) == multiset(s)
    ensures Distinct(list) && (forall x :: x in list <==> x in s) && |list| == |s|
  {
    forall x ensures x in list <==> x in s {
      assert x in multiset(list) <==> x in multiset(s);
    }
    forall i, j | 0 <= i < j < |list| ensures list[i] != list[j] {
      assert list == list[..j] + [list[j]] + list[j + 1..];
      assert multiset(s)[list[j]] <= 1;
      assert list[i] in list[..j];
    }
    assert |list| == |multiset(list)|;
  }

  /** The listing of a set of keys in no particular order. */
  method ListKeys(ids: set<string>) returns (keys: seq<string>)
    ensures multiset(keys) == multiset(ids)
  {
    keys := [];
    var left := ids;
    while left != {}
      invariant left <= ids && multiset(keys) == multiset(ids - left)
      decreases |left|
    {
      var id :| id in left;
      assert ids - (left - {id}) == (ids - left) + {id};
      left := left - {id};
      keys := keys + [id];
    }
    assert ids - left == ids;
  }
}
