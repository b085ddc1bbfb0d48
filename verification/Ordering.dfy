/** Sorting as the standard libraries of Python and JavaScript do it, and the order of strings. */
module Ordering {
  import opened Sequences

  ghost predicate Preorder<T(!new)>(le: (T, T) -> bool) {
    && (forall x, y :: le(x, y) || le(y, x))
    && (forall x, y, z :: le(x, y) && le(y, z) ==> le(x, z))
  }

  /** No two elements of the set tie. */
  ghost predicate NoTies<T>(le: (T, T) -> bool, s: set<T>) {
    forall x, y | x in s && y in s && le(x, y) && le(y, x) :: x == y
  }

  ghost predicate Sorted<T>(le: (T, T) -> bool, q: seq<T>) {
    forall i, j | 0 <= i < j < |q| :: le(q[i], q[j])
  }

  /** The sequence lists every element of the set once, in order. */
  ghost predicate IsListing<T>(le: (T, T) -> bool, s: set<T>, q: seq<T>) {
    Sorted(le, q) && NoRepeats(q) && Elements(q) == s
  }

  /** A set without ties has only one listing. */
  lemma {:induction false} ListingIsUnique<T(!new)>(le: (T, T) -> bool, s: set<T>, p: seq<T>, q: seq<T>)
    requires Preorder(le) && NoTies(le, s) && IsListing(le, s, p) && IsListing(le, s, q)
    ensures p == q
    decreases |p|
  {
    EmptyElements(p);
    EmptyElements(q);
    if p != [] {
      SameFirst(le, s, p, q);
      DropFirst(le, s, p);
      DropFirst(le, s, q);
      ListingIsUnique(le, s - {p[0]}, p[1..], q[1..]);
    }
  }

  lemma EmptyElements<T>(q: seq<T>)
    ensures q == [] <==> Elements(q) == {}
  {
    if q != [] {
      assert q[0] in Elements(q);
    }
  }

  lemma SameFirst<T(!new)>(le: (T, T) -> bool, s: set<T>, p: seq<T>, q: seq<T>)
    requires Preorder(le) && NoTies(le, s) && IsListing(le, s, p) && IsListing(le, s, q) && p != [] && q != []
    ensures p[0] == q[0]
  {
    assert p[0] in Elements(p) && q[0] in Elements(q);
    var i :| 0 <= i < |q| && q[i] == p[0];
    var j :| 0 <= j < |p| && p[j] == q[0];
    assert le(q[0], p[0]) && le(p[0], q[0]);
  }

  lemma DropFirst<T(!new)>(le: (T, T) -> bool, s: set<T>, q: seq<T>)
    requires IsListing(le, s, q) && q != []
    ensures IsListing(le, s - {q[0]}, q[1..])
  {
    assert q == [q[0]] + q[1..];
    assert Elements(q[1..]) == s - {q[0]} by {
      forall x ensures x in q[1..] <==> x in s && x != q[0] {
        assert x in Elements(q) <==> x in q;
      }
    }
  }

  /** Insertion after everything that is not greater. */
  function Insert<T>(le: (T, T) -> bool, q: seq<T>, x: T): seq<T> {
    if q == [] then [x]
    else if le(q[|q| - 1], x) then q + [x]
    else Insert(le, q[..|q| - 1], x) + [q[|q| - 1]]
  }

  /** A stable sort. */
  function Sort<T>(le: (T, T) -> bool, q: seq<T>): seq<T> {
    if q == [] then [] else Insert(le, Sort(le, q[..|q| - 1]), q[|q| - 1])
  }

  lemma {:induction false} InsertIsSorted<T(!new)>(le: (T, T) -> bool, q: seq<T>, x: T)
    requires Preorder(le) && Sorted(le, q)
    ensures Sorted(le, Insert(le, q, x))
    ensures multiset(Insert(le, q, x)) == multiset(q) + multiset{x}
  {
    if q != [] {
      var init, last := q[..|q| - 1], q[|q| - 1];
      assert q == init + [last];
      if le(last, x) {
        forall i | 0 <= i < |q| ensures le(q[i], x) {
          assert le(q[i], last);
        }
      } else {
        InsertIsSorted(le, init, x);
        var r := Insert(le, init, x);
        forall i | 0 <= i < |r| ensures le(r[i], last) {
          assert r[i] in multiset(r);
          if r[i] != x {
            assert r[i] in init;
          }
        }
      }
    }
  }

  /** Sorting returns the same elements, as often as they were there, in order. */
  lemma {:induction false} SortIsSorted<T(!new)>(le: (T, T) -> bool, q: seq<T>)
    requires Preorder(le)
    ensures Sorted(le, Sort(le, q)) && multiset(Sort(le, q)) == multiset(q)
  {
    if q != [] {
      var init, last := q[..|q| - 1], q[|q| - 1];
      SortIsSorted(le, init);
      InsertIsSorted(le, Sort(le, init), last);
      assert multiset(q) == multiset(init) + multiset{last} by {
        assert q == init + [last];
      }
    }
  }

  /** Cutting a sorted list anywhere leaves only what ranks behind. */
  lemma PrefixRanksFirst<T>(le: (T, T) -> bool, q: seq<T>, n: nat)
    requires Sorted(le, q) && NoRepeats(q) && n <= |q|
    ensures Sorted(le, q[..n]) && NoRepeats(q[..n])
    ensures forall x, y | x in q && x !in q[..n] && y in q[..n] :: le(y, x)
  {
    forall x, y | x in q && x !in q[..n] && y in q[..n] ensures le(y, x) {
      var i :| 0 <= i < |q| && q[i] == x;
      var j :| 0 <= j < n && q[j] == y;
      assert forall k | 0 <= k < n :: q[k] in q[..n];
    }
  }

  lemma SortLists<T(!new)>(le: (T, T) -> bool, q: seq<T>)
    requires Preorder(le) && NoRepeats(q)
    ensures IsListing(le, Elements(q), Sort(le, q))
  {
    SortIsSorted(le, q);
    SameMultiset(q, Sort(le, q));
  }

  lemma SameMultiset<T(!new)>(q: seq<T>, r: seq<T>)
    requires multiset(q) == multiset(r)
    ensures Elements(q) == Elements(r) && (NoRepeats(q) <==> NoRepeats(r))
  {
    forall x ensures x in q <==> x in r {
      assert x in q <==> x in multiset(q);
    }
    NoRepeatsIsCounted(q);
    NoRepeatsIsCounted(r);
  }

  lemma {:induction false} NoRepeatsIsCounted<T(!new)>(q: seq<T>)
    ensures NoRepeats(q) <==> forall x :: multiset(q)[x] <= 1
  {
    if q != [] {
      var init, last := q[..|q| - 1], q[|q| - 1];
      assert q == init + [last];
      NoRepeatsIsCounted(init);
      if NoRepeats(q) {
        assert last !in init;
      } else if NoRepeats(init) {
        var i :| 0 <= i < |init| && init[i] == last;
        assert last in init;
        assert multiset(q)[last] == multiset(init)[last] + 1;
      } else {
        var x :| multiset(init)[x] > 1;
        assert multiset(q)[x] > 1;
      }
    }
  }

  /** Lexicographic order by code point. */
  predicate LexLe(a: string, b: string) {
    a == "" || (b != "" && (a[0] < b[0] || (a[0] == b[0] && LexLe(a[1..], b[1..]))))
  }

  /** The first string is a prefix of the second, or has the smaller character where they first differ. */
  ghost predicate PrefixOrSmaller(a: string, b: string) {
    a <= b || exists i :: 0 <= i < |a| && i < |b| && a[..i] == b[..i] && a[i] < b[i]
  }

  lemma {:induction false} LexIsFirstDifference(a: string, b: string)
    ensures LexLe(a, b) <==> PrefixOrSmaller(a, b)
  {
    if a != "" && b != "" {
      LexIsFirstDifference(a[1..], b[1..]);
      assert a == [a[0]] + a[1..] && b == [b[0]] + b[1..];
      if a[0] < b[0] {
        assert a[..0] == b[..0];
      } else if a[0] == b[0] {
        SameFirstCharacter(a, b);
      }
    }
  }

  lemma SameFirstCharacter(a: string, b: string)
    requires a != "" && b != "" && a[0] == b[0]
    ensures PrefixOrSmaller(a, b) <==> PrefixOrSmaller(a[1..], b[1..])
  {
    assert a <= b <==> a[1..] <= b[1..];
    if i :| 0 <= i < |a| && i < |b| && a[..i] == b[..i] && a[i] < b[i] {
      assert a[1..][..i - 1] == a[..i][1..] && b[1..][..i - 1] == b[..i][1..];
      assert a[1..][i - 1] < b[1..][i - 1];
    }
    if i :| 0 <= i < |a[1..]| && i < |b[1..]| && a[1..][..i] == b[1..][..i] && a[1..][i] < b[1..][i] {
      assert a[..i + 1] == [a[0]] + a[1..][..i] && b[..i + 1] == [b[0]] + b[1..][..i];
      assert a[i + 1] < b[i + 1];
    }
  }

  lemma {:induction false} LexTotal(a: string, b: string)
    ensures LexLe(a, b) || LexLe(b, a)
    ensures LexLe(a, b) && LexLe(b, a) ==> a == b
  {
    if a != "" && b != "" {
      LexTotal(a[1..], b[1..]);
      assert a == [a[0]] + a[1..] && b == [b[0]] + b[1..];
    }
  }

  lemma {:induction false} LexTransitive(a: string, b: string, c: string)
    requires LexLe(a, b) && LexLe(b, c)
    ensures LexLe(a, c)
  {
    if a != "" && a[0] == b[0] && b[0] == c[0] {
      LexTransitive(a[1..], b[1..], c[1..]);
    }
  }
}
