/** Sequences as lists of elements, shared by every module of the model. */
module Sequences {
  ghost predicate NoRepeats<T>(q: seq<T>) {
    forall i, j | 0 <= i < j < |q| :: q[i] != q[j]
  }

  function Elements<T>(q: seq<T>): set<T> {
    set x | x in q
  }

  lemma {:induction false} DistinctCounts<T>(q: seq<T>)
    requires NoRepeats(q)
    ensures |Elements(q)| == |q|
  {
    if q != [] {
      var init, last := q[..|q| - 1], q[|q| - 1];
      assert q == init + [last];
      DistinctCounts(init);
      assert Elements(q) == Elements(init) + {last};
    }
  }

  lemma {:induction false} SubsetCounts<T>(s: set<T>, t: set<T>)
    requires s <= t
    ensures |s| <= |t|
  {
    if x :| x in s {
      SubsetCounts(s - {x}, t - {x});
    }
  }

  lemma OneMoreElement<T>(q: seq<T>, n: nat)
    requires n < |q|
    ensures forall x :: x in q[..n + 1] <==> x in q[..n] || x == q[n]
    ensures NoRepeats(q) ==> q[n] !in q[..n]
  {
    assert q[..n + 1] == q[..n] + [q[n]];
  }

  /** Keeps the first occurrence of every element. */
  function Dedupe<T(==)>(s: seq<T>): seq<T> {
    if s == [] then []
    else
      var init, last := Dedupe(s[..|s| - 1]), s[|s| - 1];
      if last in init then init else init + [last]
  }

  /** The index of the first occurrence of a present element. */
  function FirstIndex<T(==)>(s: seq<T>, x: T): (i: nat)
    requires x in s
    ensures i < |s| && s[i] == x && x !in s[..i]
  {
    if s[0] == x then 0 else 1 + FirstIndex(s[1..], x)
  }

  lemma {:induction false} FirstIndexOfPrefix<T>(s: seq<T>, t: seq<T>, x: T)
    requires x in s
    ensures FirstIndex(s + t, x) == FirstIndex(s, x)
  {
    var j := FirstIndex(s, x);
    assert (s + t)[j] == x && (s + t)[..j] == s[..j];
  }

  /** Deduplication keeps exactly the elements, each once, in the order of their first occurrences. */
  lemma {:induction false} DedupeIsFirstOccurrence<T(!new)>(s: seq<T>)
    ensures forall x :: x in Dedupe(s) <==> x in s
    ensures NoRepeats(Dedupe(s))
    ensures forall i, j | 0 <= i < j < |Dedupe(s)| ::
      Dedupe(s)[i] in s && Dedupe(s)[j] in s && FirstIndex(s, Dedupe(s)[i]) < FirstIndex(s, Dedupe(s)[j])
  {
    if s != [] {
      var init, last := s[..|s| - 1], s[|s| - 1];
      assert s == init + [last];
      DedupeIsFirstOccurrence(init);
      var d, d' := Dedupe(init), Dedupe(s);
      forall i, j | 0 <= i < j < |d'|
        ensures d'[i] in s && d'[j] in s && FirstIndex(s, d'[i]) < FirstIndex(s, d'[j])
      {
        assert d'[i] == d[i];
        FirstIndexOfPrefix(init, [last], d[i]);
        if j < |d| {
          FirstIndexOfPrefix(init, [last], d[j]);
        }
      }
    }
  }
}
