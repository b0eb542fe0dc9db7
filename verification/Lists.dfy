/** Order-preserving removal of repeats, which several services do in their own loops. */
module Lists {
  function AppendNew<T(==)>(items: seq<T>, item: T): seq<T> {
    if item in items then items else items + [item]
  }

  /** First occurrences, in order: dict.fromkeys. */
  function Distinct<T(==)>(items: seq<T>): seq<T> {
    if items == [] then [] else AppendNew(Distinct(items[..|items| - 1]), items[|items| - 1])
  }

  /** The texts that are not empty, in order. */
  function NonEmpty(texts: seq<string>): seq<string> {
    if texts == [] then []
    else NonEmpty(texts[..|texts| - 1]) + (if texts[|texts| - 1] != "" then [texts[|texts| - 1]] else [])
  }

  predicate NoRepeats<T(==)>(s: seq<T>) {
    forall i, j | 0 <= i < j < |s| :: s[i] != s[j]
  }

  lemma {:induction false} DistinctFacts<T>(s: seq<T>)
    ensures NoRepeats(Distinct(s))
    ensures |Distinct(s)| <= |s|
    ensures forall x :: x in Distinct(s) <==> x in s
  {
    if s != [] {
      var front, last := s[..|s| - 1], s[|s| - 1];
      DistinctFacts(front);
      assert s == front + [last];
    }
  }

  lemma RepeatsOfConcatenation<T>(a: seq<T>, b: seq<T>)
    ensures !NoRepeats(a + b) <==> !NoRepeats(a) || !NoRepeats(b) || exists e <- a :: e in b
  {
    if NoRepeats(a + b) {
      forall i, j | 0 <= i < j < |a| ensures a[i] != a[j] { assert (a + b)[i] != (a + b)[j]; }
      forall i, j | 0 <= i < j < |b| ensures b[i] != b[j] { assert (a + b)[|a| + i] != (a + b)[|a| + j]; }
      forall e | e in a ensures e !in b {
        var i :| 0 <= i < |a| && a[i] == e;
        forall j | 0 <= j < |b| ensures b[j] != e { assert (a + b)[i] != (a + b)[|a| + j]; }
      }
    } else {
      var i, j :| 0 <= i < j < |a + b| && (a + b)[i] == (a + b)[j];
      if i < |a| <= j {
        assert a[i] in a && b[j - |a|] in b;
      } else if |a| <= i {
        assert b[i - |a|] == b[j - |a|];
      }
    }
  }

  lemma SubsetSize<T>(a: set<T>, b: set<T>)
    requires a <= b
    ensures |a| <= |b|
  {
    assert b == a + (b - a);
  }
}
