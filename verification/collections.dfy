/**
 * Sequence helpers used by several components: the order-preserving
 * duplicate removal that iterating a JavaScript `Set` or `Map` gives,
 * occurrence counting, and the stable sort of `Array.prototype.sort`.
 */
module Collections {

  predicate Distinct<T(==)>(s: seq<T>)
  {
    forall i, j :: 0 <= i < j < |s| ==> s[i] != s[j]
  }

  /** The elements of `s`, each once, in order of first occurrence. */
  function Dedup<T(==)>(s: seq<T>): (r: seq<T>)
    ensures Distinct(r)
    ensures |r| <= |s|
  {
    if s == [] then []
    else
      var p := Dedup(s[..|s| - 1]);
      if s[|s| - 1] in p then p else p + [s[|s| - 1]]
  }

  /** Dropping repeats loses no element and adds none. */
  lemma {:induction false} DedupSameElements<T>(s: seq<T>)
    ensures forall i :: 0 <= i < |Dedup(s)| ==> Dedup(s)[i] in s
    ensures forall i :: 0 <= i < |s| ==> s[i] in Dedup(s)
  {
    if s != [] {
      var init := s[..|s| - 1];
      DedupSameElements(init);
      var p := Dedup(init);
      forall i | 0 <= i < |Dedup(s)| ensures Dedup(s)[i] in s {
        if i < |p| {
          var j :| 0 <= j < |init| && init[j] == p[i];
          assert s[j] == init[j];
        }
      }
      forall i | 0 <= i < |s| ensures s[i] in Dedup(s) {
        if i < |init| {
          assert s[i] == init[i];
        }
      }
    }
  }

  lemma DedupSnoc<T>(s: seq<T>, x: T)
    ensures Dedup(s + [x]) == if x in Dedup(s) then Dedup(s) else Dedup(s) + [x]
  {
    assert (s + [x])[..|s|] == s;
  }

  /** How many times `x` occurs in `s`. */
  function Occurrences<T(==)>(s: seq<T>, x: T): (n: nat)
    ensures n <= |s|
    ensures n == 0 <==> x !in s
  {
    if s == [] then 0
    else Occurrences(s[..|s| - 1], x) + (if s[|s| - 1] == x then 1 else 0)
  }

  lemma OccurrencesSnoc<T>(s: seq<T>, x: T, y: T)
    ensures Occurrences(s + [x], y) == Occurrences(s, y) + (if x == y then 1 else 0)
  {
    assert (s + [x])[..|s|] == s;
  }

  /** The occurrences in `s` of every key, added up. */
  function SumOccurrences<T(==)>(keys: seq<T>, s: seq<T>): nat
  {
    if keys == [] then 0
    else SumOccurrences(keys[..|keys| - 1], s) + Occurrences(s, keys[|keys| - 1])
  }

  lemma {:induction false} SumOccurrencesSnoc<T>(keys: seq<T>, s: seq<T>, x: T)
    requires Distinct(keys)
    ensures SumOccurrences(keys, s + [x]) == SumOccurrences(keys, s) + (if x in keys then 1 else 0)
  {
    if keys != [] {
      var ks := keys[..|keys| - 1];
      assert (s + [x])[..|s|] == s;
      SumOccurrencesSnoc(ks, s, x);
      assert x in keys <==> x in ks || x == keys[|keys| - 1];
      assert x in ks ==> x != keys[|keys| - 1];
    }
  }

  /** Counting the occurrences of each distinct element accounts for every
      element exactly once. */
  lemma {:induction false} SumOccurrencesOfDedup<T>(s: seq<T>)
    ensures SumOccurrences(Dedup(s), s) == |s|
  {
    if s != [] {
      var init, x := s[..|s| - 1], s[|s| - 1];
      assert s == init + [x];
      var p := Dedup(init);
      SumOccurrencesOfDedup(init);
      SumOccurrencesSnoc(p, init, x);
      if x !in p {
        DedupSameElements(init);
        assert Dedup(s) == p + [x];
        assert (p + [x])[..|p|] == p;
        assert Occurrences(init, x) == 0;
      }
    }
  }

  // ---------------------------------------------------------------------
  // Stable insertion sort under a comparison `le` ("may come first").

  predicate Sorted<T>(s: seq<T>, le: (T, T) -> bool)
  {
    forall i :: 0 <= i < |s| - 1 ==> le(s[i], s[i + 1])
  }

  predicate SortedPairwise<T>(s: seq<T>, le: (T, T) -> bool)
  {
    forall i, j :: 0 <= i < j < |s| ==> le(s[i], s[j])
  }

  ghost predicate Total<T(!new)>(le: (T, T) -> bool)
  {
    forall a, b :: le(a, b) || le(b, a)
  }

  ghost predicate Transitive<T(!new)>(le: (T, T) -> bool)
  {
    forall a, b, c :: le(a, b) && le(b, c) ==> le(a, c)
  }

  /** Puts `x` before the first element it may precede; ties keep `x` first. */
  function InsertBy<T>(x: T, s: seq<T>, le: (T, T) -> bool): (r: seq<T>)
    ensures multiset(r) == multiset(s) + multiset{x}
    ensures |r| == |s| + 1
  {
    if s == [] || le(x, s[0]) then [x] + s
    else
      assert s == [s[0]] + s[1..];
      [s[0]] + InsertBy(x, s[1..], le)
  }

  /** A stable sort: elements that compare equal keep their input order. */
  function SortBy<T>(s: seq<T>, le: (T, T) -> bool): (r: seq<T>)
    ensures multiset(r) == multiset(s)
    ensures |r| == |s|
  {
    if s == [] then []
    else
      assert s == [s[0]] + s[1..];
      InsertBy(s[0], SortBy(s[1..], le), le)
  }

  lemma {:induction false} InsertBySorted<T(!new)>(x: T, s: seq<T>, le: (T, T) -> bool)
    requires Total(le) && Sorted(s, le)
    ensures Sorted(InsertBy(x, s, le), le)
    ensures InsertBy(x, s, le)[0] == x || InsertBy(x, s, le)[0] == s[0]
  {
    if s != [] && !le(x, s[0]) {
      assert le(s[0], x);
      var t := s[1..];
      assert Sorted(t, le) by {
        forall i | 0 <= i < |t| - 1 ensures le(t[i], t[i + 1]) {
          assert t[i] == s[i + 1] && t[i + 1] == s[i + 2];
        }
      }
      InsertBySorted(x, t, le);
      var r := InsertBy(x, s, le);
      assert r == [s[0]] + InsertBy(x, t, le);
      assert t != [] ==> le(s[0], t[0]) by {
        if t != [] { assert t[0] == s[1]; }
      }
    }
  }

  /** The result of the sort is ordered when `le` compares any two elements. */
  lemma {:induction false} SortBySorted<T(!new)>(s: seq<T>, le: (T, T) -> bool)
    requires Total(le)
    ensures Sorted(SortBy(s, le), le)
  {
    if s != [] {
      SortBySorted(s[1..], le);
      InsertBySorted(s[0], SortBy(s[1..], le), le);
    }
  }

  /** Adjacent order extends to every pair under a transitive `le`. */
  lemma {:induction false} SortedIsPairwise<T(!new)>(s: seq<T>, le: (T, T) -> bool)
    requires Transitive(le) && Sorted(s, le)
    ensures SortedPairwise(s, le)
  {
    if |s| > 1 {
      var t := s[1..];
      assert Sorted(t, le) by {
        forall i | 0 <= i < |t| - 1 ensures le(t[i], t[i + 1]) {
          assert t[i] == s[i + 1] && t[i + 1] == s[i + 2];
        }
      }
      SortedIsPairwise(t, le);
      forall i, j | 0 <= i < j < |s| ensures le(s[i], s[j]) {
        if i > 0 {
          assert s[i] == t[i - 1] && s[j] == t[j - 1];
        } else if j > 1 {
          assert s[1] == t[0] && s[j] == t[j - 1];
          assert le(s[0], s[1]) && le(s[1], s[j]);
        }
      }
    }
  }

  /** Dropping repeats keeps a pairwise order. */
  lemma {:induction false} DedupKeepsPairwise<T(!new)>(s: seq<T>, le: (T, T) -> bool)
    requires SortedPairwise(s, le)
    ensures SortedPairwise(Dedup(s), le)
  {
    if s != [] {
      var init, x := s[..|s| - 1], s[|s| - 1];
      assert SortedPairwise(init, le) by {
        forall i, j | 0 <= i < j < |init| ensures le(init[i], init[j]) {
          assert init[i] == s[i] && init[j] == s[j];
        }
      }
      DedupKeepsPairwise(init, le);
      DedupSameElements(init);
      var p := Dedup(init);
      if x !in p {
        var r := p + [x];
        forall i, j | 0 <= i < j < |r| ensures le(r[i], r[j]) {
          if j == |p| {
            assert r[i] in init;
            var k :| 0 <= k < |init| && init[k] == r[i];
            assert s[k] == r[i];
          } else {
            assert r[i] == p[i] && r[j] == p[j];
          }
        }
      }
    }
  }

  // ---------------------------------------------------------------------
  // The default order of Array.prototype.sort on strings: by character code.

  predicate CodeUnitLe(a: string, b: string)
  {
    if a == [] then true
    else if b == [] then false
    else if a[0] != b[0] then a[0] < b[0]
    else CodeUnitLe(a[1..], b[1..])
  }

  lemma {:induction false} CodeUnitLeTotalAt(a: string, b: string)
    ensures CodeUnitLe(a, b) || CodeUnitLe(b, a)
  {
    if a != [] && b != [] && a[0] == b[0] {
      CodeUnitLeTotalAt(a[1..], b[1..]);
    }
  }

  lemma {:induction false} CodeUnitLeTransitiveAt(a: string, b: string, c: string)
    requires CodeUnitLe(a, b) && CodeUnitLe(b, c)
    ensures CodeUnitLe(a, c)
  {
    if a != [] && b != [] && c != [] && a[0] == b[0] && b[0] == c[0] {
      CodeUnitLeTransitiveAt(a[1..], b[1..], c[1..]);
    }
  }

  lemma {:induction false} CodeUnitLeAntisymmetricAt(a: string, b: string)
    requires CodeUnitLe(a, b) && CodeUnitLe(b, a)
    ensures a == b
  {
    if a != [] && b != [] {
      CodeUnitLeAntisymmetricAt(a[1..], b[1..]);
      assert a == [a[0]] + a[1..] && b == [b[0]] + b[1..];
    }
  }

  lemma CodeUnitOrder()
    ensures Total(CodeUnitLe) && Transitive(CodeUnitLe)
  {
    forall a, b ensures CodeUnitLe(a, b) || CodeUnitLe(b, a) {
      CodeUnitLeTotalAt(a, b);
    }
    forall a, b, c | CodeUnitLe(a, b) && CodeUnitLe(b, c) ensures CodeUnitLe(a, c) {
      CodeUnitLeTransitiveAt(a, b, c);
    }
  }
}
